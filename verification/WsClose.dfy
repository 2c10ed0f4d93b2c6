/** Close frames, and frames whose first two octets are refused. */
module WsClose {
  import opened Bytes
  import opened WsMask
  import opened WsReceive
  import opened WsRoundTrip
  import opened WsOverhead

  /** The first octet of a close frame, with or without the final bit. */
  predicate IsClose(revision: nat, h: byte) {
    h % 16 == if revision < 7 then 1 else 8
  }

  /** The state behind the header of a close frame with l octets. */
  function CloseHeader(c: Conn, s0: Rx, h: byte, maskBit: byte, l: nat): Rx
    requires ValidRx(c, s0)
  {
    KeysFit(c, s0);
    s0.(opcode := 8, fin := h >= 128, masked := maskBit == 128, length := l,
        index := EndIndex(HeaderKeys(c, s0).kind, s0.index, 2), parse := if maskBit == 128 then Key(1) else Payload)
  }

  lemma CloseFirst(c: Conn, s: Rx, s0: Rx, b: byte, h: byte)
    requires AtHeader(c, s, s0) && IsClose(c.revision, h)
    requires var k := HeaderKeys(c, s0); ValidKeys(k) && ValidIndex(k.kind, s0.index) && MaskByte(k, s0.index, b) == h
    ensures Step(c, s, b) == Next(s0.(opcode := 8, fin := h >= 128, parse := HdrLen,
                                      index := NextIndex(HeaderKeys(c, s0).kind, s0.index)), [])
  {
    AtHeaderStep(c, s, s0, b);
    hide ValidRx, Step, MaskByte, NextIndex;
  }

  lemma CloseTwo(c: Conn, s: Rx, s0: Rx, wire: seq<byte>, h: byte, maskBit: byte, l: byte)
    requires AtHeader(c, s, s0) && IsClose(c.revision, h) && |wire| == 2
    requires 0 < l < 126 && (maskBit == 0 || maskBit == 128) && (maskBit == 128 ==> c.server && c.revision >= 7)
    requires var k := HeaderKeys(c, s0);
             && ValidKeys(k) && ValidIndex(k.kind, s0.index) && Masked(k, s0.index, wire) == [h, l + maskBit]
    ensures Run(c, s, wire) == Next(CloseHeader(c, s0, h, maskBit, l), [])
  {
    hide Step, MaskByte, NextIndex, ValidKeys, Run, ValidRx;
    var k := HeaderKeys(c, s0);
    FirstMasked(k, s0.index, wire);
    CloseFirst(c, s, s0, wire[0], h);
    var s1 := s0.(opcode := 8, fin := h >= 128, parse := HdrLen, index := NextIndex(k.kind, s0.index));
    StillValid(c, s, wire[0]);
    FirstMasked(k, s1.index, wire[1..]);
    assert wire[1..][0] == wire[1] && wire[1..][1..] == [];
    SecondStep(c, s1, wire[1], maskBit, l);
    StillValid(c, s1, wire[1]);
    assert wire == [wire[0]] + [wire[1]];
    RunQuiet(c, s, wire[0], s1, [wire[1]]);
    RunOne(c, s1, wire[1]);
    assert EndIndex(k.kind, s0.index, 2) == NextIndex(k.kind, NextIndex(k.kind, s0.index));
  }

  /** The payload is answered and closes the connection. */
  lemma ClosePayload(c: Conn, at: Rx, wire: seq<byte>)
    requires ValidRx(c, at) && at.parse == Payload && at.buffer == [] && at.opcode == 8 && at.length == |wire| && 0 < |wire| < 126
    ensures var k := PayloadKeys(c, at);
            && ValidKeys(k) && ValidIndex(k.kind, at.index)
            && Run(c, at, wire) == Closed([Answered(8, Masked(k, at.index, wire))])
  {
    hide Step, Run, ValidRx, Masked, PayloadKeys;
    ControlRun(c, at, wire);
    var plain := Masked(PayloadKeys(c, at), at.index, wire);
    assert [] + plain == plain;
  }

  lemma ThenCloses(c: Conn, s: Rx, head: seq<byte>, at: Rx, wire: seq<byte>, p: seq<byte>, more: seq<byte>)
    requires ValidRx(c, s) && ValidRx(c, at) && Run(c, s, head) == Next(at, [])
    requires at.parse == Payload && at.buffer == [] && at.opcode == 8 && at.length == |wire| && 0 < |wire| < 126
    requires var k := PayloadKeys(c, at); ValidKeys(k) && ValidIndex(k.kind, at.index) && Masked(k, at.index, wire) == p
    ensures Run(c, s, head + wire + more) == Closed([Answered(8, p)])
  {
    hide Step, Run, ValidRx, Masked, PayloadKeys;
    ClosePayload(c, at, wire);
    RunAppend(c, s, head, wire);
    assert [] + [Answered(8, p)] == [Answered(8, p)];
    RunAppend(c, s, head + wire, more);
  }

  /** A close frame in clear makes a client of any revision, and a server from revision 7 on, answer with the same payload
      and close, whatever follows. */
  lemma ClearCloses(c: Conn, s: Rx, h: byte, p: seq<byte>, more: seq<byte>)
    requires ValidRx(c, s) && Idle(s) && (c.server ==> c.revision >= 7)
    requires IsClose(c.revision, h) && 0 < |p| < 126
    ensures Run(c, s, [h, |p|] + p + more) == Closed([Answered(8, p)])
  {
    hide Step, Run, Masked;
    var s0 := if c.server then s.(allZero := true) else s;
    ZeroMaskKeeps(HeaderKeys(c, s0), s0.index, [h, |p|]);
    CloseTwo(c, s, s0, [h, |p|], h, 0, |p|);
    var at := CloseHeader(c, s0, h, 0, |p|);
    KeysFit(c, at);
    NoMaskKeepsIndex(s0.index, 2);
    ZeroMaskKeeps(PayloadKeys(c, at), at.index, p);
    ThenCloses(c, s, [h, |p|], at, p, p, more);
  }

  /** The masked close frame of a client from revision 7 on. */
  lemma MaskedCloses(c: Conn, s: Rx, h: byte, nonce: seq<byte>, p: seq<byte>, more: seq<byte>)
    requires ValidRx(c, s) && c.server && c.revision >= 7 && c.kind == Mask05 && Idle(s)
    requires IsClose(c.revision, h) && 0 < |p| < 126 && |nonce| == 4
    ensures var k := Keys(c.kind, nonce, c.key04);
            ValidKeys(k) && Run(c, s, [h, 128 + |p|] + nonce + Masked(k, 0, p) + more) == Closed([Answered(8, p)])
  {
    hide Step, Run, Masked;
    var k := Keys(c.kind, nonce, c.key04);
    var s0 := s.(allZero := true);
    var head := [h, |p| + 128];
    ZeroMaskKeeps(HeaderKeys(c, s0), s0.index, head);
    CloseTwo(c, s, s0, head, h, 128, |p|);
    var mid := CloseHeader(c, s0, h, 128, |p|);
    NoMaskKeepsIndex(s0.index, 2);
    KeyRun(c, mid, nonce);
    var at := mid.(nonce := nonce, allZero := nonce == ZERO_NONCE, index := 0, parse := Payload);
    RunThenRun(c, s, head, mid, nonce, at);
    MaskedInvolution(k, 0, p);
    if nonce == ZERO_NONCE {
      ZeroMaskKeeps(k, 0, p);
      ZeroMaskKeeps(PayloadKeys(c, at), 0, p);
    }
    ThenCloses(c, s, head + nonce, at, Masked(k, 0, p), p, more);
  }

  /** The same before revision 7, where the mask is over the header as well. */
  lemma OldMaskedCloses(c: Conn, s: Rx, h: byte, nonce: seq<byte>, p: seq<byte>, more: seq<byte>)
    requires ValidRx(c, s) && c.server && c.revision < 7 && c.kind == (if c.revision == 4 then Mask04 else Mask05) && Idle(s)
    requires IsClose(c.revision, h) && 0 < |p| < 126 && |nonce| == 4
    ensures var k := Keys(c.kind, nonce, c.key04);
            var index := if c.defeatMask then s.index else 0;
            && ValidKeys(k) && ValidIndex(k.kind, index)
            && Run(c, s, nonce + Masked(k, index, [h, |p|] + p) + more) == Closed([Answered(8, p)])
  {
    hide Step, Run, Masked, EndIndex;
    var k := Keys(c.kind, nonce, c.key04);
    var index := if c.defeatMask then s.index else 0;
    NonceRun(c, s, nonce);
    var s0 := s.(nonce := nonce, allZero := nonce == ZERO_NONCE, index := index, parse := Hdr1);
    var head, body := Masked(k, index, [h, |p|]), Masked(k, EndIndex(k.kind, index, 2), p);
    MaskedAppend(k, index, [h, |p|], p);
    MaskedInvolution(k, index, [h, |p|]);
    MaskedInvolution(k, EndIndex(k.kind, index, 2), p);
    CloseTwo(c, s0, s0, head, h, 0, |p|);
    var at := CloseHeader(c, s0, h, 0, |p|);
    RunThenRun(c, s, nonce, s0, head, at);
    if nonce == ZERO_NONCE && c.revision >= 5 {
      ZeroMaskKeeps(k, at.index, p);
      ZeroMaskKeeps(PayloadKeys(c, at), at.index, p);
    }
    ThenCloses(c, s, nonce + head, at, body, p, more);
    assert nonce + Masked(k, index, [h, |p|] + p) == nonce + head + body;
  }

  // ----- refused headers -----

  /** The numbers that the revision gives to close, ping and pong and to everything that is no data. */
  predicate ControlNumber(revision: nat, op: nat) {
    if revision < 7 then 1 <= op <= 3 else op >= 8
  }

  lemma FirstRefused(c: Conn, s: Rx, h: byte)
    requires ValidRx(c, s) && !c.server && Idle(s)
    ensures var o := Step(c, s, h);
            if c.revision < 7 && h % 16 >= 6 then o == Closed([])
            else
              && o.Next? && o.events == [] && o.rx.parse == HdrLen && o.rx.buffer == [] && ValidRx(c, o.rx)
              && (IsControl(o.rx.opcode) <==> ControlNumber(c.revision, h % 16))
              && (o.rx.opcode == 8 <==> IsClose(c.revision, h))
  {
  }

  lemma SecondRefused(c: Conn, s: Rx, l: byte)
    requires ValidRx(c, s) && !c.server && s.parse == HdrLen && s.buffer == []
    ensures var o := Step(c, s, l);
            && (o.Closed? <==> (c.revision < 7 && l >= 128) || (IsControl(s.opcode) && l % 128 >= 126) || (s.opcode == 8 && l == 0))
            && (o.Closed? ==> o.events == if s.opcode == 8 && l == 0 then [Answered(8, [])] else [])
  {
  }

  /** A client takes the first two octets of a frame apart unless the opcode is reserved or the mask bit set before
      revision 7, or a control frame has an extended length; and a close frame without payload closes at once. */
  lemma ClientRefuses(c: Conn, s: Rx, h: byte, l: byte)
    requires ValidRx(c, s) && !c.server && Idle(s)
    ensures var o := Run(c, s, [h, l]);
            && (o.Closed? <==>
                  || (c.revision < 7 && (h % 16 >= 6 || l >= 128))
                  || (ControlNumber(c.revision, h % 16) && l % 128 >= 126)
                  || (IsClose(c.revision, h) && l == 0))
            && (o.Closed? ==> o.events == if IsClose(c.revision, h) && l == 0 then [Answered(8, [])] else [])
  {
    hide Step, ValidRx, IsControl;
    FirstRefused(c, s, h);
    RunCons(c, s, h, [l]);
    var first := Step(c, s, h);
    if first.Next? {
      SecondRefused(c, first.rx, l);
      RunOne(c, first.rx, l);
      BeforeBefore([], [], Run(c, first.rx, [l]));
    }
    assert [h, l] == [h] + [l];
  }
}
