/** What one end of a websocket connection writes is what the other end delivers. */
module WsRoundTrip {
  import opened Bytes
  import opened WsMask
  import opened WsReceive
  import opened WsSend

  /** A payload as it reaches the user: full buffers, then the remainder. */
  function Chunks(p: seq<byte>): (r: seq<seq<byte>>)
    requires p != []
    ensures forall i | 0 <= i < |r| :: 0 < |r[i]| <= MAX_USER_RX_BUFFER
    ensures Flatten(r) == p && r != []
  {
    if |p| <= MAX_USER_RX_BUFFER then [p]
    else
      var rest := Chunks(p[MAX_USER_RX_BUFFER..]);
      assert ([p[..MAX_USER_RX_BUFFER]] + rest)[1..] == rest;
      [p[..MAX_USER_RX_BUFFER]] + rest
  }

  function Deliveries(op: nat, chunks: seq<seq<byte>>): seq<Event> {
    if chunks == [] then [] else [Received(op, chunks[0])] + Deliveries(op, chunks[1..])
  }

  /** Delivered text and binary data, put together again. */
  function UserData(events: seq<Event>): seq<byte> {
    if events == [] then []
    else (if events[0].Received? then events[0].chunk else []) + UserData(events[1..])
  }

  lemma {:induction false} UserDataOf(op: nat, chunks: seq<seq<byte>>)
    ensures UserData(Deliveries(op, chunks)) == Flatten(chunks)
  {
    if chunks != [] {
      UserDataOf(op, chunks[1..]);
      assert Deliveries(op, chunks)[1..] == Deliveries(op, chunks[1..]);
    }
  }

  // ----- the payload -----

  predicate IsData(c: Conn, op: nat) {
    op == OPCODE_TEXT || op == OPCODE_BINARY || (op == OPCODE_CONTINUATION && !c.server)
  }

  lemma KeysFit(c: Conn, s: Rx)
    requires ValidRx(c, s)
    ensures var k := PayloadKeys(c, s); ValidKeys(k) && ValidIndex(k.kind, s.index)
    ensures var k := HeaderKeys(c, s); ValidKeys(k) && ValidIndex(k.kind, s.index)
  {
  }

  function FrameEnd(s: Rx, k: Keys, n: nat): Rx
    requires ValidIndex(k.kind, s.index)
  {
    s.(parse := New, buffer := [], length := 0, index := EndIndex(k.kind, s.index, n))
  }

  lemma StepPayload(c: Conn, s: Rx, b: byte, left: nat)
    requires ValidRx(c, s) && s.parse == Payload && s.length == 1 + left
    ensures var k := PayloadKeys(c, s);
            && ValidKeys(k) && ValidIndex(k.kind, s.index)
            && var s' := s.(buffer := s.buffer + [MaskByte(k, s.index, b)], length := left, index := NextIndex(k.kind, s.index));
               Step(c, s, b) == if left == 0 then Spill(c, s'.(parse := New))
                                else if |s'.buffer| == MAX_USER_RX_BUFFER then Spill(c, s')
                                else Next(s', [])
  {
    hide Spill;
  }

  lemma SpillData(c: Conn, s: Rx)
    requires IsData(c, s.opcode)
    ensures Spill(c, s) == Next(s.(buffer := []), [Received(s.opcode, s.buffer)])
  {
  }

  /** The state after one payload octet, if nothing is spilled. */
  function WithPayloadOctet(c: Conn, s: Rx, b: byte): Rx
    requires ValidRx(c, s) && s.length > 0
  {
    KeysFit(c, s);
    var k := PayloadKeys(c, s);
    s.(buffer := s.buffer + [MaskByte(k, s.index, b)], length := s.length - 1, index := NextIndex(k.kind, s.index))
  }

  lemma LastOctet(c: Conn, s: Rx, b: byte)
    requires ValidRx(c, s) && s.parse == Payload && IsData(c, s.opcode) && s.length == 1
    ensures var s' := WithPayloadOctet(c, s, b);
            Run(c, s, [b]) == Next(s'.(parse := New, buffer := []), Deliveries(s.opcode, Chunks(s'.buffer)))
  {
    hide Step, Spill;
    StepPayload(c, s, b, 0);
    RunOne(c, s, b);
    SpillData(c, WithPayloadOctet(c, s, b).(parse := New));
  }

  lemma InnerOctet(c: Conn, s: Rx, b: byte, more: seq<byte>)
    requires ValidRx(c, s) && s.parse == Payload && IsData(c, s.opcode) && s.length == 1 + |more| > 1
    ensures var s' := WithPayloadOctet(c, s, b);
            if |s'.buffer| == MAX_USER_RX_BUFFER then
              ValidRx(c, s'.(buffer := []))
              && Run(c, s, [b] + more) == Before([Received(s.opcode, s'.buffer)], Run(c, s'.(buffer := []), more))
            else ValidRx(c, s') && Run(c, s, [b] + more) == Run(c, s', more)
  {
    hide Step, Spill, Run;
    StepPayload(c, s, b, |more|);
    var s' := WithPayloadOctet(c, s, b);
    RunCons(c, s, b, more);
    if |s'.buffer| == MAX_USER_RX_BUFFER {
      SpillData(c, s');
      StillValid(c, s, b);
    } else {
      StillValid(c, s, b);
      BeforeBefore([], [], Run(c, s', more));
    }
  }

  /** Data payload: every octet is unmasked and delivered, in full buffers and one remainder. */
  lemma {:induction false} PayloadRun(c: Conn, s: Rx, wire: seq<byte>)
    requires ValidRx(c, s) && s.parse == Payload && IsData(c, s.opcode) && s.length == |wire| > 0
    ensures var k := PayloadKeys(c, s);
            && ValidKeys(k) && ValidIndex(k.kind, s.index)
            && Run(c, s, wire) == Next(FrameEnd(s, k, |wire|),
                                       Deliveries(s.opcode, Chunks(s.buffer + Masked(k, s.index, wire))))
    decreases |wire|
  {
    hide Step, Spill, Run, ValidRx, IsData, MaskByte, NextIndex;
    KeysFit(c, s);
    var k := PayloadKeys(c, s);
    var b, more := wire[0], wire[1..];
    FirstMasked(k, s.index, wire);
    var s' := WithPayloadOctet(c, s, b);
    var plain := Masked(k, s'.index, more);
    Uncons(Masked(k, s.index, wire));
    Associative(s.buffer, [MaskByte(k, s.index, b)], plain);
    if more == [] {
      LastOctet(c, s, b);
      assert wire == [b] && s'.buffer + plain == s'.buffer;
    } else {
      InnerOctet(c, s, b, more);
      if |s'.buffer| == MAX_USER_RX_BUFFER {
        PayloadRun(c, s'.(buffer := []), more);
        FirstChunk(s.opcode, s'.buffer, plain);
        assert [] + plain == plain;
      } else {
        PayloadRun(c, s', more);
      }
    }
  }

  lemma FirstChunk(op: nat, full: seq<byte>, rest: seq<byte>)
    requires |full| == MAX_USER_RX_BUFFER && rest != []
    ensures Deliveries(op, Chunks(full + rest)) == [Received(op, full)] + Deliveries(op, Chunks(rest))
  {
    assert (full + rest)[..MAX_USER_RX_BUFFER] == full && (full + rest)[MAX_USER_RX_BUFFER..] == rest;
    var cs := Chunks(full + rest);
    assert cs == [full] + Chunks(rest);
    assert cs[1..] == Chunks(rest);
  }

  /** A control payload stays below the buffer size, so it is served once, at its end. */
  lemma {:induction false} ControlRun(c: Conn, s: Rx, wire: seq<byte>)
    requires ValidRx(c, s) && s.parse == Payload && s.length == |wire| > 0 && |s.buffer| + |wire| < MAX_USER_RX_BUFFER
    requires IsControl(s.opcode)
    ensures var k := PayloadKeys(c, s);
            && ValidKeys(k) && ValidIndex(k.kind, s.index)
            && Run(c, s, wire) == Spill(c, FrameEnd(s, k, |wire|).(buffer := s.buffer + Masked(k, s.index, wire)))
    decreases |wire|
  {
    hide Step, Spill;
    KeysFit(c, s);
    var k := PayloadKeys(c, s);
    var b, more := wire[0], wire[1..];
    assert wire == [b] + more;
    StepPayload(c, s, b, |more|);
    var d := MaskByte(k, s.index, b);
    var s' := s.(buffer := s.buffer + [d], length := |more|, index := NextIndex(k.kind, s.index));
    var plain := Masked(k, s'.index, more);
    assert Masked(k, s.index, wire) == [d] + plain;
    Associative(s.buffer, [d], plain);
    if more == [] {
      RunOne(c, s, b);
      assert wire == [b] && s'.buffer + plain == s'.buffer;
    } else {
      ControlRun(c, s', more);
      BeforeBefore([], [], Run(c, s', more));
    }
  }

  /** Numbers that neither end has a case for, and continuation on a server. */
  predicate Unplaced(c: Conn, op: nat) {
    (c.server && op == OPCODE_CONTINUATION) || 3 <= op <= 7 || op >= 11
  }

  lemma SpillDropped(c: Conn, s: Rx)
    requires Unplaced(c, s.opcode)
    ensures Spill(c, s) == Next(s.(buffer := []), [])
  {
  }

  /** The payload of such a frame is dropped: on a server fragmented messages reach the user without their tails. */
  lemma {:induction false} DroppedRun(c: Conn, s: Rx, wire: seq<byte>)
    requires ValidRx(c, s) && s.parse == Payload && Unplaced(c, s.opcode) && s.length == |wire| > 0
    ensures var k := PayloadKeys(c, s);
            ValidKeys(k) && ValidIndex(k.kind, s.index) && Run(c, s, wire) == Next(FrameEnd(s, k, |wire|), [])
    decreases |wire|
  {
    hide Step, Spill;
    KeysFit(c, s);
    var k := PayloadKeys(c, s);
    var b, more := wire[0], wire[1..];
    assert wire == [b] + more;
    StepPayload(c, s, b, |more|);
    var s' := s.(buffer := s.buffer + [MaskByte(k, s.index, b)], length := |more|, index := NextIndex(k.kind, s.index));
    SpillDropped(c, s');
    SpillDropped(c, s'.(parse := New));
    if more != [] {
      var s'' := if |s'.buffer| == MAX_USER_RX_BUFFER then s'.(buffer := []) else s';
      DroppedRun(c, s'', more);
      BeforeBefore([], [], Run(c, s'', more));
    }
  }

  // ----- the header -----

  lemma RunCons(c: Conn, s: Rx, b: byte, more: seq<byte>)
    requires ValidRx(c, s)
    ensures var first := Step(c, s, b);
            Run(c, s, [b] + more) == if first.Closed? then first else Before(first.events, Run(c, first.rx, more))
  {
    hide Step, ValidRx;
    assert ([b] + more)[0] == b && ([b] + more)[1..] == more;
  }

  lemma RunQuiet(c: Conn, s: Rx, b: byte, s': Rx, more: seq<byte>)
    requires ValidRx(c, s) && ValidRx(c, s') && Step(c, s, b) == Next(s', [])
    ensures Run(c, s, [b] + more) == Run(c, s', more)
  {
    hide Step, ValidRx;
    RunCons(c, s, b, more);
    BeforeBefore([], [], Run(c, s', more));
  }

  lemma RunOne(c: Conn, s: Rx, b: byte)
    requires ValidRx(c, s)
    ensures Run(c, s, [b]) == Step(c, s, b)
  {
    hide Step, ValidRx;
    assert [b][1..] == [];
    var o := Step(c, s, b);
    assert o.events + [] == o.events;
  }

  function WithLengthOctet(s: Rx, k: Keys, d: byte): Rx
    requires s.parse.Len? && s.parse.left > 0 && ValidIndex(k.kind, s.index)
  {
    s.(length := (if s.parse.left == s.parse.width then 0 else s.length) + Shifted(d, s.parse.left - 1),
       index := NextIndex(k.kind, s.index))
  }

  lemma LengthStep(c: Conn, s: Rx, b: byte, d: byte)
    requires ValidRx(c, s) && s.parse.Len?
    requires var k := HeaderKeys(c, s); ValidKeys(k) && ValidIndex(k.kind, s.index) && d == MaskByte(k, s.index, b)
    requires s.parse.left == 8 ==> d < 128
    ensures Step(c, s, b) == if s.parse.left == 1 then AfterLength(c, WithLengthOctet(s, HeaderKeys(c, s), d))
                             else Next(WithLengthOctet(s, HeaderKeys(c, s), d)
                                       .(parse := Len(s.parse.left - 1, s.parse.width)), [])
  {
    hide AfterLength, Shifted;
  }

  /** The extended length octets add up to the big-endian length. */
  lemma {:induction false} LengthRun(c: Conn, s: Rx, wire: seq<byte>, width: nat)
    requires ValidRx(c, s) && 0 < |wire| <= width <= 8 && s.parse == Len(|wire|, width)
    requires var k := HeaderKeys(c, s);
             ValidKeys(k) && ValidIndex(k.kind, s.index) && (|wire| == 8 ==> Masked(k, s.index, wire)[0] < 128)
    ensures var k := HeaderKeys(c, s);
            var value := FromBigEndian(Masked(k, s.index, wire));
            Run(c, s, wire) == AfterLength(c, s.(parse := Len(1, width), index := EndIndex(k.kind, s.index, |wire|),
                                                 length := (if |wire| == width then 0 else s.length) + value))
    decreases |wire|
  {
    hide AfterLength, Shifted, Step, ValidRx;
    var k := HeaderKeys(c, s);
    var b, more := wire[0], wire[1..];
    assert wire == [b] + more;
    var d := MaskByte(k, s.index, b);
    LengthStep(c, s, b, d);
    var s' := WithLengthOctet(s, k, d);
    var plain := Masked(k, s'.index, more);
    FromBigEndianCons(d, plain);
    ShiftedIs(d, |plain|);
    assert Masked(k, s.index, wire) == [d] + plain;
    if more == [] {
      RunOne(c, s, b);
      assert wire == [b];
    } else {
      var s'' := s'.(parse := Len(|more|, width));
      StillValid(c, s, b);
      RunQuiet(c, s, b, s'', more);
      LengthRun(c, s'', more, width);
    }
  }

  lemma ShiftedIs(d: byte, n: nat)
    ensures Shifted(d, n) == d * Pow256(n)
  {
  }

  lemma StillValid(c: Conn, s: Rx, b: byte)
    requires ValidRx(c, s) && Step(c, s, b).Next?
    ensures ValidRx(c, Step(c, s, b).rx)
  {
  }

  /** The state in which the first header octet is read. */
  predicate AtHeader(c: Conn, s: Rx, s0: Rx) {
    && ValidRx(c, s) && ValidRx(c, s0)
    && (if c.server && c.revision < 7 then s.parse == Hdr1 && s0 == s
        else s.parse == New && s0 == if c.server then s.(allZero := true) else s)
  }

  /** The state after a header announcing `len` octets. */
  function HeaderRead(s: Rx, k: Keys, p: Protocol, fin: bool, maskBit: byte, len: nat, n: nat): Rx
    requires ValidIndex(k.kind, s.index)
  {
    s.(opcode := Opcode(p), fin := fin, masked := maskBit == 128, length := len, index := EndIndex(k.kind, s.index, n),
       parse := if maskBit == 128 then Key(1) else Payload)
  }

  lemma AtHeaderStep(c: Conn, s: Rx, s0: Rx, b: byte)
    requires AtHeader(c, s, s0)
    ensures Step(c, s, b) == FirstOctet(c, s0, b)
  {
    hide FirstOctet;
  }

  lemma OpcodeAndFin(op: nat, fin: bool)
    requires op < 16
    ensures var d := op + if fin then 128 else 0; d % 16 == op && (d >= 128 <==> fin)
  {
  }

  lemma FirstStep(c: Conn, s: Rx, s0: Rx, b: byte, p: Protocol, fin: bool)
    requires AtHeader(c, s, s0)
    requires var k := HeaderKeys(c, s0);
             && ValidKeys(k) && ValidIndex(k.kind, s0.index)
             && MaskByte(k, s0.index, b) == WireOpcode(c.revision, p) + if fin then 128 else 0
    ensures Step(c, s, b) == Next(s0.(opcode := Opcode(p), fin := fin, parse := HdrLen,
                                      index := NextIndex(HeaderKeys(c, s0).kind, s0.index)), [])
  {
    AtHeaderStep(c, s, s0, b);
    hide ValidRx, Step, MaskByte, WireOpcode, FromOpcode04, NextIndex;
    OpcodeAndFin(WireOpcode(c.revision, p), fin);
  }

  lemma SecondStep(c: Conn, s: Rx, b: byte, maskBit: byte, l: byte)
    requires ValidRx(c, s) && s.parse == HdrLen
    requires var k := HeaderKeys(c, s);
             ValidKeys(k) && ValidIndex(k.kind, s.index) && MaskByte(k, s.index, b) == l + maskBit
    requires (maskBit == 0 || maskBit == 128) && l < 128 && (maskBit == 128 ==> c.server && c.revision >= 7)
    requires l >= 126 ==> !IsControl(s.opcode)
    requires l > 0
    ensures var s' := s.(masked := maskBit == 128, index := NextIndex(HeaderKeys(c, s).kind, s.index));
            var width := if l == 126 then 2 else 8;
            Step(c, s, b) == if l >= 126 then Next(s'.(parse := Len(width, width)), [])
                             else Next(s'.(length := l, parse := if maskBit == 128 then Key(1) else Payload), [])
  {
    hide ValidRx;
  }

  lemma LengthFieldValue(len: nat)
    requires 126 <= len < 0x8000_0000_0000_0000
    ensures var f := BigEndian(if len < 65536 then 2 else 8, len);
            FromBigEndian(f) == len && (len >= 65536 ==> f[0] < 128)
  {
    var width := if len < 65536 then 2 else 8;
    var f := BigEndian(width, len);
    PowersOf256();
    BigEndianRoundTrip(width, len);
    hide BigEndian, FromBigEndian, Pow256;
    if len >= 65536 {
      assert f == [f[0]] + f[1..];
      FromBigEndianCons(f[0], f[1..]);
    }
  }

  /** The first two octets under a mask, and the rest. */
  lemma MaskedTwo(k: Keys, index: nat, wire: seq<byte>, h: byte, field: seq<byte>)
    requires ValidKeys(k) && ValidIndex(k.kind, index) && field != [] && Masked(k, index, wire) == [h] + field
    ensures |wire| == 1 + |field|
    ensures var i1 := NextIndex(k.kind, index);
            var i2 := NextIndex(k.kind, i1);
            && wire == [wire[0]] + ([wire[1]] + wire[2..])
            && MaskByte(k, index, wire[0]) == h && MaskByte(k, i1, wire[1]) == field[0]
            && Masked(k, i2, wire[2..]) == field[1..]
            && EndIndex(k.kind, index, |wire|) == EndIndex(k.kind, i2, |wire| - 2)
  {
    hide MaskByte, ValidKeys;
    var m := Masked(k, index, wire);
    assert m[0] == h && m[1..] == field;
    assert wire[1..][1..] == wire[2..];
  }

  /** From the state after the second header octet to the end of the header. */
  lemma LengthTail(c: Conn, s: Rx, more: seq<byte>, maskBit: byte, len: nat)
    requires ValidRx(c, s) && s.parse == Len(|more|, |more|) && s.masked == (maskBit == 128)
    requires 126 <= len < 0x8000_0000_0000_0000 && |more| == if len < 65536 then 2 else 8
    requires var k := HeaderKeys(c, s);
             ValidKeys(k) && ValidIndex(k.kind, s.index) && Masked(k, s.index, more) == BigEndian(|more|, len)
    ensures Run(c, s, more) == Next(s.(length := len, index := EndIndex(HeaderKeys(c, s).kind, s.index, |more|),
                                       parse := if maskBit == 128 then Key(1) else Payload), [])
  {
    hide Step, ValidRx, BigEndian, FromBigEndian;
    LengthFieldValue(len);
    LengthRun(c, s, more, |more|);
  }

  /** The first two octets of a header. */
  lemma TwoSteps(c: Conn, s: Rx, s0: Rx, wire: seq<byte>, p: Protocol, fin: bool, maskBit: byte, l: byte, s2: Rx)
    requires AtHeader(c, s, s0) && |wire| >= 2
    requires (maskBit == 0 || maskBit == 128) && (maskBit == 128 ==> c.server && c.revision >= 7)
    requires 0 < l < 128 && (l >= 126 ==> !IsControl(Opcode(p)))
    requires var k := HeaderKeys(c, s0);
             && ValidKeys(k) && ValidIndex(k.kind, s0.index)
             && MaskByte(k, s0.index, wire[0]) == WireOpcode(c.revision, p) + (if fin then 128 else 0)
             && MaskByte(k, NextIndex(k.kind, s0.index), wire[1]) == l + maskBit
             && s2 == s0.(opcode := Opcode(p), fin := fin, masked := maskBit == 128,
                          index := NextIndex(k.kind, NextIndex(k.kind, s0.index)),
                          parse := if l == 126 then Len(2, 2) else if l == 127 then Len(8, 8)
                                   else if maskBit == 128 then Key(1) else Payload,
                          length := if l >= 126 then s0.length else l)
    ensures ValidRx(c, s2) && Run(c, s, wire) == Run(c, s2, wire[2..])
  {
    hide Step, MaskByte, Masked, EndIndex, NextIndex, WireOpcode, IsControl, ValidKeys, Run, Opcode;
    var k := HeaderKeys(c, s0);
    FirstStep(c, s, s0, wire[0], p, fin);
    var s1 := s0.(opcode := Opcode(p), fin := fin, parse := HdrLen, index := NextIndex(k.kind, s0.index));
    StillValid(c, s, wire[0]);
    SecondStep(c, s1, wire[1], maskBit, l);
    StillValid(c, s1, wire[1]);
    hide ValidRx;
    assert wire == [wire[0]] + wire[1..] && wire[1..] == [wire[1]] + wire[2..];
    RunQuiet(c, s, wire[0], s1, wire[1..]);
    RunQuiet(c, s1, wire[1], s2, wire[2..]);
  }

  lemma FieldParts(len: nat, maskBit: byte)
    requires 0 < len < 0x8000_0000_0000_0000 && (maskBit == 0 || maskBit == 128)
    ensures var f := LengthField(len, maskBit);
            var l := f[0] - maskBit;
            && 0 < l < 128 && (l >= 126 <==> len >= 126)
            && (len < 126 ==> l == len && f[1..] == [])
            && (126 <= len < 65536 ==> l == 126 && f[1..] == BigEndian(2, len))
            && (65536 <= len ==> l == 127 && f[1..] == BigEndian(8, len))
  {
    hide BigEndian;
  }

  /** The machine reads back the header the other end wrote. */
  lemma HeaderRun(c: Conn, s: Rx, s0: Rx, wire: seq<byte>, p: Protocol, fin: bool, maskBit: byte, len: nat)
    requires AtHeader(c, s, s0) && 0 < len < 0x8000_0000_0000_0000
    requires (maskBit == 0 || maskBit == 128) && (maskBit == 128 ==> c.server && c.revision >= 7)
    requires IsControl(Opcode(p)) ==> len < 126
    requires var k := HeaderKeys(c, s0);
             && ValidKeys(k) && ValidIndex(k.kind, s0.index)
             && Masked(k, s0.index, wire) == Header(c.revision, p, fin, maskBit, len)
    ensures var end := HeaderRead(s0, HeaderKeys(c, s0), p, fin, maskBit, len, |wire|);
            Run(c, s, wire) == Next(end, [])
  {
    hide Step, MaskByte, Masked, EndIndex, NextIndex, WireOpcode, BigEndian, IsControl, ValidKeys, Run, Opcode, ValidRx, LengthField;
    var k := HeaderKeys(c, s0);
    var field := LengthField(len, maskBit);
    FieldParts(len, maskBit);
    MaskedTwo(k, s0.index, wire, WireOpcode(c.revision, p) + if fin then 128 else 0, field);
    var l := field[0] - maskBit;
    var s2 := s0.(opcode := Opcode(p), fin := fin, masked := maskBit == 128,
                  index := NextIndex(k.kind, NextIndex(k.kind, s0.index)),
                  parse := if l == 126 then Len(2, 2) else if l == 127 then Len(8, 8)
                           else if maskBit == 128 then Key(1) else Payload,
                  length := if l >= 126 then s0.length else l);
    TwoSteps(c, s, s0, wire, p, fin, maskBit, l, s2);
    if len < 126 {
      assert wire[2..] == [];
      NothingToRun(c, s2, k.kind, s2.index);
    } else {
      LengthTail(c, s2, wire[2..], maskBit, len);
    }
  }

  lemma NothingToRun(c: Conn, s: Rx, k: Kind, index: nat)
    requires ValidRx(c, s) && ValidIndex(k, index)
    ensures Run(c, s, []) == Next(s, []) && EndIndex(k, index, 0) == index
  {
  }

  // ----- the mask nonces -----

  lemma NonceRun(c: Conn, s: Rx, n: seq<byte>)
    requires ValidRx(c, s) && c.server && c.revision < 7 && s.parse == New && |n| == 4
    ensures Run(c, s, n) == Next(s.(nonce := n, allZero := n == ZERO_NONCE, index := if c.defeatMask then s.index else 0,
                                    parse := Hdr1), [])
  {
    hide Run;
    var s1 := s.(nonce := s.nonce[0 := n[0]], allZero := n[0] == 0, parse := Nonce(1));
    var s2 := s1.(nonce := s1.nonce[1 := n[1]], allZero := s1.allZero && n[1] == 0, parse := Nonce(2));
    var s3 := s2.(nonce := s2.nonce[2 := n[2]], allZero := s2.allZero && n[2] == 0, parse := Nonce(3));
    assert Step(c, s, n[0]) == Next(s1, []) && Step(c, s1, n[1]) == Next(s2, []) && Step(c, s2, n[2]) == Next(s3, []);
    FourSteps(c, s, s1, s2, s3, n);
    assert s3.nonce[3 := n[3]] == n;
    ZeroOctets(n);
  }

  lemma KeyRun(c: Conn, s: Rx, n: seq<byte>)
    requires ValidRx(c, s) && c.server && s.parse == Key(1) && |n| == 4
    ensures Run(c, s, n) == Next(s.(nonce := n, allZero := s.allZero && n == ZERO_NONCE, index := 0, parse := Payload), [])
  {
    hide Run;
    var s1 := s.(nonce := s.nonce[0 := n[0]], allZero := s.allZero && n[0] == 0, parse := Key(2));
    var s2 := s1.(nonce := s1.nonce[1 := n[1]], allZero := s1.allZero && n[1] == 0, parse := Key(3));
    var s3 := s2.(nonce := s2.nonce[2 := n[2]], allZero := s2.allZero && n[2] == 0, parse := Key(4));
    assert Step(c, s, n[0]) == Next(s1, []) && Step(c, s1, n[1]) == Next(s2, []) && Step(c, s2, n[2]) == Next(s3, []);
    FourSteps(c, s, s1, s2, s3, n);
    assert s3.nonce[3 := n[3]] == n;
    ZeroOctets(n);
  }

  lemma ZeroOctets(n: seq<byte>)
    requires |n| == 4
    ensures n == ZERO_NONCE <==> n[0] == 0 && n[1] == 0 && n[2] == 0 && n[3] == 0
  {
    assert ZERO_NONCE[0] == 0 && ZERO_NONCE[1] == 0 && ZERO_NONCE[2] == 0 && ZERO_NONCE[3] == 0;
  }

  lemma FourSteps(c: Conn, s: Rx, s1: Rx, s2: Rx, s3: Rx, n: seq<byte>)
    requires ValidRx(c, s) && ValidRx(c, s1) && ValidRx(c, s2) && ValidRx(c, s3) && |n| == 4
    requires Step(c, s, n[0]) == Next(s1, []) && Step(c, s1, n[1]) == Next(s2, []) && Step(c, s2, n[2]) == Next(s3, [])
    ensures Run(c, s, n) == Step(c, s3, n[3])
  {
    hide Step, ValidRx, Run;
    assert n == [n[0]] + ([n[1]] + ([n[2]] + [n[3]]));
    RunQuiet(c, s, n[0], s1, [n[1]] + ([n[2]] + [n[3]]));
    RunQuiet(c, s1, n[1], s2, [n[2]] + [n[3]]);
    RunQuiet(c, s2, n[2], s3, [n[3]]);
    RunOne(c, s3, n[3]);
  }

  // ----- whole frames -----

  /** What a complete frame makes the receiving end do. */
  function Effect(c: Conn, p: Protocol, payload: seq<byte>): seq<Event>
    requires payload != []
  {
    match p
    case Ping => [Answered(OPCODE_PONG, payload)]
    case Pong => if c.server then [] else [ReceivedPong(payload)]
    case Continuation => if c.server then [] else Deliveries(OPCODE_CONTINUATION, Chunks(payload))
    case _ => Deliveries(Opcode(p), Chunks(payload))
  }

  /** The frame was taken apart completely, with that effect, and the machine is ready for the next one. */
  predicate Handled(c: Conn, o: Out, s: Rx, p: Protocol, payload: seq<byte>)
    requires payload != []
  {
    && o.Next? && o.rx.parse == New && o.rx.buffer == [] && o.rx.pings == s.pings - (if p == Pong then 1 else 0)
    && o.events == Effect(c, p, payload)
  }

  /** Control frames are short. */
  predicate Sendable(p: Protocol, len: nat) {
    0 < len < 0x8000_0000_0000_0000 && (p == Ping || p == Pong ==> len < 126)
  }

  lemma PayloadHandled(c: Conn, at: Rx, s: Rx, wire: seq<byte>, p: Protocol, payload: seq<byte>)
    requires ValidRx(c, at) && at.parse == Payload && at.buffer == [] && at.length == |wire| && at.opcode == Opcode(p)
    requires at.pings == s.pings && Sendable(p, |wire|)
    requires var k := PayloadKeys(c, at); ValidKeys(k) && ValidIndex(k.kind, at.index) && Masked(k, at.index, wire) == payload
    ensures Handled(c, Run(c, at, wire), s, p, payload)
    ensures Run(c, at, wire).rx.index == EndIndex(PayloadKeys(c, at).kind, at.index, |wire|)
  {
    hide Step, ValidRx, Run, Deliveries, Chunks, Masked, EndIndex;
    assert [] + payload == payload;
    if p == Ping || p == Pong {
      ControlRun(c, at, wire);
    } else if p == Continuation && c.server {
      DroppedRun(c, at, wire);
    } else {
      PayloadRun(c, at, wire);
    }
  }

  lemma ThenPayload(c: Conn, s: Rx, head: seq<byte>, at: Rx, wire: seq<byte>, p: Protocol, payload: seq<byte>)
    requires ValidRx(c, s) && ValidRx(c, at) && Run(c, s, head) == Next(at, [])
    requires at.parse == Payload && at.buffer == [] && at.length == |wire| && at.opcode == Opcode(p) && at.pings == s.pings
    requires Sendable(p, |wire|)
    requires var k := PayloadKeys(c, at); ValidKeys(k) && ValidIndex(k.kind, at.index) && Masked(k, at.index, wire) == payload
    ensures Handled(c, Run(c, s, head + wire), s, p, payload)
    ensures Run(c, s, head + wire).rx.index == EndIndex(PayloadKeys(c, at).kind, at.index, |wire|)
  {
    hide Step, ValidRx, Run, Effect, Sendable, EndIndex;
    RunAppend(c, s, head, wire);
    PayloadHandled(c, at, s, wire, p, payload);
    BeforeBefore([], [], Run(c, at, wire));
  }

  lemma RunThenRun(c: Conn, s: Rx, a: seq<byte>, mid: Rx, b: seq<byte>, end: Rx)
    requires ValidRx(c, s) && ValidRx(c, mid) && Run(c, s, a) == Next(mid, []) && Run(c, mid, b) == Next(end, [])
    ensures Run(c, s, a + b) == Next(end, [])
  {
    hide Step, ValidRx, Run;
    RunAppend(c, s, a, b);
    BeforeBefore([], [], Run(c, mid, b));
  }

  lemma ControlIsShort(p: Protocol, len: nat)
    requires Sendable(p, len)
    ensures 0 < len < 0x8000_0000_0000_0000 && (IsControl(Opcode(p)) ==> len < 126)
  {
  }

  /** Where the header is in clear: on a client, and on a server from revision 7 on. */
  lemma ClearHeader(c: Conn, s: Rx, p: Protocol, fin: bool, maskBit: byte, len: nat)
    requires ValidRx(c, s) && s.parse == New && s.buffer == [] && (c.server ==> c.revision >= 7)
    requires 0 < len < 0x8000_0000_0000_0000 && (IsControl(Opcode(p)) ==> len < 126)
    requires (maskBit == 0 || maskBit == 128) && (maskBit == 128 ==> c.server)
    ensures Run(c, s, Header(c.revision, p, fin, maskBit, len))
            == Next(s.(allZero := c.server || s.allZero, opcode := Opcode(p), fin := fin, masked := maskBit == 128, length := len,
                       parse := if maskBit == 128 then Key(1) else Payload), [])
  {
    hide Step, Run, Header, Masked, Opcode, IsControl;
    var s0 := if c.server then s.(allZero := true) else s;
    var k := HeaderKeys(c, s0);
    var h := Header(c.revision, p, fin, maskBit, len);
    ZeroMaskKeeps(k, s0.index, h);
    HeaderRun(c, s, s0, h, p, fin, maskBit, len);
    NoMaskKeepsIndex(s0.index, |h|);
  }

  lemma {:induction false} NoMaskKeepsIndex(index: nat, n: nat)
    requires index < 256
    ensures EndIndex(NoMask, index, n) == index
  {
    if n > 0 {
      NoMaskKeepsIndex(index, n - 1);
    }
  }

  /** An unmasked frame. */
  lemma ReceivesClear(c: Conn, s: Rx, p: Protocol, fin: bool, payload: seq<byte>)
    requires ValidRx(c, s) && s.parse == New && s.buffer == [] && (c.server ==> c.revision >= 7) && Sendable(p, |payload|)
    ensures Handled(c, Run(c, s, Header(c.revision, p, fin, 0, |payload|) + payload), s, p, payload)
  {
    hide Step, Run, Handled, Header, Masked, Opcode, Sendable, IsControl, ValidRx;
    ControlIsShort(p, |payload|);
    ClearHeader(c, s, p, fin, 0, |payload|);
    var head := Header(c.revision, p, fin, 0, |payload|);
    var at := Run(c, s, head).rx;
    KeysFit(c, at);
    ZeroMaskKeeps(PayloadKeys(c, at), at.index, payload);
    ThenPayload(c, s, head, at, payload, p, payload);
  }

  /** Revisions 7 and later: header in clear, nonce, payload; whatever the payload octets are, the mask is applied to
      them. */
  lemma ServerReceives07(c: Conn, s: Rx, p: Protocol, fin: bool, nonce: seq<byte>, wire: seq<byte>, k: Keys)
    requires ValidRx(c, s) && c.server && c.revision >= 7 && s.parse == New && s.buffer == []
    requires Sendable(p, |wire|) && |nonce| == 4 && c.kind == Mask05 && k == Keys(Mask05, nonce, c.key04)
    ensures ValidKeys(k)
    ensures Handled(c, Run(c, s, Header(c.revision, p, fin, 128, |wire|) + nonce + wire), s, p, Masked(k, 0, wire))
  {
    hide Step, Run, Handled, Header, Masked, Opcode, Sendable, IsControl;
    ControlIsShort(p, |wire|);
    ClearHeader(c, s, p, fin, 128, |wire|);
    var head := Header(c.revision, p, fin, 128, |wire|);
    var mid := Run(c, s, head).rx;
    KeyRun(c, mid, nonce);
    var at := mid.(nonce := nonce, allZero := nonce == ZERO_NONCE, index := 0, parse := Payload);
    RunThenRun(c, s, head, mid, nonce, at);
    if nonce == ZERO_NONCE {
      ZeroMaskKeeps(k, 0, wire);
      ZeroMaskKeeps(PayloadKeys(c, at), 0, wire);
    }
    hide ValidRx;
    ThenPayload(c, s, head + nonce, at, wire, p, Masked(k, 0, wire));
  }

  lemma {:induction false} HandshakeKeyUnused(k: Keys, k': Keys, index: nat, s: seq<byte>)
    requires ValidKeys(k) && ValidKeys(k') && k.kind == k'.kind == Mask05 && k.nonce == k'.nonce && index < 256
    ensures Masked(k, index, s) == Masked(k', index, s)
    decreases |s|
  {
    if s != [] {
      HandshakeKeyUnused(k, k', NextIndex(Mask05, index), s[1..]);
    }
  }

  /** Server to client. */
  lemma ClientReceives(w: Conn, r: Conn, s: Rx, p: Protocol, fin: bool, payload: seq<byte>)
    requires ValidConn(w) && w.server && !r.server && w.revision == r.revision
    requires ValidRx(r, s) && s.parse == New && s.buffer == [] && Sendable(p, |payload|)
    ensures Handled(r, Run(r, s, FrameBytes(w, p, fin, false, ZERO_NONCE, payload)), s, p, payload)
  {
    hide Step, Run, Handled, Header, Opcode, Sendable;
    ReceivesClear(r, s, p, fin, payload);
  }
}
