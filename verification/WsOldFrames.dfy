/** Frames of revisions 4 to 6 at a server, where header and payload are under one mask: exactly which octets make it
    deliver a text or binary message (libwebsocket_rx_sm of parsers.c). */
module WsOldFrames {
  import opened Bytes
  import opened WsMask
  import opened WsReceive
  import opened WsSend
  import opened WsRoundTrip
  import opened WsOverhead

  // ----- what the machine makes of a header, whatever its octets are -----

  /** A server of revision 4 to 6 that has read the nonce of a frame. */
  predicate AtFrame(c: Conn, s: Rx) {
    && Old(c) && c.kind == (if c.revision == 4 then Mask04 else Mask05)
    && ValidRx(c, s) && s.parse == Hdr1 && s.buffer == [] && (s.allZero <==> s.nonce == ZERO_NONCE)
  }

  /** What its mask makes of the octets that follow. */
  function Unmasked(c: Conn, s: Rx, x: seq<byte>): (u: seq<byte>)
    requires AtFrame(c, s)
    ensures |u| == |x|
  {
    Masked(HeaderKeys(c, s), s.index, x)
  }

  /** The opcodes that revisions 4 to 6 know, by their later numbers. */
  predicate Known(op: nat) {
    op in {OPCODE_CONTINUATION, OPCODE_CLOSE, OPCODE_PING, OPCODE_PONG, OPCODE_TEXT, OPCODE_BINARY}
  }

  datatype Head = Broken | Head(size: nat, op: nat, len: nat)

  lemma {:induction false} FromBigEndianBound(f: seq<byte>)
    ensures FromBigEndian(f) < Pow256(|f|)
  {
    if f != [] {
      FromBigEndianBound(f[..|f| - 1]);
    }
  }

  /** The value of a long length field, if it is all there and does not have its top bit set. */
  function ReadLength(field: seq<byte>, width: nat): (len: Option<nat>)
    requires width == 2 || width == 8
    ensures len.Some? ==> width <= |field| && (width == 2 ==> len.value <= 65535)
  {
    if |field| < width || (width == 8 && field[0] >= 128) then None
    else
      FromBigEndianBound(field[..width]);
      PowersOf256();
      Some(FromBigEndian(field[..width]))
  }

  /** The header at the front of the unmasked octets, if there is a complete one that the machine accepts. */
  function ReadHead(u: seq<byte>): (h: Head)
    ensures h.Head? ==> Known(h.op) && h.size <= |u| && (IsControl(h.op) ==> h.size == 2)
    ensures h.Head? ==> (h.size == 2 && h.len <= 125) || (h.size == 4 && h.len <= 65535) || h.size == 10
  {
    if |u| < 2 || u[1] >= 128 || FromOpcode04(u[0] % 16).None? then Broken
    else
      var op := FromOpcode04(u[0] % 16).value;
      if u[1] < 126 then Head(2, op, u[1])
      else
        var width := if u[1] == 126 then 2 else 8;
        var len := ReadLength(u[2..], width);
        if IsControl(op) || len.None? then Broken else Head(2 + width, op, len.value)
  }

  function AfterHead(c: Conn, s: Rx, u: seq<byte>, h: Head): Rx
    requires AtFrame(c, s) && h.Head? && u != []
  {
    s.(opcode := h.op, fin := u[0] >= 128, masked := false, length := h.len, parse := Payload,
       index := EndIndex(c.kind, s.index, h.size))
  }

  lemma FirstRead(c: Conn, s: Rx, b: byte)
    requires AtFrame(c, s)
    ensures var k := HeaderKeys(c, s);
            && ValidKeys(k) && ValidIndex(k.kind, s.index)
            && var d := MaskByte(k, s.index, b);
               var op := FromOpcode04(d % 16);
               Step(c, s, b) == if op.None? then Closed([])
                                else Next(s.(opcode := op.value, fin := d >= 128, parse := HdrLen,
                                             index := NextIndex(c.kind, s.index)), [])
  {
    hide MaskByte, FromOpcode04;
  }

  lemma SecondRead(c: Conn, s: Rx, b: byte)
    requires Old(c) && c.kind != NoMask && ValidRx(c, s) && s.parse == HdrLen
    ensures var k := HeaderKeys(c, s);
            && ValidKeys(k) && ValidIndex(k.kind, s.index)
            && var d := MaskByte(k, s.index, b);
               var s' := s.(masked := false, index := NextIndex(c.kind, s.index));
               var width := if d == 126 then 2 else 8;
               Step(c, s, b) == if d >= 128 || (d >= 126 && IsControl(s.opcode)) then Closed([])
                                else if d >= 126 then Next(s'.(parse := Len(width, width)), [])
                                else Next(s'.(length := d, parse := Payload), [])
  {
    hide MaskByte, IsControl;
  }

  lemma LengthTooLong(c: Conn, s: Rx, b: byte)
    requires Old(c) && ValidRx(c, s) && s.parse == Len(8, 8)
    requires var k := HeaderKeys(c, s); ValidKeys(k) && ValidIndex(k.kind, s.index) && MaskByte(k, s.index, b) >= 128
    ensures Step(c, s, b) == Closed([])
  {
    hide Xor;
  }

  /** A length field that is cut short leaves the machine in it. */
  lemma {:induction false} LengthCut(c: Conn, s: Rx, bytes: seq<byte>)
    requires Old(c) && ValidRx(c, s) && s.parse.Len? && |bytes| < s.parse.left
    ensures var o := Run(c, s, bytes); o.Next? ==> o.rx.parse.Len?
    decreases |bytes|
  {
    hide ValidRx, Old;
    if bytes != [] {
      StillInLength(c, s, bytes[0]);
      hide Step;
      var o := Step(c, s, bytes[0]);
      if o.Next? {
        LengthCut(c, o.rx, bytes[1..]);
      }
    }
  }

  lemma StillInLength(c: Conn, s: Rx, b: byte)
    requires ValidRx(c, s) && s.parse.Len? && s.parse.left > 1
    ensures var o := Step(c, s, b); o.Next? ==> o.rx.parse == Len(s.parse.left - 1, s.parse.width)
  {
    hide ValidRx, MaskByte;
  }

  /** The rest of a header with a long length field. */
  lemma LongHead(c: Conn, s: Rx, more: seq<byte>)
    requires Old(c) && ValidRx(c, s) && s.parse.Len? && s.parse.left == s.parse.width && !s.masked
    requires var k := HeaderKeys(c, s); ValidKeys(k) && ValidIndex(k.kind, s.index)
    ensures var w := s.parse.width;
            var len := ReadLength(Masked(HeaderKeys(c, s), s.index, more), w);
            if len.None? then
              var o := Run(c, s, more); o.Next? ==> o.rx.parse != New
            else
              var s' := s.(length := len.value, parse := Payload,
                           index := EndIndex(HeaderKeys(c, s).kind, s.index, w));
              ValidRx(c, s') && Run(c, s, more) == Run(c, s', more[w..])
  {
    var w, k := s.parse.width, HeaderKeys(c, s);
    assert w == 2 || w == 8;
    assert c.server;
    hide Step, Run, FromBigEndian, EndIndex, ValidRx, Masked, ValidKeys, Old;
    var u := Masked(k, s.index, more);
    if |more| < w {
      LengthCut(c, s, more);
    } else {
      MaskedAppend(k, s.index, more[..w], more[w..]);
      assert more == more[..w] + more[w..];
      if w == 8 && u[0] >= 128 {
        FirstMasked(k, s.index, more);
        LengthTooLong(c, s, more[0]);
        RunCons(c, s, more[0], more[1..]);
      } else {
        LengthRun(c, s, more[..w], w);
        RunAppend(c, s, more[..w], more[w..]);
        BeforeBefore([], [], Run(c, Run(c, s, more[..w]).rx, more[w..]));
      }
    }
  }

  /** The state behind the first two octets, when they are not the whole header. */
  function InLength(c: Conn, s: Rx, u: seq<byte>, op: nat): Rx
    requires AtFrame(c, s) && |u| >= 2
  {
    var width := if u[1] == 126 then 2 else 8;
    s.(opcode := op, fin := u[0] >= 128, masked := false, parse := Len(width, width),
       index := NextIndex(c.kind, NextIndex(c.kind, s.index)))
  }

  lemma TwoRead(c: Conn, s: Rx, b0: byte, b1: byte, more: seq<byte>, u: seq<byte>)
    requires AtFrame(c, s) && u == Unmasked(c, s, [b0] + ([b1] + more))
    ensures var o := Run(c, s, [b0] + ([b1] + more));
            var op := FromOpcode04(u[0] % 16);
            if op.None? || u[1] >= 128 || (u[1] >= 126 && IsControl(op.value)) then o == Closed([])
            else if u[1] < 126 then
              var s' := AfterHead(c, s, u, Head(2, op.value, u[1]));
              ValidRx(c, s') && o == Run(c, s', more)
            else
              var s' := InLength(c, s, u, op.value);
              ValidRx(c, s') && o == Run(c, s', more)
  {
    var k, x := HeaderKeys(c, s), [b0] + ([b1] + more);
    FirstRead(c, s, b0);
    FirstMasked(k, s.index, x);
    FirstMasked(k, NextIndex(c.kind, s.index), x[1..]);
    assert x[1..] == [b1] + more;
    RunCons(c, s, b0, [b1] + more);
    if FromOpcode04(u[0] % 16).Some? {
      var s1 := Step(c, s, b0).rx;
      SecondRead(c, s1, b1);
      hide Step, Run, FromOpcode04, IsControl, Masked, MaskByte, NextIndex;
      RunCons(c, s1, b1, more);
      TwoIndexes(c.kind, s.index);
      BeforeBefore([], [], Run(c, s1, [b1] + more));
      if Step(c, s1, b1).Next? {
        BeforeBefore([], [], Run(c, Step(c, s1, b1).rx, more));
      }
    }
  }

  lemma TwoIndexes(k: Kind, index: nat)
    requires ValidIndex(k, index)
    ensures EndIndex(k, index, 2) == NextIndex(k, NextIndex(k, index))
    ensures forall n: nat :: EndIndex(k, index, n + 2) == EndIndex(k, NextIndex(k, NextIndex(k, index)), n)
  {
  }

  /** The machine's run over a frame is decided by what its header reads as. */
  lemma HeadRun(c: Conn, s: Rx, x: seq<byte>)
    requires AtFrame(c, s)
    ensures var h := ReadHead(Unmasked(c, s, x));
            if h.Broken? then
              var o := Run(c, s, x); o.Next? ==> o.rx.parse != New
            else
              var s' := AfterHead(c, s, Unmasked(c, s, x), h);
              ValidRx(c, s') && Run(c, s, x) == Run(c, s', x[h.size..])
  {
    var u := Unmasked(c, s, x);
    if |x| == 0 {
    } else if |x| == 1 {
      FirstRead(c, s, x[0]);
      RunOne(c, s, x[0]);
      assert x == [x[0]];
    } else {
      var more := x[2..];
      assert x == [x[0]] + ([x[1]] + more);
      TwoRead(c, s, x[0], x[1], more, u);
      var op := FromOpcode04(u[0] % 16);
      if op.Some? && 126 <= u[1] < 128 && !IsControl(op.value) {
        LongHeadRun(c, s, x, u, op.value);
      }
    }
  }

  lemma LongHeadRun(c: Conn, s: Rx, x: seq<byte>, u: seq<byte>, op: nat)
    requires AtFrame(c, s) && |x| >= 2 && u == Unmasked(c, s, x) && 126 <= u[1] < 128
    requires FromOpcode04(u[0] % 16) == Some(op) && !IsControl(op)
    requires ValidRx(c, InLength(c, s, u, op)) && Run(c, s, x) == Run(c, InLength(c, s, u, op), x[2..])
    ensures var h := ReadHead(u);
            if h.Broken? then
              var o := Run(c, s, x); o.Next? ==> o.rx.parse != New
            else
              var s' := AfterHead(c, s, u, h);
              ValidRx(c, s') && Run(c, s, x) == Run(c, s', x[h.size..])
  {
    hide *;
    var s1, w := InLength(c, s, u, op), if u[1] == 126 then 2 else 8;
    InLengthIs(c, s, x, op);
    LongHead(c, s1, x[2..]);
    LongHeadIs(u, op);
    var len := ReadLength(u[2..], w);
    if len.Some? {
      assert x[2..][w..] == x[2 + w..];
      BehindLength(c, s, u, op, len.value);
    }
  }

  lemma InLengthIs(c: Conn, s: Rx, x: seq<byte>, op: nat)
    requires AtFrame(c, s) && |x| >= 2 && ValidRx(c, InLength(c, s, Unmasked(c, s, x), op))
    ensures var u := Unmasked(c, s, x);
            var s1, w := InLength(c, s, u, op), if u[1] == 126 then 2 else 8;
            var k := HeaderKeys(c, s1);
            && Old(c) && s1.parse == Len(w, w) && !s1.masked && k.kind == c.kind
            && ValidKeys(k) && ValidIndex(k.kind, s1.index) && Masked(k, s1.index, x[2..]) == u[2..]
  {
    var k := HeaderKeys(c, s);
    TwoIndexes(c.kind, s.index);
    MaskedFrom(k, s.index, x, 2);
    assert HeaderKeys(c, InLength(c, s, Unmasked(c, s, x), op)) == k;
    hide Masked, NextIndex, EndIndex;
    KeysFit(c, s);
  }

  lemma BehindLength(c: Conn, s: Rx, u: seq<byte>, op: nat, len: nat)
    requires AtFrame(c, s) && |u| >= 2
    ensures var w := if u[1] == 126 then 2 else 8;
            var s1 := InLength(c, s, u, op);
            && ValidIndex(c.kind, s1.index)
            && s1.(length := len, parse := Payload, index := EndIndex(c.kind, s1.index, w))
               == AfterHead(c, s, u, Head(2 + w, op, len))
  {
    TwoIndexes(c.kind, s.index);
  }

  /** Masked octets from i on. */
  lemma MaskedFrom(k: Keys, index: nat, x: seq<byte>, i: nat)
    requires ValidKeys(k) && ValidIndex(k.kind, index) && i <= |x|
    ensures Masked(k, index, x)[i..] == Masked(k, EndIndex(k.kind, index, i), x[i..])
  {
    hide Masked;
    MaskedAppend(k, index, x[..i], x[i..]);
    assert x == x[..i] + x[i..];
  }

  lemma LongHeadIs(u: seq<byte>, op: nat)
    requires |u| >= 2 && 126 <= u[1] < 128 && FromOpcode04(u[0] % 16) == Some(op) && !IsControl(op)
    ensures var w := if u[1] == 126 then 2 else 8;
            var len := ReadLength(u[2..], w);
            ReadHead(u) == if len.None? then Broken else Head(2 + w, op, len.value)
  {
  }

  // ----- the payload behind it -----

  /** The payload phase takes off the mask of the header, or leaves octets alone where that mask is zero. */
  lemma SameMask(c: Conn, s: Rx, u: seq<byte>, h: Head, y: seq<byte>)
    requires AtFrame(c, s) && h.Head? && u != [] && ValidRx(c, AfterHead(c, s, u, h))
    ensures var at := AfterHead(c, s, u, h);
            var k := PayloadKeys(c, at);
            && ValidKeys(k) && ValidIndex(k.kind, at.index)
            && Masked(k, at.index, y) == Masked(HeaderKeys(c, s), EndIndex(c.kind, s.index, h.size), y)
  {
    var at := AfterHead(c, s, u, h);
    KeysFit(c, at);
    if PayloadKeys(c, at).kind == NoMask {
      ZeroMaskKeeps(PayloadKeys(c, at), at.index, y);
      ZeroMaskKeeps(HeaderKeys(c, s), at.index, y);
    }
  }

  /** The text that stands behind the header. */
  lemma TextBehind(c: Conn, s: Rx, x: seq<byte>)
    requires AtFrame(c, s) && ReadHead(Unmasked(c, s, x)).Head?
    requires ValidRx(c, AfterHead(c, s, Unmasked(c, s, x), ReadHead(Unmasked(c, s, x))))
    ensures var u := Unmasked(c, s, x);
            var h := ReadHead(u);
            var at := AfterHead(c, s, u, h);
            var k := PayloadKeys(c, at);
            ValidKeys(k) && ValidIndex(k.kind, at.index) && Masked(k, at.index, x[h.size..]) == u[h.size..]
  {
    KeysFit(c, s);
    hide ReadHead, EndIndex, Masked, ValidRx;
    var u := Unmasked(c, s, x);
    var h := ReadHead(u);
    SameMask(c, s, u, h, x[h.size..]);
    MaskedFrom(HeaderKeys(c, s), s.index, x, h.size);
  }

  /** A header that announces just what follows it: the frame is handled. */
  lemma Intact(c: Conn, s: Rx, x: seq<byte>, p: Protocol)
    requires AtFrame(c, s)
    requires var h := ReadHead(Unmasked(c, s, x)); h.Head? && h.op == Opcode(p) && |x| - h.size == h.len && Sendable(p, h.len)
    ensures var u := Unmasked(c, s, x);
            var h := ReadHead(u);
            var at := AfterHead(c, s, u, h);
            && ValidRx(c, at) && Handled(c, Run(c, s, x), s, p, u[h.size..])
            && Run(c, s, x).rx.index == EndIndex(PayloadKeys(c, at).kind, at.index, h.len)
  {
    var u := Unmasked(c, s, x);
    var h := ReadHead(u);
    HeadRun(c, s, x);
    TextBehind(c, s, x);
    hide Step, Run, ReadHead, EndIndex, Masked, ValidRx, Sendable, Handled;
    PayloadHandled(c, AfterHead(c, s, u, h), s, x[h.size..], p, u[h.size..]);
  }

  /** A frame that has all its octets: it is delivered in chunks, or nothing is. */
  lemma WholeFrame(c: Conn, s: Rx, wire: seq<byte>)
    requires Old(c) && ValidRx(c, s) && s.parse == Payload && s.buffer == [] && s.length == |wire| > 0 && Known(s.opcode)
    requires IsControl(s.opcode) ==> |wire| <= 125
    ensures var k := PayloadKeys(c, s); ValidKeys(k) && ValidIndex(k.kind, s.index)
    ensures var o := Run(c, s, wire);
            o.Next? ==>
              && Idle(o.rx) && ValidRx(c, o.rx)
              && if IsData(c, s.opcode) then o.events == Deliveries(s.opcode, Chunks(Masked(PayloadKeys(c, s), s.index, wire)))
                 else UserData(o.events) == []
  {
    hide Step, Run, Masked, EndIndex, ValidRx, Chunks, Deliveries;
    KeysFit(c, s);
    if IsControl(s.opcode) {
      ControlRun(c, s, wire);
      NoUserData(c, s, Masked(PayloadKeys(c, s), s.index, wire));
    } else if s.opcode == OPCODE_CONTINUATION {
      DroppedRun(c, s, wire);
    } else {
      PayloadRun(c, s, wire);
      assert [] + Masked(PayloadKeys(c, s), s.index, wire) == Masked(PayloadKeys(c, s), s.index, wire);
    }
  }

  lemma NoUserData(c: Conn, s: Rx, text: seq<byte>)
    requires Old(c) && IsControl(s.opcode)
    ensures var o := Spill(c, s.(parse := New, buffer := text)); o.Next? ==> UserData(o.events) == []
  {
    assert [Answered(OPCODE_PONG, text)][1..] == [];
  }

  /** A length that is never used up. */
  lemma {:induction false} Endless(c: Conn, s: Rx, bytes: seq<byte>)
    requires Old(c) && ValidRx(c, s) && s.parse == Payload && (s.length == 0 || s.length > |bytes|)
    requires |bytes| < 0x1_0000_0000_0000_0000
    ensures var o := Run(c, s, bytes); o.Next? ==> o.rx.parse == Payload
    decreases |bytes|
  {
    hide ValidRx, Old, Spill;
    if bytes != [] {
      PayloadOctetIs(c, s, bytes[0]);
      hide Step;
      var o := Step(c, s, bytes[0]);
      if o.Next? {
        Endless(c, o.rx, bytes[1..]);
      }
    }
  }

  // ----- chunk boundaries -----

  /** Chunks that begin the chunks of a longer text end at a full buffer. */
  lemma {:induction false} ChunkBoundary(op: nat, op': nat, a: seq<byte>, b: seq<byte>, rest: seq<Event>)
    requires a != [] && |a| < |b| && Deliveries(op, Chunks(a)) + rest == Deliveries(op', Chunks(b))
    ensures |a| % MAX_USER_RX_BUFFER == 0
    decreases |a|
  {
    var ca, cb := Chunks(a), Chunks(b);
    var da, db := Deliveries(op, ca), Deliveries(op', cb);
    assert da[0] == (da + rest)[0] == db[0];
    if |a| > MAX_USER_RX_BUFFER {
      var a', b' := a[MAX_USER_RX_BUFFER..], b[MAX_USER_RX_BUFFER..];
      assert ca[1..] == Chunks(a') && cb[1..] == Chunks(b');
      assert da[1..] + rest == (da + rest)[1..] == db[1..];
      ChunkBoundary(op, op', a', b', rest);
    }
  }

  /** What was delivered tells the opcode and the text. */
  lemma SameDeliveries(op: nat, op': nat, a: seq<byte>, b: seq<byte>)
    requires a != [] && b != [] && Deliveries(op, Chunks(a)) == Deliveries(op', Chunks(b))
    ensures op == op' && a == b
  {
    assert Deliveries(op, Chunks(a))[0] == Received(op, Chunks(a)[0]);
    assert Deliveries(op', Chunks(b))[0] == Received(op', Chunks(b)[0]);
    UserDataOf(op, Chunks(a));
    UserDataOf(op', Chunks(b));
  }

  // ----- only one frame delivers it all -----

  function HeadSize(len: nat): nat {
    if len < 126 then 2 else if len < 65536 then 4 else 10
  }

  /** As much data as a frame of this size carries, and chunked as a single message, where that could make a difference:
      up to 65660 octets, what a frame with a 16-bit length and one with a 7-bit length carry together. */
  predicate LikeOne(o: Out, len: nat, op: nat, payload: seq<byte>) {
    && o.Next? && Idle(o.rx) && |UserData(o.events)| == len
    && (len > 65660 || (|payload| == len > 0 && o.events == Deliveries(op, Chunks(payload))))
  }

  /** A frame that is shorter than the octets at hand leaves too few for the header of the next. */
  lemma SecondFrame(c: Conn, at: Rx, a: seq<byte>, b: seq<byte>, size: nat, len: nat, op: nat, payload: seq<byte>)
    requires Old(c) && ValidRx(c, at) && at.parse == Payload && at.buffer == [] && Known(at.opcode)
    requires (size == 2 && at.length <= 125) || (size == 4 && at.length <= 65535) || size == 10
    requires IsControl(at.opcode) ==> size == 2
    requires at.length == |a| > 0 && 0 < |b| < 0x1_0000_0000_0000_0000 && size + |a| + |b| == HeadSize(len) + len && len > 0
    ensures !LikeOne(Run(c, at, a + b), len, op, payload)
  {
    hide *;
    LikeOneParts(Run(c, at, a + b), len, op, payload);
    if LikeOne(Run(c, at, a + b), len, op, payload) {
      FirstAndRest(c, at, a, b);
      var o1 := Run(c, at, a);
      var o2 := Run(c, o1.rx, b);
      TooCostly(size, |a|, |b|, |UserData(o1.events)|, |UserData(o2.events)|, len);
      ChunkBoundary(at.opcode, op, Masked(PayloadKeys(c, at), at.index, a), payload, o2.events);
    }
  }

  lemma LikeOneParts(o: Out, len: nat, op: nat, payload: seq<byte>)
    ensures LikeOne(o, len, op, payload) ==> o.Next? && Idle(o.rx) && |UserData(o.events)| == len
    ensures LikeOne(o, len, op, payload) && len <= 65660 ==>
              |payload| == len > 0 && o.events == Deliveries(op, Chunks(payload))
  {
  }

  /** Two frames that deliver `len` octets for the price of one: only data behind a short length first, and then neither
      frame fills the buffer. */
  lemma TooCostly(size: nat, first: nat, rest: nat, q1: nat, q2: nat, len: nat)
    requires (size == 2 && first <= 125) || (size == 4 && first <= 65535) || size == 10
    requires size + first + rest == HeadSize(len) + len && q1 + q2 == len && 0 < first && (q1 == first || q1 == 0)
    requires rest - q2 >= 6 && (q2 > 125 ==> rest - q2 >= 8) && (q2 > 65535 ==> rest - q2 >= 9)
    ensures q1 == first < len <= 65660 && first % MAX_USER_RX_BUFFER != 0
  {
    assert len >= 65536 && size <= 4;
  }

  lemma FirstAndRest(c: Conn, at: Rx, a: seq<byte>, b: seq<byte>)
    requires Old(c) && ValidRx(c, at) && at.parse == Payload && at.buffer == [] && Known(at.opcode)
    requires IsControl(at.opcode) ==> |a| <= 125
    requires at.length == |a| > 0 && 0 < |b| < 0x1_0000_0000_0000_0000
    requires Run(c, at, a + b).Next? && Idle(Run(c, at, a + b).rx)
    ensures var k := PayloadKeys(c, at); ValidKeys(k) && ValidIndex(k.kind, at.index)
    ensures Run(c, at, a).Next? && ValidRx(c, Run(c, at, a).rx)
    ensures var o1 := Run(c, at, a);
            var o2 := Run(c, o1.rx, b);
            var q1, q2 := |UserData(o1.events)|, |UserData(o2.events)|;
            && Run(c, at, a + b).events == o1.events + o2.events && |UserData(Run(c, at, a + b).events)| == q1 + q2
            && |b| - q2 >= 6 && (q2 > 125 ==> |b| - q2 >= 8) && (q2 > 65535 ==> |b| - q2 >= 9)
            && if IsData(c, at.opcode) then
                 && o1.events == Deliveries(at.opcode, Chunks(Masked(PayloadKeys(c, at), at.index, a))) && q1 == |a|
               else q1 == 0
  {
    hide Run, ValidRx, Old, Deliveries, Chunks, UserData, Masked;
    RunAppend(c, at, a, b);
    WholeFrame(c, at, a);
    var o1 := Run(c, at, a);
    if o1.Next? {
      var o2 := Run(c, o1.rx, b);
      UserDataAppend(o1.events, o2.events);
      if o2.Next? {
        FrameCost(c, o1.rx, b);
      }
      if IsData(c, at.opcode) {
        UserDataOf(at.opcode, Chunks(Masked(PayloadKeys(c, at), at.index, a)));
      }
    }
  }

  /** Whatever the header reads as: to deliver as much, it has to announce just the payload behind it. */
  lemma OnlyOneFrame(c: Conn, s: Rx, x: seq<byte>, len: nat, op: nat, payload: seq<byte>)
    requires AtFrame(c, s) && 0 < len < 0x8000_0000_0000_0000 && |x| == HeadSize(len) + len
    requires LikeOne(Run(c, s, x), len, op, payload)
    ensures var u := Unmasked(c, s, x);
            var h := ReadHead(u);
            && h.Head? && h.size == HeadSize(len) && h.len == len && IsData(c, h.op) && u[h.size..] != []
            && Run(c, s, x).events == Deliveries(h.op, Chunks(u[h.size..]))
  {
    var u := Unmasked(c, s, x);
    var h := ReadHead(u);
    HeadRun(c, s, x);
    assert h.Head?;
    var at, y := AfterHead(c, s, u, h), x[h.size..];
    TextBehind(c, s, x);
    hide Run, ReadHead, ValidRx, Deliveries, Chunks, UserData, Masked;
    if h.len == 0 || h.len > |y| {
      Endless(c, at, y);
      assert false;
    } else if h.len < |y| {
      TakeDrop(y, h.len);
      SecondFrame(c, at, y[..h.len], y[h.len..], h.size, len, op, payload);
      assert false;
    } else {
      WholeFrame(c, at, y);
      if IsData(c, h.op) {
        UserDataOf(h.op, Chunks(u[h.size..]));
      }
    }
  }

  // ----- the header that was written -----

  /** The same octets, but for the bits of the first that no receiver looks at. */
  predicate Alike(u: seq<byte>, plain: seq<byte>) {
    |u| == |plain| > 0 && u[0] % 16 == plain[0] % 16 && u[1..] == plain[1..]
  }

  lemma {:induction false} BigEndianOf(f: seq<byte>)
    ensures BigEndian(|f|, FromBigEndian(f)) == f
  {
    if f != [] {
      BigEndianOf(f[..|f| - 1]);
    }
  }

  /** The length field of the writer is the only one that reads as that length. */
  lemma LengthReads(len: nat, field: seq<byte>)
    requires 126 <= len < 0x8000_0000_0000_0000
    ensures var w := if len < 65536 then 2 else 8;
            |field| >= w ==> (ReadLength(field, w) == Some(len) <==> field[..w] == BigEndian(w, len))
  {
    var w := if len < 65536 then 2 else 8;
    LengthFieldValue(len);
    if |field| >= w {
      BigEndianOf(field[..w]);
    }
  }

  lemma OpcodeReads(op: nat, p: Protocol, revision: nat)
    requires op < 16 && revision < 7
    ensures FromOpcode04(op) == Some(Opcode(p)) <==> op == WireOpcode(revision, p)
  {
  }

  /** Octets are like the frame that was written exactly when they read as its header, with its payload behind. */
  lemma HeadReads(revision: nat, p: Protocol, fin: bool, payload: seq<byte>, u: seq<byte>)
    requires revision < 7 && Sendable(p, |payload|) && |u| == HeadSize(|payload|) + |payload|
    ensures var size := HeadSize(|payload|);
            Alike(u, Header(revision, p, fin, 0, |payload|) + payload)
            <==> ReadHead(u) == Head(size, Opcode(p), |payload|) && u[size..] == payload
  {
    var size, len := HeadSize(|payload|), |payload|;
    var field := LengthField(len, 0);
    FieldParts(len, 0);
    HeaderParts(revision, p, fin, payload, u);
    OpcodeReads(u[0] % 16, p, revision);
    ControlIsShort(p, len);
    if len >= 126 {
      LengthReads(len, u[2..]);
      assert u[2..][..size - 2] == u[2..size];
    }
  }

  lemma HeaderParts(revision: nat, p: Protocol, fin: bool, payload: seq<byte>, u: seq<byte>)
    requires |u| == HeadSize(|payload|) + |payload| && payload != []
    ensures var size, field := HeadSize(|payload|), LengthField(|payload|, 0);
            && 1 + |field| == size
            && (Alike(u, Header(revision, p, fin, 0, |payload|) + payload)
                <==> u[0] % 16 == WireOpcode(revision, p) && u[1] == field[0] && u[2..size] == field[1..] && u[size..] == payload)
  {
    hide WireOpcode, BigEndian;
    var size, field := HeadSize(|payload|), LengthField(|payload|, 0);
    var first := WireOpcode(revision, p) + if fin then 128 else 0;
    OpcodeAndFin(WireOpcode(revision, p), fin);
    var plain := Header(revision, p, fin, 0, |payload|) + payload;
    assert plain == [first] + (field + payload);
    Cons(first, field + payload);
    assert u[1..] == [u[1]] + (u[2..size] + u[size..]);
    assert field + payload == [field[0]] + (field[1..] + payload);
    assert u[1..][0] == u[1] && u[1..][1..] == u[2..];
    assert u[2..][..size - 2] == u[2..size] && u[2..][size - 2..] == u[size..];
    var rest := field[1..] + payload;
    assert (field + payload)[1..] == rest && rest[..size - 2] == field[1..] && rest[size - 2..] == payload;
  }

  // ----- whole frames -----

  /** A server of revision 4 to 6 between two frames, with the mask its handshake gave it. */
  predicate Waits(r: Conn, s: Rx) {
    Old(r) && r.kind == (if r.revision == 4 then Mask04 else Mask05) && ValidRx(r, s) && Idle(s)
  }

  /** Behind the nonce; a server that defeats the mask does not restart its mask index. */
  function FrameStart(r: Conn, s: Rx, nonce: seq<byte>): (at: Rx)
    requires Waits(r, s) && |nonce| == 4
    ensures AtFrame(r, at)
  {
    s.(nonce := nonce, allZero := nonce == ZERO_NONCE, index := StartIndex(r, s.index), parse := Hdr1)
  }

  function StartIndex(r: Conn, index: nat): nat {
    if r.defeatMask then index else 0
  }

  lemma NonceRead(r: Conn, s: Rx, nonce: seq<byte>, x: seq<byte>)
    requires Waits(r, s) && |nonce| == 4
    ensures Run(r, s, nonce + x) == Run(r, FrameStart(r, s, nonce), x)
  {
    hide Step, Run;
    NonceRun(r, s, nonce);
    var at := FrameStart(r, s, nonce);
    RunAppend(r, s, nonce, x);
    BeforeBefore([], [], Run(r, at, x));
  }

  /** The mask index behind a frame with n octets of payload. */
  function IndexBehind(r: Conn, index: nat, nonce: seq<byte>, n: nat): (i: nat)
    requires ValidIndex(r.kind, index)
    ensures ValidIndex(r.kind, i)
  {
    var behindHead := EndIndex(r.kind, StartIndex(r, index), HeadSize(n));
    if nonce == ZERO_NONCE && r.revision >= 5 then behindHead else EndIndex(r.kind, behindHead, n)
  }

  /** Octets that come out of the mask as the frame that was meant are handled as that frame. */
  lemma AlikeHandled(r: Conn, s: Rx, nonce: seq<byte>, x: seq<byte>, p: Protocol, fin: bool, payload: seq<byte>)
    requires Waits(r, s) && |nonce| == 4 && Sendable(p, |payload|)
    requires Alike(Unmasked(r, FrameStart(r, s, nonce), x), Header(r.revision, p, fin, 0, |payload|) + payload)
    ensures ValidRx(r, s) && Handled(r, Run(r, s, nonce + x), s, p, payload)
    ensures Run(r, s, nonce + x).rx.index == IndexBehind(r, s.index, nonce, |payload|)
  {
    var at := FrameStart(r, s, nonce);
    var u := Unmasked(r, at, x);
    NonceRead(r, s, nonce, x);
    HeaderLength(r.revision, p, fin, |payload|);
    HeadReads(r.revision, p, fin, payload, u);
    hide Run, ReadHead, Header, Alike, Masked, EndIndex, ValidRx, Handled, Effect;
    Intact(r, at, x, p);
    NoMaskStays(AfterHead(r, at, u, ReadHead(u)).index, |payload|);
    SameStart(r, Run(r, at, x), s, at, p, payload);
  }

  lemma NoMaskStays(index: nat, n: nat)
    ensures index < 256 ==> EndIndex(NoMask, index, n) == index
  {
    if index < 256 {
      NoMaskKeepsIndex(index, n);
    }
  }

  lemma SameStart(c: Conn, o: Out, s: Rx, at: Rx, p: Protocol, payload: seq<byte>)
    requires payload != [] && s.pings == at.pings
    ensures Handled(c, o, at, p, payload) <==> Handled(c, o, s, p, payload)
  {
    hide Effect;
  }

  lemma HeaderLength(revision: nat, p: Protocol, fin: bool, len: nat)
    ensures |Header(revision, p, fin, 0, len)| == HeadSize(len)
  {
  }

  /** A text or binary message is delivered, and the machine ready for the next frame, if and only if the octets behind
      the nonce come out of the server's mask as the frame of that message. */
  lemma HandledExactly(r: Conn, s: Rx, nonce: seq<byte>, x: seq<byte>, p: Protocol, fin: bool, payload: seq<byte>)
    requires Waits(r, s) && |nonce| == 4 && (p == Text || p == Binary)
    requires 0 < |payload| < 0x8000_0000_0000_0000 && |x| == HeadSize(|payload|) + |payload|
    ensures ValidRx(r, s)
    ensures Handled(r, Run(r, s, nonce + x), s, p, payload)
            <==> Alike(Unmasked(r, FrameStart(r, s, nonce), x), Header(r.revision, p, fin, 0, |payload|) + payload)
  {
    var at := FrameStart(r, s, nonce);
    var u := Unmasked(r, at, x);
    var o := Run(r, s, nonce + x);
    if Alike(u, Header(r.revision, p, fin, 0, |payload|) + payload) {
      AlikeHandled(r, s, nonce, x, p, fin, payload);
    } else if Handled(r, o, s, p, payload) {
      NonceRead(r, s, nonce, x);
      hide Run, ReadHead, Header, Alike, Masked, ValidRx, Chunks, Deliveries;
      UserDataOf(Opcode(p), Chunks(payload));
      OnlyOneFrame(r, at, x, |payload|, Opcode(p), payload);
      SameDeliveries(ReadHead(u).op, Opcode(p), u[ReadHead(u).size..], payload);
      HeadReads(r.revision, p, fin, payload, u);
    }
  }
}
