/** What frames cost a server of revision 4 to 6: the octets that a frame spends on nonce and header bound the data it
    can carry. */
module WsOverhead {
  import opened Bytes
  import opened WsMask
  import opened WsReceive
  import opened WsSend
  import opened WsRoundTrip

  predicate Old(c: Conn) {
    ValidConn(c) && c.server && c.revision < 7
  }

  /** From the beginning of a frame on: of the octets received, q were data that was delivered or is in the buffer, and a
      were not; `left` more are to come.  A frame with a length of up to 7 bits pays 6 octets for at most 125, one with 16
      bits pays 8 for at most 65535, one with 64 bits 14.  A length of zero wraps around and is never used up. */
  predicate Spent(s: Rx, a: int, q: int, left: int) {
    a >= 9 ||
    match s.parse
    case New => (a == 0 && q == 0 && left > 0) || (a >= 6 && q <= 125) || (a == 8 && q <= 65535)
    case Nonce(i) => i <= 3 && ((a == i && q == 0) || (a >= 6 + i && q <= 125))
    case Hdr1 => a == 4 && q == 0
    case HdrLen => a == 5 && q == 0
    case Len(l, w) =>
      !s.masked && q == 0 && if w == 2 then a + l == 8 && l <= 2 && (l == 1 ==> s.length <= 65280) else a + l == 14
    case Key(_) => false
    case Payload =>
      || (a >= 6 && q + s.length <= 125)
      || (a == 8 && q + s.length <= 65535)
      || s.length == 0 || s.length > left
  }

  /** What a step adds to the data. */
  function Gain(s: Rx, o: Out): int
    requires o.Next?
  {
    |UserData(o.events)| + |o.rx.buffer| - |s.buffer|
  }

  lemma OneReceived(op: nat, chunk: seq<byte>)
    ensures UserData([Received(op, chunk)]) == chunk
  {
    assert [Received(op, chunk)][1..] == [];
    assert chunk + [] == chunk;
  }

  lemma SpillGain(c: Conn, s: Rx)
    requires c.server && Spill(c, s).Next?
    ensures Gain(s, Spill(c, s)) <= 0
  {
    OneReceived(s.opcode, s.buffer);
    assert [Answered(OPCODE_PONG, s.buffer)][1..] == [];
    assert UserData([Answered(OPCODE_PONG, s.buffer)]) == [];
  }

  /** In front of the payload nothing is delivered. */
  lemma HeadSpent(c: Conn, s: Rx, b: byte, a: nat, q: nat, left: nat)
    requires Old(c) && ValidRx(c, s) && s.parse != Payload && Step(c, s, b).Next?
    requires Spent(s, a, q, left) && left > 0
    ensures var o := Step(c, s, b);
            o.events == [] && o.rx.buffer == s.buffer && Spent(o.rx, a + 1, q, left - 1)
  {
    hide ValidRx, MaskByte;
  }

  function Decreased(c: Conn, s: Rx, b: byte): (s': Rx)
    requires ValidRx(c, s)
    ensures |s'.buffer| == |s.buffer| + 1
  {
    KeysFit(c, s);
    Unmask(c, s, PayloadKeys(c, s), b).1.(buffer := s.buffer + [Unmask(c, s, PayloadKeys(c, s), b).0],
                                          length := Decremented(s.length))
  }

  lemma PayloadOctetIs(c: Conn, s: Rx, b: byte)
    requires Old(c) && ValidRx(c, s) && s.parse == Payload
    ensures var s1 := Decreased(c, s, b);
            && s1 == s.(buffer := s1.buffer, length := Decremented(s.length), index := s1.index)
            && Step(c, s, b) == if s1.length == 0 then Spill(c, s1.(parse := New))
                                else if |s1.buffer| == MAX_USER_RX_BUFFER then Spill(c, s1)
                                else Next(s1, [])
  {
    hide Spill;
  }

  lemma GainFrom(s: Rx, s1: Rx, o: Out)
    requires o.Next? && |s1.buffer| == |s.buffer| + 1
    ensures Gain(s, o) == Gain(s1, o) + 1
    ensures Gain(s1, Next(s1, [])) == 0
  {
  }

  /** Spilling the buffer delivers it, or turns it into overhead. */
  lemma SpillSpent(c: Conn, s: Rx, a: int, q: int, left: int)
    requires c.server && Spill(c, s).Next? && Spent(s, a, q, left) && |s.buffer| <= q
    ensures var o := Spill(c, s);
            var q' := q + Gain(s, o);
            && o.rx == s.(buffer := [], pings := o.rx.pings) && |o.rx.buffer| <= q' <= q
            && Spent(o.rx, a + q - q', q', left)
  {
    hide Spill;
    SpillGain(c, s);
  }

  lemma PayloadSpent(c: Conn, s: Rx, b: byte, a: nat, q: nat, left: nat)
    requires Old(c) && ValidRx(c, s) && s.parse == Payload && Step(c, s, b).Next?
    requires Spent(s, a, q, left) && |s.buffer| <= q && 0 < left < 0x1_0000_0000_0000_0000
    ensures var o := Step(c, s, b);
            var q' := q + Gain(s, o);
            |o.rx.buffer| <= q' <= q + 1 && Spent(o.rx, a + q + 1 - q', q', left - 1)
  {
    hide Spill;
    PayloadOctetIs(c, s, b);
    hide Step, ValidRx, Gain, UserData;
    var o := Step(c, s, b);
    var s1 := Decreased(c, s, b);
    assert Spent(s1, a, q + 1, left - 1);
    if s1.length == 0 {
      SpillSpent(c, s1.(parse := New), a, q + 1, left - 1);
    } else if |s1.buffer| == MAX_USER_RX_BUFFER {
      SpillSpent(c, s1, a, q + 1, left - 1);
    }
    GainFrom(s, s1, o);
  }

  lemma StepSpent(c: Conn, s: Rx, b: byte, a: nat, q: nat, left: nat)
    requires Old(c) && ValidRx(c, s) && Step(c, s, b).Next?
    requires Spent(s, a, q, left) && |s.buffer| <= q && 0 < left < 0x1_0000_0000_0000_0000
    ensures var o := Step(c, s, b);
            var q' := q + Gain(s, o);
            |o.rx.buffer| <= q' <= q + 1 && Spent(o.rx, a + q + 1 - q', q', left - 1)
  {
    hide Step, ValidRx, Spent;
    if s.parse == Payload {
      PayloadSpent(c, s, b, a, q, left);
    } else {
      HeadSpent(c, s, b, a, q, left);
    }
  }

  lemma {:induction false} UserDataAppend(a: seq<Event>, b: seq<Event>)
    ensures UserData(a + b) == UserData(a) + UserData(b)
  {
    if a == [] {
      assert a + b == b && [] + UserData(b) == UserData(b);
    } else {
      assert (a + b)[0] == a[0] && (a + b)[1..] == a[1..] + b;
      UserDataAppend(a[1..], b);
      Associative(if a[0].Received? then a[0].chunk else [], UserData(a[1..]), UserData(b));
    }
  }

  /** The books of a whole run. */
  lemma {:induction false} RunSpent(c: Conn, s: Rx, bytes: seq<byte>, a: nat, q: nat)
    requires Old(c) && ValidRx(c, s) && Run(c, s, bytes).Next?
    requires Spent(s, a, q, |bytes|) && |s.buffer| <= q && |bytes| < 0x1_0000_0000_0000_0000
    ensures var o := Run(c, s, bytes);
            var q' := q + Gain(s, o);
            |o.rx.buffer| <= q' && Spent(o.rx, a + q + |bytes| - q', q', 0)
    decreases |bytes|
  {
    hide Step, ValidRx, Spent, Old;
    if bytes != [] {
      var first := Step(c, s, bytes[0]);
      StepSpent(c, s, bytes[0], a, q, |bytes|);
      var q1 := q + Gain(s, first);
      var rest := Run(c, first.rx, bytes[1..]);
      RunSpent(c, first.rx, bytes[1..], a + q + 1 - q1, q1);
      UserDataAppend(first.events, rest.events);
    }
  }

  /** Between two frames. */
  predicate Idle(s: Rx) {
    s.parse == New && s.buffer == []
  }

  /** What whole frames cost: never fewer than 6 octets are not delivered, not fewer than 8 when there is more data than
      125 octets, and not fewer than 9 when there is more than 65535. */
  lemma FrameCost(c: Conn, s: Rx, bytes: seq<byte>)
    requires Old(c) && ValidRx(c, s) && Idle(s) && 0 < |bytes| < 0x1_0000_0000_0000_0000
    requires Run(c, s, bytes).Next? && Idle(Run(c, s, bytes).rx)
    ensures var q := |UserData(Run(c, s, bytes).events)|;
            && |bytes| - q >= 6 && (q > 125 ==> |bytes| - q >= 8) && (q > 65535 ==> |bytes| - q >= 9)
  {
    hide Run, ValidRx, Old;
    RunSpent(c, s, bytes, 0, 0);
  }
}
