/** Whole exchanges over a websocket connection: message sequences, ping and pong. */
module WsExchange {
  import opened Bytes
  import opened WsMask
  import opened WsReceive
  import opened WsSend
  import opened WsRoundTrip
  import opened WsOverhead
  import opened WsOldFrames
  import opened WsAgreement

  /** One call of libwebsocket_write, with the random nonce it drew. */
  datatype Message = Message(p: Protocol, fin: bool, ignoreMask: bool, nonce: seq<byte>, payload: seq<byte>)

  predicate Writable(m: Message) {
    |m.nonce| == 4 && Sendable(m.p, |m.payload|)
  }

  /** Two ends of one connection, w writing and r reading. */
  predicate Ends(w: Conn, r: Conn) {
    if w.server then ValidConn(w) && ValidConn(r) && !r.server && w.revision == r.revision else Connected(w, r)
  }

  /** What a server writes always arrives. */
  predicate Reaches(w: Conn, r: Conn, index: nat, m: Message)
    requires Ends(w, r) && Writable(m)
  {
    w.server || Arrives(w, r, index, m.ignoreMask, m.nonce, |m.payload|)
  }

  /** The mask index behind a message; from revision 7 on it is of no account. */
  function IndexAfter(w: Conn, r: Conn, index: nat, m: Message): (i: nat)
    requires Ends(w, r) && Writable(m) && ValidIndex(r.kind, index)
    ensures ValidIndex(r.kind, i)
  {
    if !w.server && r.revision < 7 then IndexBehind(r, index, SentNonce(w, m.ignoreMask, m.nonce), |m.payload|) else index
  }

  /** Message after message arrives, at the mask index that the one before has left. */
  predicate AllReach(w: Conn, r: Conn, index: nat, ms: seq<Message>)
    requires Ends(w, r) && ValidIndex(r.kind, index) && forall i | 0 <= i < |ms| :: Writable(ms[i])
    decreases |ms|
  {
    ms == [] ||
    (assert Writable(ms[0]); Reaches(w, r, index, ms[0]) && AllReach(w, r, IndexAfter(w, r, index, ms[0]), ms[1..]))
  }

  /** A client that masks with the key of the server, which takes the mask off from its start, and frames the masking loop
      can count; or, except in revision 4, a client that does not mask. */
  predicate Ordinary(w: Conn, r: Conn, m: Message) {
    || w.server
    || (if Masks(w, m.ignoreMask) then
          && |m.payload| < 0x8000_0000 && (r.revision < 7 ==> !r.defeatMask) && (r.revision == 4 ==> w.key04 == r.key04)
        else r.revision >= 5)
  }

  lemma OrdinaryReaches(w: Conn, r: Conn, index: nat, m: Message)
    requires Ends(w, r) && Writable(m) && ValidIndex(r.kind, index) && Ordinary(w, r, m)
    ensures Reaches(w, r, index, m)
  {
    assert forall i: nat :: ZERO_NONCE[i % 4] == 0;
  }

  lemma {:induction false} OrdinaryAllReach(w: Conn, r: Conn, index: nat, ms: seq<Message>)
    requires Ends(w, r) && ValidIndex(r.kind, index) && forall i | 0 <= i < |ms| :: Writable(ms[i]) && Ordinary(w, r, ms[i])
    ensures AllReach(w, r, index, ms)
    decreases |ms|
  {
    hide Ordinary, Ends, Reaches, Writable;
    if ms != [] {
      OrdinaryReaches(w, r, index, ms[0]);
      OrdinaryAllReach(w, r, IndexAfter(w, r, index, ms[0]), ms[1..]);
    }
  }

  function Wire(w: Conn, ms: seq<Message>): seq<byte>
    requires ValidConn(w) && forall i | 0 <= i < |ms| :: Writable(ms[i])
  {
    if ms == [] then []
    else
      assert Writable(ms[0]);
      FrameBytes(w, ms[0].p, ms[0].fin, ms[0].ignoreMask, ms[0].nonce, ms[0].payload) + Wire(w, ms[1..])
  }

  function Effects(r: Conn, ms: seq<Message>): seq<Event>
    requires forall i | 0 <= i < |ms| :: ms[i].payload != []
  {
    if ms == [] then [] else Effect(r, ms[0].p, ms[0].payload) + Effects(r, ms[1..])
  }

  /** A message that arrives has its effect, and a text or binary message has it only if it arrives. */
  lemma OneMessage(w: Conn, r: Conn, s: Rx, m: Message)
    requires Ends(w, r) && Writable(m) && ValidRx(r, s) && Idle(s)
    ensures var o := Run(r, s, FrameBytes(w, m.p, m.fin, m.ignoreMask, m.nonce, m.payload));
            && (Reaches(w, r, s.index, m) ==> Handled(r, o, s, m.p, m.payload))
            && (m.p == Text || m.p == Binary ==> Handled(r, o, s, m.p, m.payload) ==> Reaches(w, r, s.index, m))
            && (!w.server && r.revision < 7 && Reaches(w, r, s.index, m) ==> o.rx.index == IndexAfter(w, r, s.index, m))
  {
    hide Step, Run, Handled, Header, Arrives, IndexBehind;
    if w.server {
      ClientReceives(w, r, s, m.p, m.fin, m.payload);
    } else {
      ServerReceives(w, r, s, m.p, m.fin, m.ignoreMask, m.nonce, m.payload);
    }
  }

  lemma IndexOfNoAccount(w: Conn, r: Conn, i: nat, j: nat, m: Message)
    requires Ends(w, r) && Writable(m) && (!w.server && r.revision < 7 ==> i == j)
    ensures Reaches(w, r, i, m) <==> Reaches(w, r, j, m)
  {
  }

  /** Every sequence of messages that arrive is delivered message by message, and leaves the machine ready for the next
      frame. */
  lemma {:induction false} AllMessages(w: Conn, r: Conn, s: Rx, index: nat, ms: seq<Message>)
    requires Ends(w, r) && ValidRx(r, s) && Idle(s) && ValidIndex(r.kind, index)
    requires forall i | 0 <= i < |ms| :: Writable(ms[i])
    requires AllReach(w, r, index, ms) && (!w.server && r.revision < 7 ==> s.index == index)
    ensures forall i | 0 <= i < |ms| :: ms[i].payload != []
    ensures var o := Run(r, s, Wire(w, ms)); o.Next? && Idle(o.rx) && o.events == Effects(r, ms)
    decreases |ms|
  {
    hide Step, Run, FrameBytes, Effect, ValidRx, ValidConn, Arrives;
    if ms == [] {
      NothingToRun(r, s, NoMask, 0);
    } else {
      var m := ms[0];
      IndexOfNoAccount(w, r, s.index, index, m);
      OneMessage(w, r, s, m);
      var frame := FrameBytes(w, m.p, m.fin, m.ignoreMask, m.nonce, m.payload);
      var o := Run(r, s, frame);
      AllMessages(w, r, o.rx, IndexAfter(w, r, index, m), ms[1..]);
      RunAppend(r, s, frame, Wire(w, ms[1..]));
    }
  }

  // ----- ping and pong -----

  /** A ping is answered, never delivered; the answer is reported to the client with the same payload, and sending the
      one and receiving the other leave pings_vs_pongs as it was. */
  lemma PingPong(client: Conn, server: Conn, s: Rx, t: Rx, ping: Message)
    requires Connected(client, server) && Writable(ping) && ping.p == Ping && Reaches(client, server, s.index, ping)
    requires ValidRx(server, s) && Idle(s) && ValidRx(client, t) && Idle(t)
    ensures var there := Run(server, s, FrameBytes(client, Ping, ping.fin, ping.ignoreMask, ping.nonce, ping.payload));
            there.Next? && there.events == [Answered(OPCODE_PONG, ping.payload)] && there.rx.pings == s.pings
    ensures var back := Run(client, t.(pings := t.pings + 1), FrameBytes(server, Pong, true, false, ZERO_NONCE, ping.payload));
            back.Next? && back.events == [ReceivedPong(ping.payload)] && back.rx.pings == t.pings
  {
    hide Step, Run, FrameBytes, Arrives;
    OneMessage(client, server, s, ping);
    ClientReceives(server, client, t.(pings := t.pings + 1), Pong, true, ping.payload);
  }

  lemma RefusedAtLength(c: Conn, s: Rx, b: byte)
    requires ValidRx(c, s) && s.parse == HdrLen && HeaderKeys(c, s).kind == NoMask && b % 128 >= 126 && IsControl(s.opcode)
    ensures Step(c, s, b) == Closed([])
  {
  }

  lemma LongHeaderStart(revision: nat, p: Protocol, fin: bool, maskBit: byte, len: nat)
    requires revision >= 7 && (p == Ping || p == Pong) && len >= 126 && (maskBit == 0 || maskBit == 128)
    ensures var h := Header(revision, p, fin, maskBit, len);
            |h| >= 2 && h[0] == WireOpcode(revision, p) + (if fin then 128 else 0) && h[1] % 128 >= 126
    ensures IsControl(Opcode(p))
  {
    hide BigEndian, WireOpcode;
  }

  /** A control frame with an extended length is refused by either machine, whatever follows. */
  lemma LongControlRefused(c: Conn, s: Rx, p: Protocol, fin: bool, maskBit: byte, len: nat, more: seq<byte>)
    requires ValidRx(c, s) && s.parse == New && s.buffer == [] && c.revision >= 7
    requires (p == Ping || p == Pong) && len >= 126 && (maskBit == 0 || maskBit == 128)
    ensures Run(c, s, Header(c.revision, p, fin, maskBit, len) + more) == Closed([])
  {
    hide Step, Run, Header, WireOpcode, IsControl, Opcode;
    LongHeaderStart(c.revision, p, fin, maskBit, len);
    var all := Header(c.revision, p, fin, maskBit, len) + more;
    var s0 := if c.server then s.(allZero := true) else s;
    FirstStep(c, s, s0, all[0], p, fin);
    var s1 := Step(c, s, all[0]).rx;
    assert all == [all[0]] + ([all[1]] + all[2..]);
    RunQuiet(c, s, all[0], s1, [all[1]] + all[2..]);
    RefusedAtLength(c, s1, all[1]);
    RunCons(c, s1, all[1], all[2..]);
  }
}
