/** The two per-octet receive machines of libwebsockets (parsers.c): libwebsocket_rx_sm on a server connection and
    libwebsocket_client_rx_sm on a client connection. */
module WsReceive {
  import opened Bytes
  import opened WsMask

  const MAX_USER_RX_BUFFER := 4096

  const OPCODE_CONTINUATION := 0
  const OPCODE_TEXT := 1
  const OPCODE_BINARY := 2
  const OPCODE_CLOSE := 8
  const OPCODE_PING := 9
  const OPCODE_PONG := 10

  /** What is fixed about an established connection; defeatMask is LWS_SERVER_OPTION_DEFEAT_CLIENT_MASK. */
  datatype Conn = Conn(server: bool, revision: nat, kind: Kind, key04: seq<byte>, defeatMask: bool)

  predicate ValidConn(c: Conn) {
    c.revision in {4, 5, 6, 7, 8, 13} && |c.key04| == 20
  }

  /** LWS_RXPS_...: Len(k, w) expects octet k of a w-octet length, Nonce(i) and Key(i) octet i of a mask nonce. */
  datatype Parse = New | Nonce(i: nat) | Hdr1 | HdrLen | Len(left: nat, width: nat) | Key(i: nat) | Payload

  datatype Rx = Rx(
    parse: Parse, nonce: seq<byte>, allZero: bool, index: nat,
    opcode: nat, fin: bool, masked: bool, length: nat, buffer: seq<byte>, pings: int)

  /** What the machine does to the outside: callbacks, and frames it writes itself. */
  datatype Event = Received(opcode: nat, chunk: seq<byte>) | ReceivedPong(chunk: seq<byte>) | Answered(opcode: nat, payload: seq<byte>)

  datatype Out = Closed(events: seq<Event>) | Next(rx: Rx, events: seq<Event>)

  predicate ValidRx(c: Conn, s: Rx) {
    && ValidConn(c) && |s.nonce| == 4 && ValidIndex(c.kind, s.index) && |s.buffer| < MAX_USER_RX_BUFFER
    && (match s.parse
        case Nonce(i) => c.server && c.revision < 7 && 1 <= i <= 3
        case Len(left, width) => (width == 2 || width == 8) && 1 <= left <= width
        case Key(i) => 1 <= i <= 4
        case Hdr1 => c.server
        case _ => true)
  }

  /** The mask over the frame header: only a server of revision 4 to 6 takes one off. */
  function HeaderKeys(c: Conn, s: Rx): Keys {
    Keys(if c.server && c.revision < 7 then c.kind else NoMask, s.nonce, c.key04)
  }

  function PayloadKeys(c: Conn, s: Rx): Keys {
    var raw := if c.server then s.allZero && c.revision >= 5 else !s.masked || s.allZero;
    Keys(if raw then NoMask else c.kind, s.nonce, c.key04)
  }

  /** Revisions before 7 number the opcodes differently; the machine keeps the later numbers. */
  function FromOpcode04(op: nat): Option<nat> {
    match op
    case 0 => Some(OPCODE_CONTINUATION)
    case 1 => Some(OPCODE_CLOSE)
    case 2 => Some(OPCODE_PING)
    case 3 => Some(OPCODE_PONG)
    case 4 => Some(OPCODE_TEXT)
    case 5 => Some(OPCODE_BINARY)
    case _ => None
  }

  predicate IsControl(op: nat) {
    op / 8 % 2 == 1
  }

  /** The octet after unmasking, with the machine's mask index advanced. */
  function Unmask(c: Conn, s: Rx, k: Keys, b: byte): (r: (byte, Rx))
    requires ValidRx(c, s) && ValidKeys(k) && (k.kind == NoMask || k.kind == c.kind)
    ensures r.1 == s.(index := r.1.index)
  {
    if k.kind == NoMask then (b, s) else (MaskByte(k, s.index, b), s.(index := NextIndex(k.kind, s.index)))
  }

  function FirstOctet(c: Conn, s: Rx, b: byte): (o: Out)
    requires ValidRx(c, s)
    ensures o.Next? ==> ValidRx(c, o.rx)
  {
    var (d, s) := Unmask(c, s, HeaderKeys(c, s), b);
    var op := if c.revision < 7 then FromOpcode04(d % 16) else Some(d % 16);
    if op.None? then Closed([])
    else Next(s.(opcode := op.value, fin := d >= 128, parse := HdrLen), [])
  }

  /** The length is complete. */
  function AfterLength(c: Conn, s: Rx): Out {
    if s.masked then Next(s.(parse := Key(1)), []) else AfterHeader(c, s)
  }

  /** Only the client looks for an empty payload. */
  function AfterHeader(c: Conn, s: Rx): Out {
    if !c.server && s.length == 0 then Spill(c, s.(parse := New)) else Next(s.(parse := Payload), [])
  }

  function LengthOctet(c: Conn, s: Rx, b: byte): (o: Out)
    requires ValidRx(c, s)
    ensures o.Next? ==> ValidRx(c, o.rx)
  {
    var (d, s) := Unmask(c, s, HeaderKeys(c, s), b);
    var s := s.(masked := d >= 128);
    if d >= 128 && c.revision < 7 then Closed([])
    else if d % 128 >= 126 then
      var width := if d % 128 == 126 then 2 else 8;
      if IsControl(s.opcode) then Closed([]) else Next(s.(parse := Len(width, width)), [])
    else AfterLength(c, s.(length := if c.server then d % 128 else d))
  }

  /** The octet shifted left by n octets. */
  function Shifted(d: byte, n: nat): nat {
    d * Pow256(n)
  }

  function LengthMore(c: Conn, s: Rx, b: byte): (o: Out)
    requires ValidRx(c, s) && s.parse.Len?
    ensures o.Next? ==> ValidRx(c, o.rx)
  {
    var (d, s) := Unmask(c, s, HeaderKeys(c, s), b);
    var Len(left, width) := s.parse;
    if left == 8 && d >= 128 then Closed([])
    else
      var s := s.(length := (if left == width then 0 else s.length) + Shifted(d, left - 1));
      if left == 1 then AfterLength(c, s) else Next(s.(parse := Len(left - 1, width)), [])
  }

  /** A size_t counter. */
  function Decremented(n: nat): nat {
    if n == 0 then 0xFFFF_FFFF_FFFF_FFFF else n - 1
  }

  function PayloadOctet(c: Conn, s: Rx, b: byte): (o: Out)
    requires ValidRx(c, s) && s.parse == Payload
    ensures o.Next? ==> ValidRx(c, o.rx)
  {
    hide Spill;
    var (d, s) := Unmask(c, s, PayloadKeys(c, s), b);
    var s := s.(buffer := s.buffer + [d], length := Decremented(s.length));
    if s.length == 0 then Spill(c, s.(parse := New))
    else if |s.buffer| == MAX_USER_RX_BUFFER then Spill(c, s)
    else Next(s, [])
  }

  /** The code at the label spill: control frames are served here, data goes to the user.  The server knows no
      continuation frames, and drops them like any opcode it cannot place. */
  function Spill(c: Conn, s: Rx): (o: Out)
    ensures o.Next? ==> o.rx == s.(buffer := [], pings := o.rx.pings)
  {
    var done := s.(buffer := []);
    if s.opcode == OPCODE_CLOSE then Closed([Answered(OPCODE_CLOSE, s.buffer)])
    else if s.opcode == OPCODE_PING then Next(done, if s.buffer == [] then [] else [Answered(OPCODE_PONG, s.buffer)])
    else if s.opcode == OPCODE_PONG then
      Next(done.(pings := s.pings - 1), if c.server then [] else [ReceivedPong(s.buffer)])
    else if s.opcode == OPCODE_TEXT || s.opcode == OPCODE_BINARY || (s.opcode == OPCODE_CONTINUATION && !c.server) then
      Next(done, [Received(s.opcode, s.buffer)])
    else Next(done, [])
  }

  function NonceOctet(c: Conn, s: Rx, b: byte): (o: Out)
    requires ValidRx(c, s) && s.parse.Nonce?
    ensures o.Next? ==> ValidRx(c, o.rx)
  {
    var i := s.parse.i;
    var s := s.(nonce := s.nonce[i := b], allZero := s.allZero && b == 0);
    if i < 3 then Next(s.(parse := Nonce(i + 1)), [])
    else Next(s.(index := if c.defeatMask then s.index else 0, parse := Hdr1), [])
  }

  function KeyOctet(c: Conn, s: Rx, b: byte): (o: Out)
    requires ValidRx(c, s) && s.parse.Key?
    ensures o.Next? ==> ValidRx(c, o.rx)
  {
    var i := s.parse.i;
    var s := s.(nonce := s.nonce[i - 1 := b], allZero := s.allZero && b == 0);
    if i < 4 then Next(s.(parse := Key(i + 1)), [])
    else if c.server then Next(s.(parse := Payload, index := 0), [])
    else AfterHeader(c, s)
  }

  function NewFrame(c: Conn, s: Rx, b: byte): (o: Out)
    requires ValidRx(c, s)
    ensures o.Next? ==> ValidRx(c, o.rx)
  {
    if !c.server then FirstOctet(c, s, b)
    else if c.revision < 7 then Next(s.(nonce := s.nonce[0 := b], allZero := b == 0, parse := Nonce(1)), [])
    else FirstOctet(c, s.(allZero := true), b)
  }

  function Step(c: Conn, s: Rx, b: byte): (o: Out)
    requires ValidRx(c, s)
    ensures o.Next? ==> ValidRx(c, o.rx)
  {
    hide ValidRx, NewFrame, NonceOctet, FirstOctet, LengthOctet, LengthMore, KeyOctet, PayloadOctet;
    match s.parse
    case New => NewFrame(c, s, b)
    case Nonce(_) => NonceOctet(c, s, b)
    case Hdr1 => FirstOctet(c, s, b)
    case HdrLen => LengthOctet(c, s, b)
    case Len(_, _) => LengthMore(c, s, b)
    case Key(_) => KeyOctet(c, s, b)
    case Payload => PayloadOctet(c, s, b)
  }

  function Before(events: seq<Event>, o: Out): Out {
    o.(events := events + o.events)
  }

  /** libwebsocket_interpret_incoming_packet: until the machine closes the connection. */
  function Run(c: Conn, s: Rx, bytes: seq<byte>): (o: Out)
    requires ValidRx(c, s)
    ensures o.Next? ==> ValidRx(c, o.rx)
    decreases |bytes|
  {
    if bytes == [] then Next(s, [])
    else
      match Step(c, s, bytes[0])
      case Closed(e) => Closed(e)
      case Next(s', e) => Before(e, Run(c, s', bytes[1..]))
  }

  lemma BeforeBefore(a: seq<Event>, b: seq<Event>, o: Out)
    ensures Before(a, Before(b, o)) == Before(a + b, o)
    ensures Before([], o) == o
  {
    Associative(a, b, o.events);
    assert [] + o.events == o.events;
  }

  lemma {:induction false} RunAppend(c: Conn, s: Rx, a: seq<byte>, b: seq<byte>)
    requires ValidRx(c, s)
    ensures var o := Run(c, s, a);
            Run(c, s, a + b) == if o.Closed? then o else Before(o.events, Run(c, o.rx, b))
    decreases |a|
  {
    hide Step, ValidRx;
    if a == [] {
      assert a + b == b;
      BeforeBefore([], [], Run(c, s, b));
    } else {
      assert (a + b)[0] == a[0] && (a + b)[1..] == a[1..] + b;
      var first := Step(c, s, a[0]);
      if first.Next? {
        RunAppend(c, first.rx, a[1..], b);
        var rest := Run(c, first.rx, a[1..]);
        if rest.Next? {
          BeforeBefore(first.events, rest.events, Run(c, rest.rx, b));
        }
      }
    }
  }
}
