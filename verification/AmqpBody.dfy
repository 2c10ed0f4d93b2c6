/** Sending a message as frames (amqp_connection.c, amqp_api.c) and putting its body together again
    (amqp_consumer.c). */
module AmqpBody {
  import opened Bytes
  import opened AmqpDecoder

  const CHANNEL_CLOSE_METHOD := 0x00140028
  const CONNECTION_CLOSE_METHOD := 0x000A0032
  const BASIC_CLASS := 0x003C
  const BASIC_PUBLISH_METHOD := 0x003C0028

  /** One frame on the wire. */
  function EncodeFrame(f: Frame): seq<byte> {
    [f.frameType] + BigEndian(2, f.channel) + BigEndian(4, |f.payload|) + f.payload + [FRAME_END]
  }

  function EncodeAll(frames: seq<Frame>): seq<byte> {
    if frames == [] then [] else EncodeFrame(frames[0]) + EncodeAll(frames[1..])
  }

  /** Frames a decoder with this configuration accepts and reports. */
  predicate Acceptable(cfg: Config, f: Frame) {
    && Known(f.frameType)
    && f.channel < 0x1_0000
    && |f.payload| + HEADER_SIZE + FOOTER_SIZE <= cfg.frameMax < 0x1_0000_0000
    && Refusal(cfg, f.frameType, f.payload) == None
  }

  lemma EncodedParts(f: Frame)
    ensures var s := EncodeFrame(f);
            && |s| == HEADER_SIZE + |f.payload| + FOOTER_SIZE
            && s[0] == f.frameType && s[|s| - 1] == FRAME_END
            && s[1..3] == BigEndian(2, f.channel) && s[3..7] == BigEndian(4, |f.payload|)
            && s[HEADER_SIZE..|s| - FOOTER_SIZE] == f.payload
  {
  }

  lemma ScanEncoded(cfg: Config, f: Frame, more: seq<byte>)
    requires Acceptable(cfg, f)
    ensures Scan(cfg, EncodeFrame(f) + more) == Complete(Some(f), |EncodeFrame(f)|)
  {
    var s := EncodeFrame(f);
    EncodedParts(f);
    hide EncodeFrame;
    hide BigEndian;
    PowersOf256();
    BigEndianRoundTrip(2, f.channel);
    BigEndianRoundTrip(4, |f.payload|);
    assert Target(s) == |s|;
    ScanParts(cfg, f, s);
    hide Scan;
    ScanExtends(cfg, s, more);
  }

  lemma ScanParts(cfg: Config, f: Frame, s: seq<byte>)
    requires Acceptable(cfg, f) && |s| == HEADER_SIZE + |f.payload| + FOOTER_SIZE && Target(s) == |s|
    requires s[0] == f.frameType && FromBigEndian(s[1..3]) == f.channel
    requires s[HEADER_SIZE..|s| - FOOTER_SIZE] == f.payload && s[|s| - 1] == FRAME_END
    ensures Scan(cfg, s) == Complete(Some(f), |s|)
  {
    hide Target, FromBigEndian;
  }

  /** The other direction: what is taken for a frame is an encoded one, and reported exactly when its type is known. */
  lemma CompleteIsEncoded(cfg: Config, s: seq<byte>)
    requires Scan(cfg, s).Complete? && cfg.frameMax < 0x1_0000_0000
    ensures var n := Scan(cfg, s).size;
            var f := Frame(s[0], FromBigEndian(s[1..3]), s[HEADER_SIZE..n - FOOTER_SIZE]);
            && s[..n] == EncodeFrame(f) && Refusal(cfg, f.frameType, f.payload) == None
            && (if Known(f.frameType) then Scan(cfg, s).frame == Some(f) && Acceptable(cfg, f) else Scan(cfg, s).frame == None)
  {
    var n := Scan(cfg, s).size;
    BackToOctets(s[1..3]);
    BackToOctets(s[3..7]);
    PowersOf256();
    hide BigEndian, FromBigEndian, Pow256;
    var payload := s[HEADER_SIZE..n - FOOTER_SIZE];
    assert |payload| == FromBigEndian(s[3..7]);
    FramePieces(s[..n], payload);
  }

  lemma FramePieces(s: seq<byte>, payload: seq<byte>)
    requires |s| == HEADER_SIZE + |payload| + FOOTER_SIZE && payload == s[HEADER_SIZE..|s| - FOOTER_SIZE] && s[|s| - 1] == FRAME_END
    ensures s == [s[0]] + s[1..3] + s[3..7] + payload + [FRAME_END]
  {
  }

  /** Decoding inverts encoding, whatever follows on the wire. */
  lemma {:induction false} DecodeEncoded(cfg: Config, frames: seq<Frame>)
    requires forall i | 0 <= i < |frames| :: Acceptable(cfg, frames[i])
    ensures Decode(cfg, EncodeAll(frames)) == Decoded(frames, [], None)
  {
    hide Scan;
    hide Acceptable;
    hide EncodeFrame;
    if frames != [] {
      var s, more := EncodeFrame(frames[0]), EncodeAll(frames[1..]);
      ScanEncoded(cfg, frames[0], more);
      assert (s + more)[|s|..] == more;
      DecodeEncoded(cfg, frames[1..]);
    } else {
      ScanEmpty(cfg);
    }
  }

  lemma ScanEmpty(cfg: Config)
    ensures Scan(cfg, []) == Partial
  {
  }

  // ----- sending -----

  function Fragments(body: seq<byte>, usable: nat): (parts: seq<seq<byte>>)
    requires usable > 0
    ensures forall i | 0 <= i < |parts| :: 0 < |parts[i]| <= usable
    ensures Flatten(parts) == body
  {
    if body == [] then []
    else if |body| <= usable then [body]
    else [body[..usable]] + Fragments(body[usable..], usable)
  }

  function BodyFrames(channel: nat, parts: seq<seq<byte>>): (frames: seq<Frame>)
    ensures |frames| == |parts|
    ensures forall i | 0 <= i < |parts| :: frames[i] == Frame(FRAME_BODY, channel, parts[i])
  {
    if parts == [] then [] else [Frame(FRAME_BODY, channel, parts[0])] + BodyFrames(channel, parts[1..])
  }

  /** What amqp_send_frame is asked to send; args and props are the codecs' output. */
  datatype Outgoing =
    | Method(id: nat, args: seq<byte>)
    | Properties(classId: nat, bodySize: nat, props: seq<byte>)
    | BodyFragment(bytes: seq<byte>)
    | Heartbeat
  {
    function FrameType(): byte {
      match this
      case Method(_, _) => FRAME_METHOD
      case Properties(_, _, _) => FRAME_HEADER
      case BodyFragment(_) => FRAME_BODY
      case Heartbeat => FRAME_HEARTBEAT
    }

    function Payload(): seq<byte> {
      match this
      case Method(id, args) => BigEndian(4, id) + args
      case Properties(classId, size, props) => BigEndian(2, classId) + BigEndian(2, 0) + BigEndian(8, size) + props
      case BodyFragment(bytes) => bytes
      case Heartbeat => []
    }

    /** Octets of the outbound buffer that the fixed fields of the frame and its end take, whatever else fits: without
        them the room left for the codec wraps around. */
    function Scratch(): nat {
      HEADER_SIZE + match this
                    case Method(_, _) => 5
                    case Properties(_, _, _) => 13
                    case BodyFragment(_) => 0
                    case Heartbeat => 1
    }
  }

  /** A frame_max too small for the fixed fields of a frame makes the C code write past the outbound buffer. */
  datatype Status = Ok | Failure | PastEnd

  /** Of these octets the socket has taken all, or as many as it was going to take, and then failed. */
  ghost predicate Took(before: seq<byte>, room: nat, bytes: seq<byte>, after: seq<byte>, left: nat, res: Status) {
    var n := if |bytes| <= room then |bytes| else room;
    after == before + bytes[..n] && left == room - n && res == if n == |bytes| then Ok else Failure
  }

  lemma TookNothing(before: seq<byte>, room: nat)
    ensures Took(before, room, [], before, room, Ok)
  {
    assert before + [] == before;
  }

  /** Octets in two portions. */
  lemma TookBoth(before: seq<byte>, room: nat, a: seq<byte>, mid: seq<byte>, left: nat, b: seq<byte>, after: seq<byte>,
                 end: nat, res: Status)
    requires Took(before, room, a, mid, left, Ok) && Took(mid, left, b, after, end, res)
    ensures Took(before, room, a + b, after, end, res)
  {
    var n := if |b| <= left then |b| else left;
    assert a[..|a|] == a && (a + b)[..|a| + n] == a + b[..n];
    Associative(before, a, b[..n]);
  }

  lemma TookFirst(before: seq<byte>, room: nat, a: seq<byte>, after: seq<byte>, left: nat, b: seq<byte>)
    requires Took(before, room, a, after, left, Failure)
    ensures Took(before, room, a + b, after, left, Failure)
  {
    assert (a + b)[..room] == a[..room];
  }

  /** The sending half of a connection; `wire` is everything the socket has accepted. */
  class Sender {
    const frameMax: nat
    const outbound: array<byte>
    var wire: seq<byte>
    /** How many octets the socket is going to take before it fails. */
    var room: nat

    ghost predicate Valid()
      reads this
    {
      outbound.Length == frameMax
    }

    constructor (frameMax: nat, room: nat)
      ensures Valid() && fresh(outbound) && this.frameMax == frameMax && wire == [] && this.room == room
    {
      this.frameMax, outbound, wire, this.room := frameMax, new byte[frameMax], [], room;
    }

    /** amqp_e8, amqp_e16, amqp_e32 and amqp_e64. */
    method Put(offset: nat, n: nat, v: nat)
      requires offset + n <= outbound.Length
      modifies outbound
      ensures outbound[offset..offset + n] == BigEndian(n, v)
      ensures forall k | 0 <= k < outbound.Length && !(offset <= k < offset + n) :: outbound[k] == old(outbound[k])
    {
      PutBytes(offset, BigEndian(n, v));
    }

    method PutBytes(offset: nat, bytes: seq<byte>)
      requires offset + |bytes| <= outbound.Length
      modifies outbound
      ensures outbound[offset..offset + |bytes|] == bytes
      ensures forall k | 0 <= k < outbound.Length && !(offset <= k < offset + |bytes|) :: outbound[k] == old(outbound[k])
    {
      forall k | 0 <= k < |bytes| {
        outbound[offset + k] := bytes[k];
      }
    }

    method SocketSend(bytes: seq<byte>) returns (res: Status)
      modifies this`wire, this`room
      ensures Took(old(wire), old(room), bytes, wire, room, res)
    {
      var sent := if |bytes| <= room then |bytes| else room;
      wire, room := wire + bytes[..sent], room - sent;
      res := if sent == |bytes| then Ok else Failure;
    }

    /** The fixed fields of the frame have room in the outbound buffer, and what is copied behind them as well. */
    predicate Fits(f: Outgoing) {
      f.Scratch() <= frameMax && (!f.BodyFragment? ==> |f.Payload()| + HEADER_SIZE + FOOTER_SIZE <= frameMax)
    }

    /** amqp_send_frame. */
    method SendFrame(channel: nat, f: Outgoing) returns (res: Status)
      requires Valid()
      modifies this`wire, this`room, outbound
      ensures res == PastEnd <==> frameMax < f.Scratch()
      ensures if Fits(f) then Took(old(wire), old(room), EncodeFrame(HeadFrame(channel, f)), wire, room, res)
              else res != Ok && wire == old(wire) && room == old(room)
    {
      hide BigEndian;
      if frameMax < f.Scratch() {
        return PastEnd;
      }
      PutHead(channel, f.FrameType());
      match f {
        case BodyFragment(bytes) =>
          res := SendFragment(channel, bytes);
        case Method(id, args) =>
          res := SendMethod(channel, id, args);
        case Properties(classId, bodySize, props) =>
          res := SendProperties(channel, classId, bodySize, props);
        case Heartbeat =>
          res := Seal(f, channel, 0);
      }
    }

    /** Frame type and channel. */
    method PutHead(channel: nat, frameType: byte)
      requires Valid() && HEADER_SIZE <= frameMax
      modifies outbound
      ensures outbound[..3] == [frameType] + BigEndian(2, channel)
    {
      Put(0, 1, frameType);
      Put(1, 2, channel);
      assert outbound[0..1] == BigEndian(1, frameType) == [frameType];
      SliceJoin(outbound[..], 0, 1, 3);
    }

    /** A body fragment is not copied: header, fragment and end octet are gathered. */
    method SendFragment(ghost channel: nat, bytes: seq<byte>) returns (res: Status)
      requires Valid() && HEADER_SIZE <= frameMax
      requires outbound[..3] == [FRAME_BODY] + BigEndian(2, channel)
      modifies this`wire, this`room, outbound
      ensures Took(old(wire), old(room), EncodeFrame(Frame(FRAME_BODY, channel, bytes)), wire, room, res)
    {
      hide BigEndian;
      ghost var head := outbound[..3];
      Put(3, 4, |bytes|);
      assert outbound[..3] == head;
      SliceJoin(outbound[..], 0, 3, HEADER_SIZE);
      var all := outbound[..HEADER_SIZE] + bytes + [FRAME_END];
      res := SocketSend(all);
    }

    method SendMethod(ghost channel: nat, id: nat, args: seq<byte>) returns (res: Status)
      requires Valid() && HEADER_SIZE + 5 <= frameMax
      requires outbound[..3] == [Method(id, args).FrameType()] + BigEndian(2, channel)
      modifies this`wire, this`room, outbound
      ensures var f := Method(id, args);
              if Fits(f) then Took(old(wire), old(room), EncodeFrame(HeadFrame(channel, f)), wire, room, res)
              else res == Failure && wire == old(wire) && room == old(room)
    {
      Put(HEADER_SIZE, 4, id);
      if |args| > frameMax - HEADER_SIZE - 4 - FOOTER_SIZE {
        return Failure;
      }
      PutBytes(HEADER_SIZE + 4, args);
      SliceJoin(outbound[..], HEADER_SIZE, HEADER_SIZE + 4, HEADER_SIZE + 4 + |args|);
      res := Seal(Method(id, args), channel, |args| + 4);
    }

    method SendProperties(ghost channel: nat, classId: nat, bodySize: nat, props: seq<byte>) returns (res: Status)
      requires Valid() && HEADER_SIZE + 13 <= frameMax
      requires outbound[..3] == [Properties(classId, bodySize, props).FrameType()] + BigEndian(2, channel)
      modifies this`wire, this`room, outbound
      ensures var f := Properties(classId, bodySize, props);
              if Fits(f) then Took(old(wire), old(room), EncodeFrame(HeadFrame(channel, f)), wire, room, res)
              else res == Failure && wire == old(wire) && room == old(room)
    {
      hide BigEndian;
      var h := HEADER_SIZE;
      Put(h, 2, classId);
      Put(h + 2, 2, 0);
      SliceJoin(outbound[..], h, h + 2, h + 4);
      assert outbound[h..h + 4] == BigEndian(2, classId) + BigEndian(2, 0);
      Put(h + 4, 8, bodySize);
      SliceJoin(outbound[..], h, h + 4, h + 12);
      assert outbound[h..h + 12] == BigEndian(2, classId) + BigEndian(2, 0) + BigEndian(8, bodySize);
      if |props| > frameMax - HEADER_SIZE - 12 - FOOTER_SIZE {
        return Failure;
      }
      PutBytes(h + 12, props);
      SliceJoin(outbound[..], h, h + 12, h + 12 + |props|);
      res := Seal(Properties(classId, bodySize, props), channel, |props| + 12);
    }

    /** The common end of a copied frame: length field, end octet, send. */
    method Seal(ghost f: Outgoing, ghost channel: nat, length: nat) returns (res: Status)
      requires Valid() && length + HEADER_SIZE + FOOTER_SIZE <= frameMax
      requires length == |f.Payload()|
      requires outbound[..3] == [f.FrameType()] + BigEndian(2, channel)
      requires outbound[HEADER_SIZE..HEADER_SIZE + length] == f.Payload()
      modifies this`wire, this`room, outbound
      ensures Took(old(wire), old(room), EncodeFrame(HeadFrame(channel, f)), wire, room, res)
    {
      hide Outgoing.Payload;
      ghost var start, payload := outbound[..3], f.Payload();
      Put(3, 4, length);
      Put(length + HEADER_SIZE, 1, FRAME_END);
      assert outbound[..3] == start;
      assert outbound[HEADER_SIZE..HEADER_SIZE + length] == payload;
      var end := length + HEADER_SIZE;
      var bytes := outbound[..end + FOOTER_SIZE];
      assert outbound[end..end + 1] == BigEndian(1, FRAME_END) == [FRAME_END];
      SliceJoin(outbound[..], 0, 3, HEADER_SIZE);
      SliceJoin(outbound[..], 0, HEADER_SIZE, end);
      SliceJoin(outbound[..], 0, end, end + 1);
      assert bytes == start + BigEndian(4, length) + payload + [FRAME_END];
      res := SocketSend(bytes);
    }

    /** The body loop of amqp_basic_publish. */
    method PublishBody(channel: nat, body: seq<byte>) returns (res: Status)
      requires Valid() && frameMax > HEADER_SIZE + FOOTER_SIZE
      modifies this`wire, this`room, outbound
      ensures Took(old(wire), old(room), BodyWire(channel, body, frameMax), wire, room, res)
    {
      hide BodyWire, EncodeFrame, Took;
      var usable := frameMax - (HEADER_SIZE + FOOTER_SIZE);
      var offset := 0;
      ghost var sent := [];
      assert body[0..] == body && [] + BodyWire(channel, body, frameMax) == BodyWire(channel, body, frameMax);
      TookNothing(wire, room);
      while offset < |body|
        invariant 0 <= offset <= |body|
        invariant sent + BodyWire(channel, body[offset..], frameMax) == BodyWire(channel, body, frameMax)
        invariant Took(old(wire), old(room), sent, wire, room, Ok)
      {
        var remaining := |body| - offset;
        var length := if remaining >= usable then usable else remaining;
        var part := body[offset..offset + length];
        FirstFragment(body[offset..], frameMax, channel);
        assert part == body[offset..][..length] && body[offset + length..] == body[offset..][length..];
        ghost var frame := EncodeFrame(Frame(FRAME_BODY, channel, part));
        ghost var rest := BodyWire(channel, body[offset + length..], frameMax);
        Associative(sent, frame, rest);
        offset := offset + length;
        ghost var was, left := wire, room;
        res := SendFrame(channel, BodyFragment(part));
        TookBoth(old(wire), old(room), sent, was, left, frame, wire, room, res);
        if res != Ok {
          TookFails(was, left, frame, wire, room, res);
          TookFirst(old(wire), old(room), sent + frame, wire, room, rest);
          return;
        }
        sent := sent + frame;
      }
      NoBody(channel, body[offset..], frameMax);
      assert sent + [] == sent;
      return Ok;
    }

    /** amqp_basic_publish after its heartbeat check: method frame, header frame, body frames.  When arguments and
        properties fit the frames go out one after the other, as far as the socket takes them. */
    method BasicPublish(channel: nat, args: seq<byte>, props: seq<byte>, body: seq<byte>) returns (res: Status)
      requires Valid()
      modifies this`wire, this`room, outbound
      ensures frameMax < HEADER_SIZE + 5 ==> res == PastEnd
      ensures HEADER_SIZE + 5 <= frameMax < HEADER_SIZE + 13 ==> res != Ok
      ensures res == PastEnd ==> frameMax < HEADER_SIZE + 13
      ensures Publishable(frameMax, args, props) ==>
                && Took(old(wire), old(room), EncodeAll(MessageFrames(frameMax, channel, args, props, body)), wire, room, res)
                && forall f | f in MessageFrames(frameMax, channel, args, props, body) :: |EncodeFrame(f)| <= frameMax
      ensures !Publishable(frameMax, args, props) ==> res != Ok
    {
      ghost var start, left := wire, room;
      ghost var m, h := Method(BASIC_PUBLISH_METHOD, args), Properties(BASIC_CLASS, |body|, props);
      HeadLengths(args, props, |body|);
      assert Publishable(frameMax, args, props) <==> Fits(m) && Fits(h);
      if Publishable(frameMax, args, props) {
        FramesFit(frameMax, channel, args, props, body);
        EncodeMessage(frameMax, channel, args, props, body);
      }
      ghost var tail := if Publishable(frameMax, args, props) then BodyWire(channel, body, frameMax) else [];
      ghost var m', h' := EncodeFrame(HeadFrame(channel, m)), EncodeFrame(HeadFrame(channel, h));
      hide EncodeFrame, HeadFrame, Took, Fits, MessageFrames, EncodeAll;
      res := SendFrame(channel, Method(BASIC_PUBLISH_METHOD, args));
      if res != Ok {
        if Fits(m) {
          TookFails(start, left, m', wire, room, res);
          TookFirst(start, left, m', wire, room, h' + tail);
        }
        return;
      }
      ghost var was, mid := wire, room;
      res := SendFrame(channel, Properties(BASIC_CLASS, |body|, props));
      if Fits(m) && Fits(h) {
        TookBoth(start, left, m', was, mid, h', wire, room, res);
      }
      if res != Ok {
        if Fits(m) && Fits(h) {
          TookFails(was, mid, h', wire, room, res);
          TookFirst(start, left, m' + h', wire, room, tail);
        }
        return;
      }
      was, mid := wire, room;
      res := PublishBody(channel, body);
      TookBoth(start, left, m' + h', was, mid, tail, wire, room, res);
    }
  }

  /** What decides whether a message can be sent at all. */
  predicate Publishable(frameMax: nat, args: seq<byte>, props: seq<byte>) {
    && frameMax >= HEADER_SIZE + 13
    && |args| + 4 <= frameMax - (HEADER_SIZE + FOOTER_SIZE) && |props| + 12 <= frameMax - (HEADER_SIZE + FOOTER_SIZE)
  }

  lemma TookFails(before: seq<byte>, room: nat, bytes: seq<byte>, after: seq<byte>, left: nat, res: Status)
    requires Took(before, room, bytes, after, left, res) && res != Ok
    ensures res == Failure
  {
  }

  /** Room for payload in one frame. */
  function Usable(frameMax: nat): nat
    requires frameMax > HEADER_SIZE + FOOTER_SIZE
  {
    frameMax - (HEADER_SIZE + FOOTER_SIZE)
  }

  function HeadFrame(channel: nat, f: Outgoing): Frame {
    Frame(f.FrameType(), channel, f.Payload())
  }

  function MessageFrames(frameMax: nat, channel: nat, args: seq<byte>, props: seq<byte>, body: seq<byte>): seq<Frame>
    requires frameMax > HEADER_SIZE + FOOTER_SIZE
  {
    [HeadFrame(channel, Method(BASIC_PUBLISH_METHOD, args)), HeadFrame(channel, Properties(BASIC_CLASS, |body|, props))]
    + BodyFrames(channel, Fragments(body, Usable(frameMax)))
  }

  /** The body frames of a message as they appear on the wire. */
  function BodyWire(channel: nat, body: seq<byte>, frameMax: nat): seq<byte>
    requires frameMax > HEADER_SIZE + FOOTER_SIZE
  {
    EncodeAll(BodyFrames(channel, Fragments(body, Usable(frameMax))))
  }

  lemma NoBody(channel: nat, body: seq<byte>, frameMax: nat)
    requires frameMax > HEADER_SIZE + FOOTER_SIZE && body == []
    ensures BodyWire(channel, body, frameMax) == []
  {
  }

  lemma FirstFragment(body: seq<byte>, frameMax: nat, channel: nat)
    requires frameMax > HEADER_SIZE + FOOTER_SIZE && body != []
    ensures var n := if |body| >= Usable(frameMax) then Usable(frameMax) else |body|;
            BodyWire(channel, body, frameMax)
            == EncodeFrame(Frame(FRAME_BODY, channel, body[..n])) + BodyWire(channel, body[n..], frameMax)
  {
    hide EncodeFrame;
    var usable := Usable(frameMax);
    var n := if |body| >= usable then usable else |body|;
    var parts := Fragments(body[n..], usable);
    assert Fragments(body, usable) == [body[..n]] + parts;
    var f := Frame(FRAME_BODY, channel, body[..n]);
    assert BodyFrames(channel, [body[..n]] + parts) == [f] + BodyFrames(channel, parts) by {
      assert ([body[..n]] + parts)[1..] == parts;
    }
    assert ([f] + BodyFrames(channel, parts))[1..] == BodyFrames(channel, parts);
  }

  lemma EncodeMessage(frameMax: nat, channel: nat, args: seq<byte>, props: seq<byte>, body: seq<byte>)
    requires frameMax > HEADER_SIZE + FOOTER_SIZE
    ensures var m := EncodeFrame(HeadFrame(channel, Method(BASIC_PUBLISH_METHOD, args)));
            var h := EncodeFrame(HeadFrame(channel, Properties(BASIC_CLASS, |body|, props)));
            EncodeAll(MessageFrames(frameMax, channel, args, props, body)) == m + (h + BodyWire(channel, body, frameMax))
            == m + h + BodyWire(channel, body, frameMax)
  {
    hide EncodeFrame;
    hide HeadFrame;
    var m := HeadFrame(channel, Method(BASIC_PUBLISH_METHOD, args));
    var h := HeadFrame(channel, Properties(BASIC_CLASS, |body|, props));
    var fs := BodyFrames(channel, Fragments(body, Usable(frameMax)));
    var all := MessageFrames(frameMax, channel, args, props, body);
    assert all[0] == m && all[1..] == [h] + fs && ([h] + fs)[1..] == fs;
    Associative(EncodeFrame(m), EncodeFrame(h), EncodeAll(fs));
  }

  // ----- receiving -----

  /** Normal also carries the frames still waiting after the message. */
  datatype ReadResult =
    | Normal(props: seq<byte>, body: seq<byte>, left: seq<Frame>)
    | WaitFailed | ServerException | BadData | UnexpectedState

  predicate IsClose(f: Frame) {
    && f.frameType == FRAME_METHOD && |f.payload| >= 4
    && var id := FromBigEndian(f.payload[..4]); id == CHANNEL_CLOSE_METHOD || id == CONNECTION_CLOSE_METHOD
  }

  /** What is still to be read of a body when `size` octets of it are missing. */
  function Remaining(props: seq<byte>, size: nat, frames: seq<Frame>): ReadResult
    decreases |frames|
  {
    if size == 0 then Normal(props, [], frames)
    else if frames == [] then WaitFailed
    else
      var f := frames[0];
      if f.frameType != FRAME_BODY then if IsClose(f) then ServerException else BadData
      else if |f.payload| > size then BadData
      else After(f.payload, Remaining(props, size - |f.payload|, frames[1..]))
  }

  function After(bytes: seq<byte>, r: ReadResult): ReadResult {
    if r.Normal? then r.(body := bytes + r.body) else r
  }

  lemma AfterAfter(a: seq<byte>, b: seq<byte>, r: ReadResult)
    ensures After(a, After(b, r)) == After(a + b, r)
  {
    if r.Normal? {
      Associative(a, b, r.body);
    }
  }

  /** amqp_read_message over the frames waiting on the channel. */
  method ReadMessage(frames: seq<Frame>) returns (r: ReadResult)
    requires frames != [] ==> |frames[0].payload| >= FixedFields(frames[0].frameType)
    ensures frames == [] ==> r == WaitFailed
    ensures frames != [] ==>
      var f := frames[0];
      r == if f.frameType == FRAME_HEADER then Remaining(f.payload[12..], FromBigEndian(f.payload[4..12]), frames[1..])
           else if IsClose(f) then ServerException
           else UnexpectedState
  {
    var used := 0;
    if used == |frames| {
      return WaitFailed;
    }
    var frame := frames[0];
    used := 1;
    if frame.frameType != FRAME_HEADER {
      return if IsClose(frame) then ServerException else UnexpectedState;
    }
    var size, props := FromBigEndian(frame.payload[4..12]), frame.payload[12..];
    var body := new byte[size];
    var bodyRead := 0;
    ghost var goal := Remaining(props, size, frames[1..]);
    assert goal == After([], goal) by {
      if goal.Normal? { assert [] + goal.body == goal.body; }
    }
    while bodyRead < size
      invariant 1 <= used <= |frames| && bodyRead <= size
      invariant goal == After(body[..bodyRead], Remaining(props, size - bodyRead, frames[used..]))
      decreases |frames| - used
    {
      if used == |frames| {
        return WaitFailed;
      }
      frame := frames[used];
      assert frames[used] == frames[used..][0] && frames[used + 1..] == frames[used..][1..];
      used := used + 1;
      if frame.frameType != FRAME_BODY {
        return if IsClose(frame) then ServerException else BadData;
      }
      if bodyRead + |frame.payload| > size {
        return BadData;
      }
      ghost var got := body[..bodyRead];
      forall k | 0 <= k < |frame.payload| {
        body[bodyRead + k] := frame.payload[k];
      }
      bodyRead := bodyRead + |frame.payload|;
      assert body[..bodyRead] == got + frame.payload;
      AfterAfter(got, frame.payload, Remaining(props, size - bodyRead, frames[used..]));
    }
    assert body[..bodyRead] == body[..] && body[..] + [] == body[..];
    return Normal(props, body[..], frames[used..]);
  }

  // ----- end to end -----

  lemma {:induction false} PartsComplete(props: seq<byte>, channel: nat, parts: seq<seq<byte>>)
    requires forall i | 0 <= i < |parts| :: |parts[i]| > 0
    ensures Remaining(props, |Flatten(parts)|, BodyFrames(channel, parts)) == Normal(props, Flatten(parts), [])
  {
    if parts != [] {
      PartsComplete(props, channel, parts[1..]);
      assert BodyFrames(channel, parts)[1..] == BodyFrames(channel, parts[1..]);
    }
  }

  lemma HeadLengths(args: seq<byte>, props: seq<byte>, size: nat)
    ensures |Method(BASIC_PUBLISH_METHOD, args).Payload()| == |args| + 4
    ensures |Properties(BASIC_CLASS, size, props).Payload()| == |props| + 12
  {
  }

  /** No frame of a message exceeds frame_max. */
  lemma FramesFit(frameMax: nat, channel: nat, args: seq<byte>, props: seq<byte>, body: seq<byte>)
    requires frameMax > HEADER_SIZE + FOOTER_SIZE
    requires |args| + 4 <= Usable(frameMax) && |props| + 12 <= Usable(frameMax)
    ensures forall f | f in MessageFrames(frameMax, channel, args, props, body) :: |EncodeFrame(f)| <= frameMax
  {
    forall f | f in MessageFrames(frameMax, channel, args, props, body) ensures |EncodeFrame(f)| <= frameMax {
      EncodedParts(f);
    }
  }

  /** The receiver's decoders accept the codecs' output for this message. */
  predicate Understood(cfg: Config, channel: nat, args: seq<byte>, props: seq<byte>, body: seq<byte>) {
    && cfg.frameMax < 0x1_0000_0000 && channel < 0x1_0000 && |body| < 0x1_0000_0000_0000_0000
    && cfg.codec(FRAME_METHOD, Method(BASIC_PUBLISH_METHOD, args).Payload()) >= 0
    && cfg.codec(FRAME_HEADER, Properties(BASIC_CLASS, |body|, props).Payload()) >= 0
  }

  predicate Deliverable(cfg: Config, channel: nat, args: seq<byte>, props: seq<byte>, body: seq<byte>) {
    && Understood(cfg, channel, args, props, body)
    && cfg.frameMax >= HEADER_SIZE + 13 && |args| + 4 <= Usable(cfg.frameMax) && |props| + 12 <= Usable(cfg.frameMax)
  }

  /** A message whose frames fit has fitting arguments and properties. */
  lemma FittingFrames(cfg: Config, channel: nat, args: seq<byte>, props: seq<byte>, body: seq<byte>)
    requires Understood(cfg, channel, args, props, body) && cfg.frameMax >= HEADER_SIZE + 13
    requires forall f | f in MessageFrames(cfg.frameMax, channel, args, props, body) :: |EncodeFrame(f)| <= cfg.frameMax
    ensures Deliverable(cfg, channel, args, props, body)
  {
    var frames := MessageFrames(cfg.frameMax, channel, args, props, body);
    assert frames[0] in frames && frames[1] in frames;
    EncodedParts(frames[0]);
    EncodedParts(frames[1]);
    HeadLengths(args, props, |body|);
  }

  lemma MessageDecodes(cfg: Config, channel: nat, args: seq<byte>, props: seq<byte>, body: seq<byte>)
    requires Deliverable(cfg, channel, args, props, body)
    ensures var frames := MessageFrames(cfg.frameMax, channel, args, props, body);
            Decode(cfg, EncodeAll(frames)) == Decoded(frames, [], None)
  {
    DecodeEncoded(cfg, MessageFrames(cfg.frameMax, channel, args, props, body));
  }

  lemma HeaderFields(channel: nat, size: nat, props: seq<byte>)
    requires size < 0x1_0000_0000_0000_0000
    ensures var p := HeadFrame(channel, Properties(BASIC_CLASS, size, props)).payload;
            |p| >= 12 && FromBigEndian(p[4..12]) == size && p[12..] == props
  {
    PowersOf256();
    BigEndianRoundTrip(8, size);
    hide BigEndian;
    var p := HeadFrame(channel, Properties(BASIC_CLASS, size, props)).payload;
    assert p[4..12] == BigEndian(8, size);
  }

  /** Whatever pieces the network cuts a published message into, the consumer reads back exactly its body. */
  method MessageSurvives(c: Connection, pieces: seq<seq<byte>>,
                         ghost channel: nat, ghost args: seq<byte>, ghost props: seq<byte>, ghost body: seq<byte>)
    returns (r: ReadResult)
    requires c.Valid() && c.Pending() == []
    requires Deliverable(c.cfg, channel, args, props, body)
    requires Flatten(pieces) == EncodeAll(MessageFrames(c.cfg.frameMax, channel, args, props, body))
    modifies c, c.headerBuffer, c.inboundBuffer
    ensures r == Normal(props, body, [])
    ensures c.Valid() && c.Pending() == []
  {
    hide Decode;
    MessageDecodes(c.cfg, channel, args, props, body);
    assert c.Pending() + Flatten(pieces) == Flatten(pieces);
    var frames, error := Feed(c, pieces);
    var parts := Fragments(body, Usable(c.cfg.frameMax));
    HeaderFields(channel, |body|, props);
    PartsComplete(props, channel, parts);
    assert frames[1..][1..] == BodyFrames(channel, parts);
    r := ReadMessage(frames[1..]);
  }

  /** From one end to the other: what amqp_basic_publish sent, cut into pieces in any way, is consumed as the same body. */
  method PublishAndConsume(s: Sender, c: Connection, cut: seq<byte> -> seq<seq<byte>>,
                           channel: nat, args: seq<byte>, props: seq<byte>, body: seq<byte>)
    returns (status: Status, r: ReadResult)
    requires s.Valid() && c.Valid() && c.Pending() == [] && s.frameMax == c.cfg.frameMax
    requires s.outbound != c.headerBuffer && s.outbound != c.inboundBuffer
    requires Understood(c.cfg, channel, args, props, body)
    requires forall w: seq<byte> :: Flatten(cut(w)) == w
    modifies s, s.outbound, c, c.headerBuffer, c.inboundBuffer
    ensures status == Ok ==> r == Normal(props, body, []) && c.Valid() && c.Pending() == []
    ensures status == Ok <==>
              && Publishable(c.cfg.frameMax, args, props)
              && |EncodeAll(MessageFrames(c.cfg.frameMax, channel, args, props, body))| <= old(s.room)
  {
    hide EncodeFrame, EncodeAll, MessageFrames, Flatten, Understood;
    var start := s.wire;
    r := WaitFailed;
    status := s.BasicPublish(channel, args, props, body);
    if status == Ok {
      var sent := s.wire[|start|..];
      assert sent == EncodeAll(MessageFrames(c.cfg.frameMax, channel, args, props, body));
      FittingFrames(c.cfg, channel, args, props, body);
      r := MessageSurvives(c, cut(sent), channel, args, props, body);
    }
  }
}
