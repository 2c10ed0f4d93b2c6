/** The incremental frame decoder of amqp_connection.c, and the wire format it decodes
    (section 4.2.3 of the AMQP 0-9-1 specification: 7-byte header, payload, end octet). */
module AmqpDecoder {
  import opened Bytes

  const HEADER_SIZE := 7
  const FOOTER_SIZE := 1
  const FRAME_METHOD := 1
  const FRAME_HEADER := 2
  const FRAME_BODY := 3
  const FRAME_HEARTBEAT := 8
  const FRAME_END := 206

  /** A decoded frame; the payload is kept as the octets between header and end octet. */
  datatype Frame = Frame(frameType: byte, channel: nat, payload: seq<byte>)

  /** CodecError carries the negative status of the method or property decoder.  Overrun marks the places
      where the C code would read or write outside the frame buffer. */
  datatype Error = BadAmqpData | NoMemory | Overrun | CodecError(code: int)

  /** The negotiated frame limit, and the method and property decoders seen as a status per payload. */
  datatype Config = Config(frameMax: nat, codec: (byte, seq<byte>) -> int)

  predicate Known(frameType: byte) {
    frameType == FRAME_METHOD || frameType == FRAME_HEADER || frameType == FRAME_BODY || frameType == FRAME_HEARTBEAT
  }

  /** Fixed fields the decoder reads from the payload before it calls a codec. */
  function FixedFields(frameType: byte): nat {
    if frameType == FRAME_METHOD then 4 else if frameType == FRAME_HEADER then 12 else 0
  }

  /** The error the payload of a complete frame is refused with, if any. */
  function Refusal(cfg: Config, frameType: byte, payload: seq<byte>): Option<Error> {
    if |payload| < FixedFields(frameType) then Some(Overrun)
    else if FixedFields(frameType) > 0 && cfg.codec(frameType, payload) < 0
    then Some(CodecError(cfg.codec(frameType, payload)))
    else None
  }

  /** Length of the frame announced by a header, in the C code's 32-bit unsigned arithmetic. */
  function Target(s: seq<byte>): nat
    requires |s| >= HEADER_SIZE
  {
    (FromBigEndian(s[3..7]) + HEADER_SIZE + FOOTER_SIZE) % 0x1_0000_0000
  }

  datatype Scanned = Partial | Complete(frame: Option<Frame>, size: nat) | Bad(error: Error)

  /** What the octets received since the last frame boundary amount to. */
  function Scan(cfg: Config, s: seq<byte>): (r: Scanned)
    ensures r.Complete? ==> HEADER_SIZE < r.size <= |s|
  {
    if |s| < HEADER_SIZE then Partial
    else
      var target := Target(s);
      if cfg.frameMax < target then Bad(BadAmqpData)
      else if target == 0 then Bad(NoMemory)
      else if target < HEADER_SIZE then Bad(Overrun)
      else if |s| < target then Partial
      else if target == HEADER_SIZE || s[target - 1] != FRAME_END then Bad(BadAmqpData)
      else
        var payload := s[HEADER_SIZE..target - FOOTER_SIZE];
        match Refusal(cfg, s[0], payload)
        case Some(e) => Bad(e)
        case None =>
          Complete(if Known(s[0]) then Some(Frame(s[0], FromBigEndian(s[1..3]), payload)) else None, target)
  }

  datatype Decoded = Decoded(frames: seq<Frame>, rest: seq<byte>, error: Option<Error>)

  function Prepend(f: Option<Frame>, d: Decoded): Decoded {
    if f.Some? then d.(frames := [f.value] + d.frames) else d
  }

  /** The whole-stream meaning: the frames of s, and either the incomplete tail or the first error. */
  function Decode(cfg: Config, s: seq<byte>): Decoded
    decreases |s|
  {
    match Scan(cfg, s)
    case Partial => Decoded([], s, None)
    case Bad(e) => Decoded([], s, Some(e))
    case Complete(f, n) => Prepend(f, Decode(cfg, s[n..]))
  }

  /** A verdict once reached is not changed by more input. */
  lemma ScanExtends(cfg: Config, s: seq<byte>, more: seq<byte>)
    requires !Scan(cfg, s).Partial?
    ensures Scan(cfg, s + more) == Scan(cfg, s)
  {
    var t := s + more;
    assert t[3..7] == s[3..7] && t[1..3] == s[1..3];
    var target := Target(s);
    if HEADER_SIZE < target <= |s| {
      assert t[HEADER_SIZE..target - FOOTER_SIZE] == s[HEADER_SIZE..target - FOOTER_SIZE];
    }
  }

  /** Continuing after d with what the rest of the stream decodes to. */
  function Continue(d: Decoded, next: Decoded): Decoded {
    next.(frames := d.frames + next.frames)
  }

  lemma PrependContinue(f: Option<Frame>, d: Decoded, next: Decoded)
    ensures Prepend(f, Continue(d, next)) == Continue(Prepend(f, d), next)
  {
    if f.Some? {
      Associative([f.value], d.frames, next.frames);
    }
  }

  /** Decoding can be suspended at any octet and continued from the incomplete tail. */
  lemma {:induction false} DecodeResumes(cfg: Config, s: seq<byte>, more: seq<byte>)
    ensures var d := Decode(cfg, s);
            if d.error.Some? then
              Decode(cfg, s + more).frames == d.frames && Decode(cfg, s + more).error == d.error
            else
              Decode(cfg, s + more) == Continue(d, Decode(cfg, d.rest + more))
    decreases |s|
  {
    hide Scan;
    match Scan(cfg, s)
    case Partial =>
      assert [] + Decode(cfg, s + more).frames == Decode(cfg, s + more).frames;
    case Bad(e) =>
      ScanExtends(cfg, s, more);
    case Complete(f, n) =>
      ScanExtends(cfg, s, more);
      assert (s + more)[n..] == s[n..] + more;
      DecodeResumes(cfg, s[n..], more);
      var d := Decode(cfg, s[n..]);
      PrependContinue(f, d, Decode(cfg, d.rest + more));
  }

  /** The tail left by a decode that met no error is itself incomplete. */
  lemma {:induction false} RestIsPartial(cfg: Config, s: seq<byte>)
    requires Decode(cfg, s).error.None?
    ensures Scan(cfg, Decode(cfg, s).rest).Partial?
    decreases |s|
  {
    var r := Scan(cfg, s);
    if r.Complete? {
      RestIsPartial(cfg, s[r.size..]);
    }
  }

  datatype Phase = Idle | Header | Body

  datatype Result = Failed(error: Error) | Consumed(n: nat, frame: Option<Frame>)

  /** amqp_connection_state_t, from the IDLE state on. */
  class Connection {
    const cfg: Config
    var phase: Phase
    const headerBuffer: array<byte>
    var inboundBuffer: array<byte>
    var inboundOffset: nat
    var targetSize: nat

    ghost predicate Valid()
      reads this, headerBuffer, inboundBuffer
    {
      && headerBuffer.Length == HEADER_SIZE + 1
      && inboundOffset < targetSize <= inboundBuffer.Length
      && (phase != Body ==> inboundBuffer == headerBuffer && targetSize == HEADER_SIZE)
      && (phase == Idle <==> inboundOffset == 0)
      && (phase == Body ==>
            && inboundBuffer != headerBuffer
            && inboundOffset >= HEADER_SIZE
            && targetSize == Target(Pending())
            && HEADER_SIZE < targetSize <= cfg.frameMax)
    }

    /** The octets received since the last frame boundary. */
    ghost function Pending(): seq<byte>
      requires inboundOffset <= inboundBuffer.Length
      reads this, inboundBuffer
    {
      inboundBuffer[..inboundOffset]
    }

    constructor (cfg: Config)
      ensures Valid() && fresh(headerBuffer) && fresh(inboundBuffer) && this.cfg == cfg && Pending() == []
    {
      this.cfg := cfg;
      var header := new byte[HEADER_SIZE + 1];
      headerBuffer, inboundBuffer := header, header;
      phase, inboundOffset, targetSize := Idle, 0, HEADER_SIZE;
    }

    method ReturnToIdle()
      requires headerBuffer.Length == HEADER_SIZE + 1
      modifies this
      ensures Valid() && Pending() == []
    {
      inboundBuffer := headerBuffer;
      inboundOffset := 0;
      targetSize := HEADER_SIZE;
      phase := Idle;
    }

    method ConsumeData(data: seq<byte>) returns (n: nat)
      requires inboundOffset <= targetSize <= inboundBuffer.Length
      modifies this`inboundOffset, inboundBuffer
      ensures n == if |data| < targetSize - old(inboundOffset) then |data| else targetSize - old(inboundOffset)
      ensures inboundOffset == old(inboundOffset) + n
      ensures Pending() == old(Pending()) + data[..n]
    {
      n := targetSize - inboundOffset;
      if |data| < n {
        n := |data|;
      }
      forall k | 0 <= k < n {
        inboundBuffer[inboundOffset + k] := data[k];
      }
      inboundOffset := inboundOffset + n;
    }

    /** What one call must answer for the octets `all` seen since the frame boundary, n of them new. */
    ghost predicate Answers(res: Result, all: seq<byte>, before: nat)
      reads this, headerBuffer, inboundBuffer
    {
      match Scan(cfg, all)
      case Bad(e) => res == Failed(e)
      case Partial => res.Consumed? && before + res.n == |all| && res.frame == None && Valid() && Pending() == all
      case Complete(f, size) =>
        res.Consumed? && before + res.n == size && res.frame == f && Valid() && Pending() == []
    }

    /** amqp_handle_input: one call consumes up to the next frame boundary. */
    method HandleInput(data: seq<byte>) returns (res: Result)
      requires Valid()
      modifies this, headerBuffer, inboundBuffer
      ensures data == [] ==> res == Consumed(0, None) && Valid() && Pending() == old(Pending())
      ensures data != [] ==> Answers(res, old(Pending()) + data, |old(Pending())|)
      ensures data != [] && res.Consumed? ==> 0 < res.n <= |data|
      ensures inboundBuffer == old(inboundBuffer) || inboundBuffer == headerBuffer || fresh(inboundBuffer)
    {
      if |data| == 0 {
        return Consumed(0, None);
      }
      ghost var before, all := inboundOffset, Pending() + data;
      ghost var pending := Pending();
      if phase == Idle {
        phase := Header;
      }
      var n := ConsumeData(data);
      assert Pending() == all[..inboundOffset];
      if phase == Body {
        assert pending[3..7] == all[3..7];
        assert Target(all) == targetSize;
      }
      if inboundOffset < targetSize {
        assert Pending() == all;
        return Consumed(n, None);
      }
      if phase == Header {
        res := BeginBody(all, before, data, n);
      } else {
        res := FinishFrame(all, before, n);
      }
    }

    /** The header case: the length is known, so the frame buffer is allocated and filled further. */
    method BeginBody(ghost all: seq<byte>, ghost before: nat, data: seq<byte>, consumed: nat) returns (res: Result)
      requires headerBuffer.Length == HEADER_SIZE + 1 && inboundBuffer == headerBuffer && phase == Header
      requires inboundOffset == HEADER_SIZE <= |all| && Pending() == all[..HEADER_SIZE]
      requires consumed <= |data| && data[consumed..] == all[HEADER_SIZE..] && before + consumed == HEADER_SIZE
      modifies this
      ensures Answers(res, all, before)
      ensures inboundBuffer == old(inboundBuffer) || inboundBuffer == headerBuffer || fresh(inboundBuffer)
    {
      var n := consumed;
      var length := headerBuffer[3..7];
      assert length == all[3..7] by { assert length == Pending()[3..7]; }
      targetSize := (FromBigEndian(length) + HEADER_SIZE + FOOTER_SIZE) % 0x1_0000_0000;
      assert targetSize == Target(all);
      if cfg.frameMax < targetSize {
        return Failed(BadAmqpData);
      }
      if targetSize == 0 {
        return Failed(NoMemory);    // a zero-sized pool request gives no buffer
      }
      if targetSize < HEADER_SIZE {
        return Failed(Overrun);
      }
      var buffer := new byte[targetSize];
      forall k | 0 <= k < HEADER_SIZE {
        buffer[k] := headerBuffer[k];
      }
      assert forall k | 0 <= k < HEADER_SIZE :: buffer[k] == Pending()[k];
      inboundBuffer := buffer;
      phase := Body;
      assert Pending() == all[..HEADER_SIZE];
      var n' := ConsumeData(data[n..]);
      n := n + n';
      assert Pending() == all[..inboundOffset];
      if inboundOffset < targetSize {
        assert Pending() == all;
        return Consumed(n, None);
      }
      res := FinishFrame(all, before, n);
    }

    /** The body case of amqp_handle_input: the buffer holds targetSize octets. */
    method FinishFrame(ghost all: seq<byte>, ghost before: nat, n: nat) returns (res: Result)
      requires headerBuffer.Length == HEADER_SIZE + 1
      requires HEADER_SIZE <= targetSize == inboundOffset <= inboundBuffer.Length && targetSize <= cfg.frameMax
      requires targetSize <= |all| && Pending() == all[..targetSize] && Target(all) == targetSize
      requires before + n == targetSize
      modifies this
      ensures Answers(res, all, before)
      ensures inboundBuffer == old(inboundBuffer) || inboundBuffer == headerBuffer
    {
      var raw := inboundBuffer;
      assert raw[..targetSize] == all[..targetSize];
      assert raw[targetSize - 1] == all[..targetSize][targetSize - 1];
      if raw[targetSize - 1] != FRAME_END {
        return Failed(BadAmqpData);
      }
      if targetSize == HEADER_SIZE {
        LengthOctetsOfEmptyTarget(all);
        assert false;
      }
      var payload := raw[HEADER_SIZE..targetSize - FOOTER_SIZE];
      assert payload == all[HEADER_SIZE..targetSize - FOOTER_SIZE];
      var frameType := raw[0];
      assert frameType == all[..targetSize][0];
      assert raw[1..3] == all[1..3];
      var frame := Frame(frameType, FromBigEndian(raw[1..3]), payload);
      if frameType == FRAME_METHOD || frameType == FRAME_HEADER {
        if |payload| < FixedFields(frameType) {
          return Failed(Overrun);
        }
        var code := cfg.codec(frameType, payload);
        if code < 0 {
          return Failed(CodecError(code));
        }
      }
      var known := Known(frameType);
      ReturnToIdle();
      return Consumed(n, if known then Some(frame) else None);
    }
  }

  /** A length field that wraps to a seven-octet frame ends in 255, which is not the end octet. */
  lemma LengthOctetsOfEmptyTarget(s: seq<byte>)
    requires |s| >= HEADER_SIZE && Target(s) == HEADER_SIZE
    ensures s[6] == 255
  {
    var f := s[3..7];
    assert f[..3][..2] == f[..2] && f[..2][..1] == f[..1] && f[..1][..0] == [];
    assert FromBigEndian(f[..1]) == f[0];
    assert FromBigEndian(f[..2]) == (f[0] as int) * 256 + f[1];
    assert FromBigEndian(f[..3]) == ((f[0] as int) * 256 + f[1]) * 256 + f[2];
  }

  /** A frame completed by new input extends beyond the octets that were already pending. */
  lemma CompletesBeyondPending(cfg: Config, pending: seq<byte>, data: seq<byte>)
    requires Scan(cfg, pending).Partial? && Scan(cfg, pending + data).Complete?
    ensures Scan(cfg, pending + data).size > |pending|
  {
    if |pending| >= HEADER_SIZE {
      assert (pending + data)[3..7] == pending[3..7];
    }
  }

  lemma DecodeUnfolds(cfg: Config, pending: seq<byte>, data: seq<byte>)
    requires Scan(cfg, pending).Partial? && Scan(cfg, pending + data).Complete?
    ensures var r := Scan(cfg, pending + data);
            |pending| < r.size <= |pending| + |data|
            && Decode(cfg, pending + data) == Prepend(r.frame, Decode(cfg, data[r.size - |pending|..]))
  {
    hide Scan, Decode;
    var all := pending + data;
    var r := Scan(cfg, all);
    CompletesBeyondPending(cfg, pending, data);
    assert all[r.size..] == data[r.size - |pending|..];
    DecodeFirst(cfg, all);
  }

  lemma DecodeFirst(cfg: Config, s: seq<byte>)
    requires Scan(cfg, s).Complete?
    ensures var r := Scan(cfg, s); 0 < r.size <= |s| && Decode(cfg, s) == Prepend(r.frame, Decode(cfg, s[r.size..]))
  {
    hide Scan;
  }

  lemma ValidIsPartial(c: Connection)
    requires c.Valid()
    ensures Scan(c.cfg, c.Pending()).Partial?
  {
  }

  lemma ContinueNothing(d: Decoded)
    ensures Continue(Decoded([], [], None), d) == d
  {
    assert [] + d.frames == d.frames;
  }

  lemma NothingToContinue(cfg: Config, frames: seq<Frame>, s: seq<byte>)
    requires Scan(cfg, s).Partial?
    ensures Continue(Decoded(frames, [], None), Decode(cfg, s)) == Decoded(frames, s, None)
  {
    assert frames + [] == frames;
  }

  lemma NothingButError(cfg: Config, frames: seq<Frame>, s: seq<byte>)
    requires Scan(cfg, s).Bad?
    ensures Continue(Decoded(frames, [], None), Decode(cfg, s)) == Decoded(frames, s, Some(Scan(cfg, s).error))
  {
    assert frames + [] == frames;
  }

  lemma ContinueAfter(frames: seq<Frame>, f: Option<Frame>, d: Decoded)
    ensures Continue(Decoded(frames, [], None), Prepend(f, d))
            == Continue(Decoded(if f.Some? then frames + [f.value] else frames, [], None), d)
  {
    if f.Some? {
      Associative(frames, [f.value], d.frames);
    }
  }

  /** consume_one_frame's loop over one received piece: unconsumed octets are offered again. */
  method FeedPiece(c: Connection, piece: seq<byte>) returns (frames: seq<Frame>, error: Option<Error>)
    requires c.Valid()
    modifies c, c.headerBuffer, c.inboundBuffer
    ensures var d := Decode(c.cfg, old(c.Pending()) + piece);
            frames == d.frames && error == d.error && (error == None ==> c.Valid() && c.Pending() == d.rest)
    ensures c.inboundBuffer == old(c.inboundBuffer) || c.inboundBuffer == c.headerBuffer || fresh(c.inboundBuffer)
  {
    hide Scan, Continue, Decode, Prepend, Target;
    frames, error := [], None;
    var left := piece;
    ghost var goal := Decode(c.cfg, c.Pending() + piece);
    ContinueNothing(goal);
    while left != []
      invariant c.Valid()
      invariant c.inboundBuffer == old(c.inboundBuffer) || c.inboundBuffer == c.headerBuffer || fresh(c.inboundBuffer)
      invariant goal == Continue(Decoded(frames, [], None), Decode(c.cfg, c.Pending() + left))
      decreases |left|
    {
      ValidIsPartial(c);
      ghost var pending, all := c.Pending(), c.Pending() + left;
      if Scan(c.cfg, all).Complete? {
        DecodeUnfolds(c.cfg, pending, left);
      }
      var res := c.HandleInput(left);
      match res {
        case Failed(e) =>
          NothingButError(c.cfg, frames, all);
          error := Some(e);
          return;
        case Consumed(n, f) =>
          left := left[n..];
          if Scan(c.cfg, all).Complete? {
            ContinueAfter(frames, f, Decode(c.cfg, left));
            assert c.Pending() + left == left;
          } else {
            assert c.Pending() + left == all;
          }
          if f.Some? {
            frames := frames + [f.value];
          }
      }
    }
    ValidIsPartial(c);
    assert c.Pending() + left == c.Pending();
    NothingToContinue(c.cfg, frames, c.Pending());
  }

  /** A stream in any division into pieces yields the frames of its concatenation. */
  method Feed(c: Connection, pieces: seq<seq<byte>>) returns (frames: seq<Frame>, error: Option<Error>)
    requires c.Valid()
    modifies c, c.headerBuffer, c.inboundBuffer
    ensures var d := Decode(c.cfg, old(c.Pending()) + Flatten(pieces));
            frames == d.frames && error == d.error && (error == None ==> c.Valid() && c.Pending() == d.rest)
  {
    hide Scan;
    frames, error := [], None;
    ghost var start := c.Pending();
    ValidIsPartial(c);
    assert start + Flatten(pieces[..0]) == start;
    for i := 0 to |pieces|
      invariant c.Valid()
      invariant c.inboundBuffer == old(c.inboundBuffer) || c.inboundBuffer == c.headerBuffer || fresh(c.inboundBuffer)
      invariant Decode(c.cfg, start + Flatten(pieces[..i])) == Decoded(frames, c.Pending(), None)
    {
      ghost var sofar := start + Flatten(pieces[..i]);
      DecodeResumes(c.cfg, sofar, pieces[i]);
      TakeNext(start, pieces, i);
      var more, e := FeedPiece(c, pieces[i]);
      frames := frames + more;
      if e.Some? {
        DecodeResumes(c.cfg, sofar + pieces[i], Flatten(pieces[i + 1..]));
        return frames, e;
      }
    }
    assert pieces[..|pieces|] == pieces;
  }

  lemma TakeNext(start: seq<byte>, pieces: seq<seq<byte>>, i: nat)
    requires i < |pieces|
    ensures start + Flatten(pieces[..i + 1]) == start + Flatten(pieces[..i]) + pieces[i]
    ensures start + Flatten(pieces) == start + Flatten(pieces[..i + 1]) + Flatten(pieces[i + 1..])
  {
    FlattenSplit(pieces, i);
    Associative(start, Flatten(pieces[..i]), pieces[i]);
    Associative(start, Flatten(pieces[..i + 1]), Flatten(pieces[i + 1..]));
  }
}
