/** Frames of revision 7 and later at a server: the header is in clear, so only the mask on the payload can be wrong.  The
    writer's masking loop counts in an int (libwebsocket_write of parsers.c). */
module WsNewFrames {
  import opened Bytes
  import opened WsMask
  import opened WsReceive
  import opened WsSend
  import opened WsRoundTrip

  /** What taking the mask off the whole makes of octets of which only the first n were masked. */
  function Remasked(k: Keys, s: seq<byte>, n: nat): (r: seq<byte>)
    requires ValidKeys(k) && n <= |s|
    ensures |r| == |s|
  {
    s[..n] + Masked(k, EndIndex(k.kind, 0, n), s[n..])
  }

  lemma MaskedInPart(k: Keys, s: seq<byte>, n: nat)
    requires ValidKeys(k) && n <= |s|
    ensures Masked(k, 0, MaskedFirst(k, s, n)) == Remasked(k, s, n)
    ensures MaskedFirst(k, s, n) == Masked(k, 0, Remasked(k, s, n))
  {
    hide Masked;
    MaskedAppend(k, 0, Masked(k, 0, s[..n]), s[n..]);
    MaskedInvolution(k, 0, s[..n]);
    MaskedInvolution(k, 0, MaskedFirst(k, s, n));
  }

  /** What is left unmasked is long enough to show the mask, if it masks anything. */
  lemma RemaskedIsSame(k: Keys, s: seq<byte>, n: nat)
    requires ValidKeys(k) && n <= |s| && (n == |s| || |s| - n >= 20)
    ensures Remasked(k, s, n) == s <==> n == |s| || MasksNothing(k)
  {
    hide Masked, MasksNothing;
    var end, tail := EndIndex(k.kind, 0, n), s[n..];
    assert s == s[..n] + tail && Remasked(k, s, n)[n..] == Masked(k, end, tail);
    if n == |s| {
      assert tail == [] && Masked(k, end, tail) == [];
    } else if MasksNothing(k) {
      ZeroMaskKeeps(k, end, tail);
    } else {
      OtherMaskChanges(k, end, tail);
    }
  }

  /** A frame that was handled with one payload was handled with no other. */
  lemma HandledOnce(c: Conn, o: Out, s: Rx, p: Protocol, got: seq<byte>, payload: seq<byte>)
    requires got != [] && payload != [] && (p == Text || p == Binary) && Handled(c, o, s, p, got)
    ensures Handled(c, o, s, p, payload) <==> got == payload
    ensures o.Next? && UserData(o.events) == got
  {
    UserDataOf(Opcode(p), Chunks(got));
    UserDataOf(Opcode(p), Chunks(payload));
  }

  /** How many octets the writer's loop masks, from revision 7 on. */
  function Reached(len: nat): (m: nat)
    ensures m <= len && (len < 0x8000_0000 ==> m == len) && (len >= 0x8000_0000 ==> len - m >= 20)
  {
    if ToInt(len) < 0 then 0 else ToInt(len)
  }

  lemma WriterReach(k: Keys, k': Keys, payload: seq<byte>)
    requires ValidKeys(k) && ValidKeys(k') && k.kind == k'.kind == Mask05 && k.nonce == k'.nonce
    ensures MaskedFirst(k', payload, ToInt(|payload|)) == MaskedFirst(k, payload, Reached(|payload|))
  {
    HandshakeKeyUnused(k, k', 0, payload[..Reached(|payload|)]);
  }

  /** The client of a connection of revision 7 or later; one that masks may leave single frames unmasked, with a zero key. */
  predicate Pair(w: Conn, r: Conn) {
    && ValidConn(w) && ValidConn(r) && !w.server && r.server && w.revision == r.revision >= 7
    && r.kind == Mask05 && (w.kind == Mask05 || w.kind == NoMask)
  }

  /** The frame is taken apart in any case; its data is what the mask leaves of the payload. */
  lemma Arriving(w: Conn, r: Conn, s: Rx, p: Protocol, fin: bool, ignoreMask: bool, nonce: seq<byte>, payload: seq<byte>)
    returns (got: seq<byte>)
    requires Pair(w, r) && |nonce| == 4 && ValidRx(r, s) && s.parse == New && s.buffer == [] && Sendable(p, |payload|)
    ensures |got| == |payload| && Handled(r, Run(r, s, FrameBytes(w, p, fin, ignoreMask, nonce, payload)), s, p, got)
    ensures got == payload <==> w.kind == NoMask || ignoreMask || nonce == ZERO_NONCE || |payload| < 0x8000_0000
  {
    assert |r.key04| == 20 && |w.key04| == 20;
    hide Step, Run, ValidRx, Header, Handled, Masked, MaskedFirst, Remasked, EndIndex, Opcode, Sendable;
    if w.kind == NoMask {
      got := payload;
      ReceivesClear(r, s, p, fin, payload);
    } else if ignoreMask {
      var k := Keys(Mask05, ZERO_NONCE, r.key04);
      got := payload;
      ZeroMaskKeeps(k, 0, payload);
      ServerReceives07(r, s, p, fin, ZERO_NONCE, payload, k);
    } else {
      var k, m := Keys(Mask05, nonce, r.key04), Reached(|payload|);
      WriterReach(k, Keys(w.kind, nonce, w.key04), payload);
      MaskedInPart(k, payload, m);
      RemaskedIsSame(k, payload, m);
      got := Remasked(k, payload, m);
      ServerReceives07(r, s, p, fin, nonce, MaskedFirst(k, payload, m), k);
    }
  }

  /** A text or binary message is delivered as sent if and only if it goes out unmasked, under a zero key, or is shorter
      than 2^31 octets. */
  lemma NewFrameExactly(w: Conn, r: Conn, s: Rx, p: Protocol, fin: bool, ignoreMask: bool, nonce: seq<byte>, payload: seq<byte>)
    requires Pair(w, r) && |nonce| == 4 && ValidRx(r, s) && s.parse == New && s.buffer == [] && Sendable(p, |payload|)
    ensures var o := Run(r, s, FrameBytes(w, p, fin, ignoreMask, nonce, payload));
            var whole := w.kind == NoMask || ignoreMask || nonce == ZERO_NONCE || |payload| < 0x8000_0000;
            && o.Next? && o.rx.parse == New && o.rx.buffer == [] && (whole ==> Handled(r, o, s, p, payload))
            && (p == Text || p == Binary ==>
                  (Handled(r, o, s, p, payload) <==> whole) && (UserData(o.events) == payload <==> whole))
  {
    var got := Arriving(w, r, s, p, fin, ignoreMask, nonce, payload);
    hide Run, FrameBytes, ValidRx, Effect;
    if p == Text || p == Binary {
      HandledOnce(r, Run(r, s, FrameBytes(w, p, fin, ignoreMask, nonce, payload)), s, p, got, payload);
    }
  }
}
