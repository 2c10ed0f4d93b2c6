/** The two ends of a connection: exactly when what a client writes arrives at its server, for every revision, mask, key and
    mask index. */
module WsAgreement {
  import opened Bytes
  import opened WsMask
  import opened WsReceive
  import opened WsSend
  import opened WsRoundTrip
  import opened WsOverhead
  import opened WsOldFrames
  import opened WsNewFrames

  /** The client w and the server r of one connection, as their handshakes set them up; a client's context can defeat its
      mask, and the keys may differ. */
  predicate Connected(w: Conn, r: Conn) {
    && ValidConn(w) && ValidConn(r) && !w.server && r.server && w.revision == r.revision
    && r.kind == (if r.revision == 4 then Mask04 else Mask05) && (w.kind == r.kind || w.kind == NoMask)
  }

  predicate Masks(w: Conn, ignoreMask: bool) {
    w.kind != NoMask && !ignoreMask
  }

  /** The nonce in front of the frame. */
  function SentNonce(w: Conn, ignoreMask: bool, nonce: seq<byte>): seq<byte> {
    if Masks(w, ignoreMask) then nonce else ZERO_NONCE
  }

  /** What the writer of revision 4 to 6 combines octet j behind the nonce with; its loop counts in an int. */
  function PutOn(w: Conn, ignoreMask: bool, nonce: seq<byte>, len: nat, j: nat): byte
    requires ValidConn(w) && |nonce| == 4
  {
    if Masks(w, ignoreMask) && j < HeadSize(len) + ToInt(len) then MaskOctet(Keys(w.kind, nonce, w.key04), j) else 0
  }

  /** What the server combines it with. */
  function TakenOff(r: Conn, index: nat, nonce: seq<byte>, j: nat): byte
    requires ValidConn(r) && |nonce| == 4
  {
    MaskOctet(Keys(r.kind, nonce, r.key04), StartIndex(r, index) + j)
  }

  /** The masks of both ends agree on every octet of the frame; on the first, only its low four bits matter. */
  predicate MasksAgree(w: Conn, r: Conn, index: nat, ignoreMask: bool, nonce: seq<byte>, len: nat)
    requires ValidConn(w) && ValidConn(r) && |nonce| == 4
  {
    var n := SentNonce(w, ignoreMask, nonce);
    && PutOn(w, ignoreMask, nonce, len, 0) % 16 == TakenOff(r, index, n, 0) % 16
    && forall j | 1 <= j < HeadSize(len) + len :: PutOn(w, ignoreMask, nonce, len, j) == TakenOff(r, index, n, j)
  }

  /** The octets behind the nonce of a frame of revision 4 to 6. */
  function Behind(w: Conn, p: Protocol, fin: bool, ignoreMask: bool, nonce: seq<byte>, payload: seq<byte>): (x: seq<byte>)
    requires ValidConn(w) && |nonce| == 4
    ensures |x| == HeadSize(|payload|) + |payload|
  {
    HeaderLength(w.revision, p, fin, |payload|);
    var plain := Header(w.revision, p, fin, 0, |payload|) + payload;
    if Masks(w, ignoreMask) then
      MaskedFirst(Keys(w.kind, nonce, w.key04), plain, HeadSize(|payload|) + ToInt(|payload|))
    else plain
  }

  lemma FrameIs(w: Conn, p: Protocol, fin: bool, ignoreMask: bool, nonce: seq<byte>, payload: seq<byte>)
    requires ValidConn(w) && !w.server && w.revision < 7 && |nonce| == 4
    ensures FrameBytes(w, p, fin, ignoreMask, nonce, payload)
            == SentNonce(w, ignoreMask, nonce) + Behind(w, p, fin, ignoreMask, nonce, payload)
  {
    hide Header, MaskedFirst;
    HeaderLength(w.revision, p, fin, |payload|);
  }

  lemma MaskedFirstAt(k: Keys, s: seq<byte>, n: int, j: nat)
    requires ValidKeys(k) && j < |s|
    ensures MaskedFirst(k, s, n)[j] == Xor(s[j], if j < n then MaskOctet(k, j) else 0)
  {
    hide Masked, Xor;
    var m := if n < 0 then 0 else if n > |s| then |s| else n;
    if j < m {
      MaskedAt(k, 0, s[..m], j);
    } else {
      XorLaws(s[j], 0);
    }
  }

  /** Octet j behind the nonce. */
  lemma BehindAt(w: Conn, p: Protocol, fin: bool, ignoreMask: bool, nonce: seq<byte>, payload: seq<byte>, j: nat)
    requires ValidConn(w) && |nonce| == 4 && j < HeadSize(|payload|) + |payload|
    ensures var plain := Header(w.revision, p, fin, 0, |payload|) + payload;
            && |plain| == HeadSize(|payload|) + |payload|
            && Behind(w, p, fin, ignoreMask, nonce, payload)[j] == Xor(plain[j], PutOn(w, ignoreMask, nonce, |payload|, j))
  {
    HeaderLength(w.revision, p, fin, |payload|);
    var plain := Header(w.revision, p, fin, 0, |payload|) + payload;
    hide Header, MaskedFirst, Xor, MaskOctet;
    if Masks(w, ignoreMask) {
      MaskedFirstAt(Keys(w.kind, nonce, w.key04), plain, HeadSize(|payload|) + ToInt(|payload|), j);
    } else {
      XorLaws(plain[j], 0);
    }
  }

  /** Octet j of the frame as the server reads it. */
  lemma ReadAt(w: Conn, r: Conn, s: Rx, p: Protocol, fin: bool, ignoreMask: bool, nonce: seq<byte>, payload: seq<byte>, j: nat)
    requires Connected(w, r) && Waits(r, s) && |nonce| == 4 && j < HeadSize(|payload|) + |payload|
    ensures var n := SentNonce(w, ignoreMask, nonce);
            var plain := Header(r.revision, p, fin, 0, |payload|) + payload;
            && |plain| == HeadSize(|payload|) + |payload|
            && Unmasked(r, FrameStart(r, s, n), Behind(w, p, fin, ignoreMask, nonce, payload))[j]
               == Xor(Xor(plain[j], PutOn(w, ignoreMask, nonce, |payload|, j)), TakenOff(r, s.index, n, j))
  {
    assert ValidConn(w) && w.revision == r.revision;
    hide *;
    BehindAt(w, p, fin, ignoreMask, nonce, payload, j);
    TakenAt(r, s, SentNonce(w, ignoreMask, nonce), Behind(w, p, fin, ignoreMask, nonce, payload), j);
  }

  lemma TakenAt(r: Conn, s: Rx, n: seq<byte>, x: seq<byte>, j: nat)
    requires Waits(r, s) && |n| == 4 && j < |x|
    ensures ValidConn(r) && Unmasked(r, FrameStart(r, s, n), x)[j] == Xor(x[j], TakenOff(r, s.index, n, j))
  {
    var at := FrameStart(r, s, n);
    assert HeaderKeys(r, at) == Keys(r.kind, n, r.key04);
    hide Masked, Xor, MaskOctet;
    MaskedAt(HeaderKeys(r, at), at.index, x, j);
  }

  /** Whether the server reads what was meant depends on the masks alone. */
  lemma AlikeExactlyWhen(w: Conn, r: Conn, s: Rx, p: Protocol, fin: bool, ignoreMask: bool, nonce: seq<byte>, payload: seq<byte>)
    requires Connected(w, r) && Waits(r, s) && |nonce| == 4
    ensures Alike(Unmasked(r, FrameStart(r, s, SentNonce(w, ignoreMask, nonce)), Behind(w, p, fin, ignoreMask, nonce, payload)),
                  Header(r.revision, p, fin, 0, |payload|) + payload)
            <==> MasksAgree(w, r, s.index, ignoreMask, nonce, |payload|)
  {
    var n, len := SentNonce(w, ignoreMask, nonce), |payload|;
    var plain := Header(r.revision, p, fin, 0, len) + payload;
    var u := Unmasked(r, FrameStart(r, s, n), Behind(w, p, fin, ignoreMask, nonce, payload));
    HeaderLength(r.revision, p, fin, len);
    hide Header, PutOn, TakenOff, Behind, Xor, Unmasked;
    forall j | 0 <= j < |plain|
      ensures u[j] == plain[j] <==> PutOn(w, ignoreMask, nonce, len, j) == TakenOff(r, s.index, n, j)
      ensures u[j] % 16 == plain[j] % 16 <==> PutOn(w, ignoreMask, nonce, len, j) % 16 == TakenOff(r, s.index, n, j) % 16
    {
      ReadAt(w, r, s, p, fin, ignoreMask, nonce, payload, j);
      XorTwice(plain[j], PutOn(w, ignoreMask, nonce, len, j), TakenOff(r, s.index, n, j));
      XorTwiceLow(plain[j], PutOn(w, ignoreMask, nonce, len, j), TakenOff(r, s.index, n, j));
    }
    SameTail(u, plain);
  }

  lemma SameTail(u: seq<byte>, plain: seq<byte>)
    requires |u| == |plain| > 0
    ensures u[1..] == plain[1..] <==> forall j | 1 <= j < |plain| :: u[j] == plain[j]
  {
    if u[1..] == plain[1..] {
      forall j | 1 <= j < |plain| ensures u[j] == plain[j] {
        assert u[1..][j - 1] == u[j] && plain[1..][j - 1] == plain[j];
      }
    }
  }

  // ----- every revision -----

  /** When a frame arrives: the masks agree; from revision 7 on, the payload is unmasked or completely masked. */
  predicate Arrives(w: Conn, r: Conn, index: nat, ignoreMask: bool, nonce: seq<byte>, len: nat)
    requires ValidConn(w) && ValidConn(r) && |nonce| == 4
  {
    if r.revision < 7 then MasksAgree(w, r, index, ignoreMask, nonce, len)
    else w.kind == NoMask || ignoreMask || nonce == ZERO_NONCE || len < 0x8000_0000
  }

  /** Client to server: a frame of any kind that arrives is handled as sent, and text and binary frames are handled as sent
      only if they arrive. */
  lemma ServerReceives(w: Conn, r: Conn, s: Rx, p: Protocol, fin: bool, ignoreMask: bool, nonce: seq<byte>, payload: seq<byte>)
    requires Connected(w, r) && ValidRx(r, s) && Idle(s) && |nonce| == 4 && Sendable(p, |payload|)
    ensures var o := Run(r, s, FrameBytes(w, p, fin, ignoreMask, nonce, payload));
            && (Arrives(w, r, s.index, ignoreMask, nonce, |payload|) ==> Handled(r, o, s, p, payload))
            && (p == Text || p == Binary ==> Handled(r, o, s, p, payload) ==> Arrives(w, r, s.index, ignoreMask, nonce, |payload|))
    ensures var o := Run(r, s, FrameBytes(w, p, fin, ignoreMask, nonce, payload));
            r.revision < 7 && Arrives(w, r, s.index, ignoreMask, nonce, |payload|) ==>
              o.rx.index == IndexBehind(r, s.index, SentNonce(w, ignoreMask, nonce), |payload|)
  {
    if r.revision >= 7 {
      hide Run, FrameBytes, Handled, Effect, UserData;
      NewFrameExactly(w, r, s, p, fin, ignoreMask, nonce, payload);
    } else {
      OldFrame(w, r, s, p, fin, ignoreMask, nonce, payload);
    }
  }

  lemma OldFrame(w: Conn, r: Conn, s: Rx, p: Protocol, fin: bool, ignoreMask: bool, nonce: seq<byte>, payload: seq<byte>)
    requires Connected(w, r) && r.revision < 7 && ValidRx(r, s) && Idle(s) && |nonce| == 4 && Sendable(p, |payload|)
    ensures var o := Run(r, s, FrameBytes(w, p, fin, ignoreMask, nonce, payload));
            var agree := MasksAgree(w, r, s.index, ignoreMask, nonce, |payload|);
            && (agree ==> Handled(r, o, s, p, payload)
                          && o.rx.index == IndexBehind(r, s.index, SentNonce(w, ignoreMask, nonce), |payload|))
            && (p == Text || p == Binary ==> Handled(r, o, s, p, payload) ==> agree)
  {
    hide Run, Header, Handled, Effect, Alike, Unmasked, MasksAgree, Behind, FrameBytes, IndexBehind;
    var n, x := SentNonce(w, ignoreMask, nonce), Behind(w, p, fin, ignoreMask, nonce, payload);
    FrameIs(w, p, fin, ignoreMask, nonce, payload);
    AlikeExactlyWhen(w, r, s, p, fin, ignoreMask, nonce, payload);
    if MasksAgree(w, r, s.index, ignoreMask, nonce, |payload|) {
      AlikeHandled(r, s, n, x, p, fin, payload);
    }
    if p == Text || p == Binary {
      HandledExactly(r, s, n, x, p, fin, payload);
    }
  }
}
