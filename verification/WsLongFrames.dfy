/** Where the round trip of a websocket frame ends, and exactly where: frames of 2^31 octets and more, on which the writer
    leaves the mask incomplete; servers that defeat the mask of their client, and so take it off from the wrong index; and
    clients of revision 4 that do not mask, whose server takes a mask off all the same. */
module WsLongFrames {
  import opened Bytes
  import opened WsMask
  import opened WsReceive
  import opened WsSend
  import opened WsRoundTrip
  import opened WsOverhead
  import opened WsOldFrames
  import opened WsNewFrames
  import opened WsAgreement
  import opened WsExchange

  /** How many octets it takes until the mask repeats. */
  function Period(k: Kind): (m: nat)
    ensures m > 0
  {
    if k == Mask04 then 20 else 4
  }

  lemma Repeats(k: Keys, a: nat, j: nat)
    requires ValidKeys(k)
    ensures MaskOctet(k, a + j) == MaskOctet(k, a + j % Period(k.kind))
  {
    SameRemainder(a, j, Period(k.kind));
  }

  lemma SameRemainder(a: nat, j: nat, m: nat)
    requires m > 0
    ensures (a + j) % m == (a + j % m) % m
  {
    var q, r := (a + j % m) / m, (a + j % m) % m;
    assert a + j % m == q * m + r && j == j / m * m + j % m;
    assert a + j == (q + j / m) * m + r;
    QuotientUnique(a + j, m, q + j / m, r);
  }

  /** A mask that takes nothing off a stretch as long as its period is zero. */
  lemma ZeroStretch(k: Keys, from: nat)
    requires ValidKeys(k) && k.kind != NoMask && forall j | from <= j < from + Period(k.kind) :: MaskOctet(k, j) == 0
    ensures MasksNothing(k)
  {
    forall i | 0 <= i < Period(k.kind) ensures MaskOctet(k, i) == 0 {
      var j := IndexReaching(from, i, Period(k.kind));
      assert MaskOctet(k, from + j) == MaskOctet(k, i);
    }
    if k.kind == Mask04 {
      forall i | 0 <= i < 20 ensures k.key04[i] == 0 {
        assert MaskOctet(k, i) == k.key04[i];
      }
    } else {
      assert MaskOctet(k, 0) == k.nonce[0] && MaskOctet(k, 1) == k.nonce[1];
      assert MaskOctet(k, 2) == k.nonce[2] && MaskOctet(k, 3) == k.nonce[3];
      ZeroOctets(k.nonce);
    }
  }

  lemma ZeroMaskOctets(k: Keys, i: nat)
    requires ValidKeys(k) && MasksNothing(k)
    ensures MaskOctet(k, i) == 0
  {
    assert ZERO_NONCE[i % 4] == 0;
  }

  /** A client that masks and a server with the same key. */
  predicate SameKeys(w: Conn, r: Conn) {
    Connected(w, r) && w.kind == r.kind && (r.revision == 4 ==> w.key04 == r.key04)
  }

  // ----- frames of 2^31 octets and more -----

  /** Octets of a long frame that the masking loop does not reach. */
  lemma Unreached(w: Conn, r: Conn, index: nat, nonce: seq<byte>, len: nat, from: nat)
    requires SameKeys(w, r) && r.revision < 7 && |nonce| == 4 && 0x8000_0000 <= len && 1 <= from <= 10
    requires forall j | from <= j < HeadSize(len) + len :: PutOn(w, false, nonce, len, j) == TakenOff(r, index, nonce, j)
    ensures MasksNothing(Keys(r.kind, nonce, r.key04))
  {
    var k, n := Keys(r.kind, nonce, r.key04), HeadSize(len) + ToInt(len);
    var start := if n < from then from else n;
    var at := StartIndex(r, index) + start;
    forall i | at <= i < at + Period(k.kind) ensures MaskOctet(k, i) == 0 {
      var j := i - StartIndex(r, index);
      assert PutOn(w, false, nonce, len, j) == 0 && TakenOff(r, index, nonce, j) == MaskOctet(k, i);
    }
    ZeroStretch(k, at);
  }

  /** Between two frames, with this data delivered. */
  predicate Arrived(o: Out, payload: seq<byte>) {
    o.Next? && Idle(o.rx) && UserData(o.events) == payload
  }

  /** On a long frame only a zero mask agrees with the mask that was put on, from whatever index the server starts. */
  lemma LongMasks(w: Conn, r: Conn, index: nat, nonce: seq<byte>, len: nat)
    requires SameKeys(w, r) && r.revision < 7 && |nonce| == 4 && 0x8000_0000 <= len
    ensures MasksAgree(w, r, index, false, nonce, len) <==> MasksNothing(Keys(r.kind, nonce, r.key04))
  {
    var k := Keys(r.kind, nonce, r.key04);
    if MasksNothing(k) {
      forall j: nat ensures PutOn(w, false, nonce, len, j) == 0 && TakenOff(r, index, nonce, j) == 0 {
        ZeroMaskOctets(k, StartIndex(r, index) + j);
        ZeroMaskOctets(Keys(w.kind, nonce, w.key04), j);
      }
    } else if MasksAgree(w, r, index, false, nonce, len) {
      Unreached(w, r, index, nonce, len, 1);
    }
  }

  lemma LongOldFrames(w: Conn, r: Conn, s: Rx, p: Protocol, fin: bool, nonce: seq<byte>, payload: seq<byte>)
    requires SameKeys(w, r) && r.revision < 7 && |nonce| == 4 && ValidRx(r, s) && Idle(s) && (p == Text || p == Binary)
    requires 0x8000_0000 <= |payload| < 0x8000_0000_0000_0000
    ensures var o := Run(r, s, FrameBytes(w, p, fin, false, nonce, payload));
            var zero := MasksNothing(Keys(r.kind, nonce, r.key04));
            (Handled(r, o, s, p, payload) <==> zero) && (Arrived(o, payload) <==> zero)
  {
    hide Run, FrameBytes, UserData, Chunks, Deliveries, ValidRx, MasksAgree, MasksNothing, PutOn, TakenOff, IndexBehind;
    var o := Run(r, s, FrameBytes(w, p, fin, false, nonce, payload));
    ServerReceives(w, r, s, p, fin, false, nonce, payload);
    LongMasks(w, r, s.index, nonce, |payload|);
    if Handled(r, o, s, p, payload) {
      UserDataOf(Opcode(p), Chunks(payload));
    } else if Arrived(o, payload) {
      PayloadAgrees(w, r, s, p, fin, nonce, payload);
      Unreached(w, r, s.index, nonce, |payload|, 10);
    }
  }

  /** If all the data of a long frame was delivered, then the masks agree on it, whatever became of the header. */
  lemma PayloadAgrees(w: Conn, r: Conn, s: Rx, p: Protocol, fin: bool, nonce: seq<byte>, payload: seq<byte>)
    requires SameKeys(w, r) && r.revision < 7 && |nonce| == 4 && ValidRx(r, s) && Idle(s)
    requires 65660 < |payload| < 0x8000_0000_0000_0000
    requires Arrived(Run(r, s, FrameBytes(w, p, fin, false, nonce, payload)), payload)
    ensures forall j | 10 <= j < 10 + |payload| :: PutOn(w, false, nonce, |payload|, j) == TakenOff(r, s.index, nonce, j)
  {
    var x, at := Behind(w, p, fin, false, nonce, payload), FrameStart(r, s, nonce);
    var u := Unmasked(r, at, x);
    FrameIs(w, p, fin, false, nonce, payload);
    NonceRead(r, s, nonce, x);
    hide Run, FrameBytes, UserData, Chunks, Deliveries, ReadHead, Unmasked, Behind, PutOn, TakenOff, Xor, Header;
    OnlyOneFrame(r, at, x, |payload|, 0, []);
    UserDataOf(ReadHead(u).op, Chunks(u[10..]));
    assert u[10..] == payload;
    forall j | 10 <= j < 10 + |payload| ensures PutOn(w, false, nonce, |payload|, j) == TakenOff(r, s.index, nonce, j) {
      AgreesAt(w, r, s, p, fin, nonce, payload, j);
    }
  }

  lemma AgreesAt(w: Conn, r: Conn, s: Rx, p: Protocol, fin: bool, nonce: seq<byte>, payload: seq<byte>, j: nat)
    requires Connected(w, r) && Waits(r, s) && |nonce| == 4 && |payload| >= 65536 && 10 <= j < 10 + |payload|
    requires Unmasked(r, FrameStart(r, s, nonce), Behind(w, p, fin, false, nonce, payload))[10..] == payload
    requires SentNonce(w, false, nonce) == nonce
    ensures PutOn(w, false, nonce, |payload|, j) == TakenOff(r, s.index, nonce, j)
  {
    HeaderLength(r.revision, p, fin, |payload|);
    hide Header, Unmasked, Behind, PutOn, TakenOff, Xor;
    ReadAt(w, r, s, p, fin, false, nonce, payload, j);
    var u := Unmasked(r, FrameStart(r, s, nonce), Behind(w, p, fin, false, nonce, payload));
    assert u[j] == u[10..][j - 10];
    XorTwice(payload[j - 10], PutOn(w, false, nonce, |payload|, j), TakenOff(r, s.index, nonce, j));
  }

  /** A masked text or binary frame is handled as sent exactly when it is shorter than 2^31 octets, the range of the int
      that bounds the masking loop, or its mask is all zero: the nonce from revision 5 on, the key of the handshake in
      revision 4.  The same goes for its data alone. */
  lemma LongFrames(w: Conn, r: Conn, s: Rx, p: Protocol, fin: bool, nonce: seq<byte>, payload: seq<byte>)
    requires SameKeys(w, r) && |nonce| == 4 && ValidRx(r, s) && Idle(s) && (p == Text || p == Binary)
    requires 0 < |payload| < 0x8000_0000_0000_0000 && (r.revision < 7 && |payload| < 0x8000_0000 ==> !r.defeatMask)
    ensures var o := Run(r, s, FrameBytes(w, p, fin, false, nonce, payload));
            var zero := if r.revision == 4 then forall i | 0 <= i < 20 :: r.key04[i] == 0 else nonce == ZERO_NONCE;
            && (Handled(r, o, s, p, payload) <==> |payload| < 0x8000_0000 || zero)
            && (Arrived(o, payload) <==> |payload| < 0x8000_0000 || zero)
  {
    assert ValidIndex(r.kind, s.index);
    hide Run, FrameBytes, UserData, Chunks, Deliveries, ValidRx;
    if r.revision >= 7 {
      NewFrameExactly(w, r, s, p, fin, false, nonce, payload);
    } else if |payload| >= 0x8000_0000 {
      LongOldFrames(w, r, s, p, fin, nonce, payload);
    } else {
      OrdinaryReaches(w, r, s.index, Message(p, fin, false, nonce, payload));
      ServerReceives(w, r, s, p, fin, false, nonce, payload);
      UserDataOf(Opcode(p), Chunks(payload));
    }
  }

  // ----- servers that defeat the mask of their client -----

  /** Masks that start at two indexes agree on a frame longer than their period exactly when they are each other's shift. */
  lemma ShiftedMasks(k: Keys, index: nat, total: nat)
    requires ValidKeys(k) && k.kind != NoMask && total > Period(k.kind)
    ensures (forall j | 1 <= j < total :: MaskOctet(k, j) == MaskOctet(k, index + j))
            <==> (forall i | 0 <= i < Period(k.kind) :: MaskOctet(k, i) == MaskOctet(k, index + i))
  {
    var m := Period(k.kind);
    if forall j | 1 <= j < total :: MaskOctet(k, j) == MaskOctet(k, index + j) {
      forall i | 0 <= i < m ensures MaskOctet(k, i) == MaskOctet(k, index + i) {
        if i == 0 {
          Repeats(k, 0, m);
          Repeats(k, index, m);
          assert MaskOctet(k, m) == MaskOctet(k, index + m);
        }
      }
    } else if forall i | 0 <= i < m :: MaskOctet(k, i) == MaskOctet(k, index + i) {
      forall j | 1 <= j < total ensures MaskOctet(k, j) == MaskOctet(k, index + j) {
        Repeats(k, 0, j);
        Repeats(k, index, j);
        assert MaskOctet(k, j % m) == MaskOctet(k, index + j % m);
      }
    }
  }

  /** The mask from its beginning and the mask from an index make the same of a frame. */
  predicate Interchangeable(k: Keys, index: nat, total: nat)
    requires ValidKeys(k)
  {
    && MaskOctet(k, 0) % 16 == MaskOctet(k, index) % 16
    && forall j | 1 <= j < total :: MaskOctet(k, j) == MaskOctet(k, index + j)
  }

  lemma InterchangeableWhen(k: Keys, index: nat, total: nat)
    requires ValidKeys(k) && k.kind != NoMask
    ensures index % Period(k.kind) == 0 ==> Interchangeable(k, index, total)
    ensures total > Period(k.kind) ==>
              (Interchangeable(k, index, total)
               <==> forall i | 0 <= i < Period(k.kind) :: MaskOctet(k, i) == MaskOctet(k, index + i))
  {
    if index % Period(k.kind) == 0 {
      forall j: nat ensures MaskOctet(k, j) == MaskOctet(k, index + j) {
        Repeats(k, j, index);
      }
    }
    hide MaskOctet;
    if total > Period(k.kind) {
      ShiftedMasks(k, index, total);
      assert index + 0 == index;
    }
  }

  /** A server that defeats the mask takes it off from the index that the last frame left: the frame of a masking client
      arrives from an index that is a multiple of the mask's period, and from another one, if it is longer than that period,
      exactly when the mask repeats at that shift. */
  lemma DefeatedMask(w: Conn, r: Conn, s: Rx, p: Protocol, fin: bool, nonce: seq<byte>, payload: seq<byte>)
    requires SameKeys(w, r) && r.revision < 7 && r.defeatMask && |nonce| == 4 && ValidRx(r, s) && Idle(s)
    requires (p == Text || p == Binary) && 0 < |payload| < 0x8000_0000
    ensures var o := Run(r, s, FrameBytes(w, p, fin, false, nonce, payload));
            var k := Keys(r.kind, nonce, r.key04);
            && (s.index % Period(r.kind) == 0 ==> Handled(r, o, s, p, payload))
            && (HeadSize(|payload|) + |payload| > Period(r.kind) ==>
                  (Handled(r, o, s, p, payload)
                   <==> forall i | 0 <= i < Period(r.kind) :: MaskOctet(k, i) == MaskOctet(k, s.index + i)))
  {
    ServerReceives(w, r, s, p, fin, false, nonce, payload);
    hide Run, FrameBytes, Handled, ValidRx, IndexBehind, Interchangeable, MasksAgree, MaskOctet;
    BothWhole(w, r, s.index, nonce, |payload|);
    InterchangeableWhen(Keys(r.kind, nonce, r.key04), s.index, HeadSize(|payload|) + |payload|);
  }

  lemma BothWhole(w: Conn, r: Conn, index: nat, nonce: seq<byte>, len: nat)
    requires SameKeys(w, r) && r.revision < 7 && r.defeatMask && |nonce| == 4 && 0 < len < 0x8000_0000
    ensures var k := Keys(r.kind, nonce, r.key04);
            MasksAgree(w, r, index, false, nonce, len)
            <==> Interchangeable(k, index, HeadSize(len) + len)
  {
    var k := Keys(r.kind, nonce, r.key04);
    forall j | 0 <= j < HeadSize(len) + len
      ensures PutOn(w, false, nonce, len, j) == MaskOctet(k, j) && TakenOff(r, index, nonce, j) == MaskOctet(k, index + j)
    {
    }
    hide PutOn, TakenOff, MaskOctet;
  }

  /** Such a server of revision 5 or 6 receives the first frame of a connection and loses the second: a text of one octet
      under any key that is not zero, then one of three or more under the key 1, 0, 0, 0. */
  lemma SecondFrameLost(revision: nat, key04: seq<byte>, s: Rx, nonce: seq<byte>, first: byte, payload: seq<byte>)
    requires (revision == 5 || revision == 6) && |key04| == 20 && |nonce| == 4 && nonce != ZERO_NONCE
    requires var r := Conn(true, revision, Mask05, key04, true); ValidRx(r, s) && Idle(s) && s.index == 0
    requires 3 <= |payload| < 0x8000_0000
    ensures var w, r := Conn(false, revision, Mask05, key04, false), Conn(true, revision, Mask05, key04, true);
            var o := Run(r, s, FrameBytes(w, Text, true, false, nonce, [first]));
            && Handled(r, o, s, Text, [first])
            && !Handled(r, Run(r, o.rx, FrameBytes(w, Text, true, false, [1, 0, 0, 0], payload)), o.rx, Text, payload)
  {
    var w, r := Conn(false, revision, Mask05, key04, false), Conn(true, revision, Mask05, key04, true);
    var o := Run(r, s, FrameBytes(w, Text, true, false, nonce, [first]));
    DefeatedMask(w, r, s, Text, true, nonce, [first]);
    ServerReceives(w, r, s, Text, true, false, nonce, [first]);
    assert EndIndex(Mask05, 0, 2) == 2 && EndIndex(Mask05, 2, 1) == 3;
    hide Run, FrameBytes, ValidRx;
    DefeatedMask(w, r, o.rx, Text, true, [1, 0, 0, 0], payload);
    var k := Keys(Mask05, [1, 0, 0, 0], key04);
    assert MaskOctet(k, 0) == 1 && MaskOctet(k, 3 + 0) == 0;
  }

  // ----- clients of revision 4 that do not mask -----

  /** A server of revision 4 takes the mask of the handshake key off in any case: a frame that was not masked arrives if that
      key is zero, and only then if the frame is longer than the key. */
  lemma UnmaskedClient(w: Conn, r: Conn, s: Rx, p: Protocol, fin: bool, ignoreMask: bool, nonce: seq<byte>, payload: seq<byte>)
    requires Connected(w, r) && r.revision == 4 && !Masks(w, ignoreMask) && |nonce| == 4 && ValidRx(r, s) && Idle(s)
    requires (p == Text || p == Binary) && 0 < |payload| < 0x8000_0000_0000_0000
    ensures var o := Run(r, s, FrameBytes(w, p, fin, ignoreMask, nonce, payload));
            var zero := forall i | 0 <= i < 20 :: r.key04[i] == 0;
            && (zero ==> Handled(r, o, s, p, payload))
            && (HeadSize(|payload|) + |payload| > 20 ==> (Handled(r, o, s, p, payload) <==> zero))
  {
    ServerReceives(w, r, s, p, fin, ignoreMask, nonce, payload);
    hide Run, FrameBytes, Handled, ValidRx, IndexBehind, MasksAgree;
    UnmaskedAgrees(w, r, s.index, ignoreMask, nonce, |payload|);
  }

  lemma UnmaskedAgrees(w: Conn, r: Conn, index: nat, ignoreMask: bool, nonce: seq<byte>, len: nat)
    requires Connected(w, r) && r.revision == 4 && !Masks(w, ignoreMask) && |nonce| == 4 && len > 0
    ensures var zero := forall i | 0 <= i < 20 :: r.key04[i] == 0;
            && (zero ==> MasksAgree(w, r, index, ignoreMask, nonce, len))
            && (HeadSize(len) + len > 20 && MasksAgree(w, r, index, ignoreMask, nonce, len) ==> zero)
  {
    var k, start := Keys(Mask04, ZERO_NONCE, r.key04), StartIndex(r, index);
    if MasksNothing(k) {
      forall j: nat ensures TakenOff(r, index, ZERO_NONCE, j) == 0 {
        ZeroMaskOctets(k, start + j);
      }
    } else if HeadSize(len) + len > 20 && MasksAgree(w, r, index, ignoreMask, nonce, len) {
      forall i | start + 1 <= i < start + 1 + 20 ensures MaskOctet(k, i) == 0 {
        assert TakenOff(r, index, ZERO_NONCE, i - start) == PutOn(w, ignoreMask, nonce, len, i - start) == 0;
      }
      ZeroStretch(k, start + 1);
    }
  }

  /** Under a key whose second octet is not zero such a server loses every text and binary message that is not masked. */
  lemma UnmaskedLost(w: Conn, r: Conn, s: Rx, p: Protocol, fin: bool, ignoreMask: bool, nonce: seq<byte>, payload: seq<byte>)
    requires Connected(w, r) && r.revision == 4 && !Masks(w, ignoreMask) && |nonce| == 4 && ValidRx(r, s) && Idle(s)
    requires (p == Text || p == Binary) && 0 < |payload| < 0x8000_0000_0000_0000 && !r.defeatMask && r.key04[1] != 0
    ensures !Handled(r, Run(r, s, FrameBytes(w, p, fin, ignoreMask, nonce, payload)), s, p, payload)
  {
    ServerReceives(w, r, s, p, fin, ignoreMask, nonce, payload);
    hide Run, FrameBytes, Handled;
    assert PutOn(w, ignoreMask, nonce, |payload|, 1) == 0 && TakenOff(r, s.index, ZERO_NONCE, 1) == r.key04[1];
  }
}
