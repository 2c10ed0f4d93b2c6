/** The masks a websocket client puts over what it sends (xor_mask_04 and xor_mask_05 of parsers.c). */
module WsMask {
  import opened Bytes

  function Pow2(n: nat): (p: nat)
    ensures p > 0
  {
    if n == 0 then 1 else 2 * Pow2(n - 1)
  }

  /** Exclusive or of the low n bits. */
  function XorBits(n: nat, a: nat, b: nat): (r: nat)
    ensures r < Pow2(n)
  {
    if n == 0 then 0 else 2 * XorBits(n - 1, a / 2, b / 2) + (a + b) % 2
  }

  lemma LowBit(h: nat, a: nat, b: nat)
    ensures (2 * h + (a + b) % 2) / 2 == h
    ensures (2 * h + (a + b) % 2 + b) % 2 == a % 2
    ensures (a + b) % 2 == a % 2 <==> b % 2 == 0
  {
  }

  lemma XorBitsOnce(n: nat, a: nat, b: nat, x: nat)
    requires n > 0 && x / 2 == XorBits(n - 1, a / 2, b / 2) && x % 2 == (a + b) % 2
    ensures XorBits(n, a, b) == x
  {
  }

  lemma {:induction false} XorBitsLaws(n: nat, a: nat, b: nat)
    requires a < Pow2(n) && b < Pow2(n)
    ensures XorBits(n, XorBits(n, a, b), b) == a
    ensures XorBits(n, a, b) == a <==> b == 0
  {
    if n > 0 {
      XorBitsLaws(n - 1, a / 2, b / 2);
      var h := XorBits(n - 1, a / 2, b / 2);
      LowBit(h, a, b);
      XorBitsOnce(n, a, b, 2 * h + (a + b) % 2);
      XorBitsOnce(n, 2 * h + (a + b) % 2, b, a);
    }
  }

  /** Halving takes a low bit off a remainder. */
  lemma HalfRemainder(a: nat, m: nat)
    requires m > 0
    ensures a % Pow2(m) == 2 * (a / 2 % Pow2(m - 1)) + a % 2
  {
    var p, h := Pow2(m - 1), a / 2;
    assert h == h / p * p + h % p;
    assert a == h / p * (2 * p) + (2 * (h % p) + a % 2);
    QuotientUnique(a, 2 * p, h / p, 2 * (h % p) + a % 2);
  }

  /** Two masks one after the other leave the low m bits alone exactly when they agree there. */
  lemma {:induction false} XorBitsTwice(n: nat, m: nat, a: nat, b: nat, c: nat)
    requires m <= n && a < Pow2(n) && b < Pow2(n) && c < Pow2(n)
    ensures XorBits(n, XorBits(n, a, b), c) % Pow2(m) == a % Pow2(m) <==> b % Pow2(m) == c % Pow2(m)
  {
    if m > 0 {
      var x := XorBits(n, a, b);
      XorBitsTwice(n - 1, m - 1, a / 2, b / 2, c / 2);
      LowBit(XorBits(n - 1, a / 2, b / 2), a, b);
      XorBitsOnce(n, a, b, 2 * XorBits(n - 1, a / 2, b / 2) + (a + b) % 2);
      var y := 2 * XorBits(n - 1, x / 2, c / 2) + (x + c) % 2;
      LowBit(XorBits(n - 1, x / 2, c / 2), x, c);
      XorBitsOnce(n, x, c, y);
      HalfRemainder(y, m);
      HalfRemainder(a, m);
      HalfRemainder(b, m);
      HalfRemainder(c, m);
      assert (x + c) % 2 == a % 2 <==> b % 2 == c % 2;
    }
  }

  lemma EightBits()
    ensures Pow2(4) == 16 && Pow2(8) == 256
  {
    assert Pow2(4) == 2 * (2 * Pow2(2));
  }

  function Xor(a: byte, b: byte): byte {
    EightBits();
    XorBits(8, a, b)
  }

  lemma XorLaws(a: byte, b: byte)
    ensures Xor(Xor(a, b), b) == a
    ensures Xor(a, b) == a <==> b == 0
  {
    EightBits();
    XorBitsLaws(8, a, b);
  }

  /** Masked twice, an octet is what it was exactly when the masks are equal. */
  lemma XorTwice(a: byte, b: byte, c: byte)
    ensures Xor(Xor(a, b), c) == a <==> b == c
  {
    EightBits();
    LowBitsTwice(8, 256, a, b, c);
    hide *;
    OctetModulo(a);
    OctetModulo(b);
    OctetModulo(c);
    OctetModulo(Xor(Xor(a, b), c));
  }

  lemma OctetModulo(a: byte)
    ensures a % 256 == a
  {
  }

  /** The same for its low four bits. */
  lemma XorTwiceLow(a: byte, b: byte, c: byte)
    ensures Xor(Xor(a, b), c) % 16 == a % 16 <==> b % 16 == c % 16
  {
    EightBits();
    LowBitsTwice(4, 16, a, b, c);
  }

  lemma LowBitsTwice(m: nat, p: nat, a: byte, b: byte, c: byte)
    requires m <= 8 && p == Pow2(m)
    ensures Xor(Xor(a, b), c) % p == a % p <==> b % p == c % p
  {
    EightBits();
    hide Pow2, XorBits;
    XorBitsTwice(8, m, a, b, c);
  }

  /** The function wsi->xor_mask points to. */
  datatype Kind = NoMask | Mask04 | Mask05

  /** What it reads from the connection: the frame nonce and the 20-octet key of the handshake. */
  datatype Keys = Keys(kind: Kind, nonce: seq<byte>, key04: seq<byte>)

  predicate ValidKeys(k: Keys) {
    |k.nonce| == 4 && |k.key04| == 20
  }

  /** frame_mask_index is an unsigned char, and xor_mask_04 wraps it after 20. */
  predicate ValidIndex(k: Kind, index: nat) {
    index < if k == Mask04 then 20 else 256
  }

  function NextIndex(k: Kind, index: nat): (next: nat)
    requires ValidIndex(k, index)
    ensures ValidIndex(k, next)
  {
    match k
    case NoMask => index
    case Mask04 => if index + 1 == 20 then 0 else index + 1
    case Mask05 => (index + 1) % 256
  }

  function MaskByte(k: Keys, index: nat, c: byte): byte
    requires ValidKeys(k) && ValidIndex(k.kind, index)
  {
    match k.kind
    case NoMask => c
    case Mask04 => Xor(c, k.key04[index])
    case Mask05 => Xor(c, k.nonce[index % 4])
  }

  /** xor_mask over consecutive octets, starting with frame_mask_index at `index`. */
  function Masked(k: Keys, index: nat, s: seq<byte>): (r: seq<byte>)
    requires ValidKeys(k) && ValidIndex(k.kind, index)
    ensures |r| == |s|
    decreases |s|
  {
    if s == [] then [] else [MaskByte(k, index, s[0])] + Masked(k, NextIndex(k.kind, index), s[1..])
  }

  lemma FirstMasked(k: Keys, index: nat, s: seq<byte>)
    requires ValidKeys(k) && ValidIndex(k.kind, index) && s != []
    ensures Masked(k, index, s)[0] == MaskByte(k, index, s[0]) && s == [s[0]] + s[1..]
    ensures Masked(k, index, s)[1..] == Masked(k, NextIndex(k.kind, index), s[1..])
  {
    hide MaskByte, ValidKeys, NextIndex, ValidIndex;
    Uncons(s);
    Cons(MaskByte(k, index, s[0]), Masked(k, NextIndex(k.kind, index), s[1..]));
  }

  function EndIndex(k: Kind, index: nat, n: nat): (end: nat)
    requires ValidIndex(k, index)
    ensures ValidIndex(k, end)
    decreases n
  {
    if n == 0 then index else EndIndex(k, NextIndex(k, index), n - 1)
  }

  lemma {:induction false} MaskedInvolution(k: Keys, index: nat, s: seq<byte>)
    requires ValidKeys(k) && ValidIndex(k.kind, index)
    ensures Masked(k, index, Masked(k, index, s)) == s
    decreases |s|
  {
    if s != [] {
      match k.kind {
        case NoMask =>
        case Mask04 => XorLaws(s[0], k.key04[index]);
        case Mask05 => XorLaws(s[0], k.nonce[index % 4]);
      }
      MaskedInvolution(k, NextIndex(k.kind, index), s[1..]);
    }
  }

  lemma {:induction false} MaskedAppend(k: Keys, index: nat, a: seq<byte>, b: seq<byte>)
    requires ValidKeys(k) && ValidIndex(k.kind, index)
    ensures Masked(k, index, a + b) == Masked(k, index, a) + Masked(k, EndIndex(k.kind, index, |a|), b)
    decreases |a|
  {
    if a == [] {
      assert a + b == b;
    } else {
      assert (a + b)[0] == a[0] && (a + b)[1..] == a[1..] + b;
      MaskedAppend(k, NextIndex(k.kind, index), a[1..], b);
    }
  }

  const ZERO_NONCE: seq<byte> := [0, 0, 0, 0]

  /** A mask of zeros is as good as none. */
  predicate MasksNothing(k: Keys)
    requires ValidKeys(k)
  {
    match k.kind
    case NoMask => true
    case Mask04 => forall i | 0 <= i < 20 :: k.key04[i] == 0
    case Mask05 => k.nonce == ZERO_NONCE
  }

  lemma {:induction false} ZeroMaskKeeps(k: Keys, index: nat, s: seq<byte>)
    requires ValidKeys(k) && ValidIndex(k.kind, index) && MasksNothing(k)
    ensures Masked(k, index, s) == s
    decreases |s|
  {
    if s != [] {
      XorLaws(s[0], 0);
      ZeroMaskKeeps(k, NextIndex(k.kind, index), s[1..]);
    }
  }

  lemma NextModulo4(index: nat, j: nat)
    requires index < 256 && j > 0
    ensures ((index + 1) % 256 + (j - 1)) % 4 == (index + j) % 4
  {
    assert (index + 1) % 256 == if index == 255 then 0 else index + 1;
    assert (255 + j) % 4 == (j - 1 + 4 * 64) % 4;
  }

  lemma {:induction false} Masked05At(k: Keys, index: nat, s: seq<byte>, j: nat)
    requires ValidKeys(k) && k.kind == Mask05 && index < 256 && j < |s|
    ensures Masked(k, index, s)[j] == Xor(s[j], k.nonce[(index + j) % 4])
    decreases j
  {
    hide Xor;
    if j > 0 {
      NextModulo4(index, j);
      Masked05At(k, NextIndex(Mask05, index), s[1..], j - 1);
    }
  }

  lemma NextModulo20(index: nat, j: nat)
    requires index < 20 && j > 0
    ensures ((if index + 1 == 20 then 0 else index + 1) + (j - 1)) % 20 == (index + j) % 20
  {
    assert index == 19 ==> (index + j) % 20 == (j - 1 + 20) % 20;
  }

  lemma {:induction false} Masked04At(k: Keys, index: nat, s: seq<byte>, j: nat)
    requires ValidKeys(k) && k.kind == Mask04 && index < 20 && j < |s|
    ensures Masked(k, index, s)[j] == Xor(s[j], k.key04[(index + j) % 20])
    decreases j
  {
    hide Xor;
    if j > 0 {
      NextModulo20(index, j);
      Masked04At(k, NextIndex(Mask04, index), s[1..], j - 1);
    }
  }

  /** The octet that the mask combines with at an index; the index may run on past its wrap. */
  function MaskOctet(k: Keys, index: nat): byte
    requires ValidKeys(k)
  {
    match k.kind
    case NoMask => 0
    case Mask04 => k.key04[index % 20]
    case Mask05 => k.nonce[index % 4]
  }

  lemma MaskedAt(k: Keys, index: nat, s: seq<byte>, j: nat)
    requires ValidKeys(k) && ValidIndex(k.kind, index) && j < |s|
    ensures Masked(k, index, s)[j] == Xor(s[j], MaskOctet(k, index + j))
  {
    match k.kind {
      case NoMask =>
        ZeroMaskKeeps(k, index, s);
        XorLaws(s[j], 0);
      case Mask04 => Masked04At(k, index, s, j);
      case Mask05 => Masked05At(k, index, s, j);
    }
  }

  /** Where among consecutive octets the mask octet i comes up. */
  lemma IndexReaching(index: nat, i: nat, m: nat) returns (j: nat)
    requires 0 < m && i < m
    ensures j < m && (index + j) % m == i
  {
    var q, r := index / m, index % m;
    if i >= r {
      j := i - r;
      QuotientUnique(index + j, m, q, i);
    } else {
      j := i + m - r;
      assert index + j == (q + 1) * m + i;
      QuotientUnique(index + j, m, q + 1, i);
    }
  }

  /** Any other mask changes every stretch of octets that is as long as its key. */
  lemma OtherMaskChanges(k: Keys, index: nat, s: seq<byte>)
    requires ValidKeys(k) && ValidIndex(k.kind, index) && !MasksNothing(k) && |s| >= if k.kind == Mask04 then 20 else 4
    ensures Masked(k, index, s) != s
  {
    hide Xor, Masked;
    var j: nat;
    if k.kind == Mask04 {
      var i :| 0 <= i < 20 && k.key04[i] != 0;
      j := IndexReaching(index, i, 20);
    } else {
      var i :| 0 <= i < 4 && k.nonce[i] != 0;
      j := IndexReaching(index, i, 4);
    }
    MaskedAt(k, index, s, j);
    XorLaws(s[j], MaskOctet(k, index + j));
  }
}
