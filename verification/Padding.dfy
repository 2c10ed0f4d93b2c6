/** Octets, zero padding and length fields of the two hashes. */
module Padding {
  import opened Bytes

  type Octet = bv8

  function Zeros(n: nat): (z: seq<Octet>)
    ensures |z| == n
  {
    seq(n, i => 0)
  }

  /** A one bit, as few zero bits as reach 448 modulo 512, and the length field. */
  function Padded(message: seq<Octet>, length: seq<Octet>): (p: seq<Octet>)
    requires |length| == 8
    ensures |p| % 64 == 0
  {
    message + [0x80] + Zeros((55 - |message|) % 64) + length
  }

  lemma PaddingIsShortest(n: nat, k: nat)
    requires (n + 1 + k) % 64 == 56
    ensures (n + 1 + (55 - n) % 64) % 64 == 56 && (55 - n) % 64 <= k
  {
  }

  /** Octet k of a number, counted from the least significant. */
  function OctetOf(v: nat, k: nat): Octet {
    (v / Pow256(k) % 256) as Octet
  }

  lemma CountIsRemainder(n: nat, count: nat, k: nat)
    requires count == n % 64
    ensures (count + k) % 64 == (n + k) % 64
  {
  }

  lemma ZerosJoin(i: nat, j: nat)
    ensures Zeros(0) == [] && Zeros(i) + Zeros(j) == Zeros(i + j)
  {
  }

  lemma RoomLeft(n: nat)
    ensures var c := n % 64; (56 - n) % 64 == if c <= 56 then 56 - c else 120 - c
  {
  }

  lemma FullBlock(n: nat, k: nat)
    requires k == 64 - n % 64
    ensures (n + k) % 64 == 0
  {
  }

  lemma FullArray(a: array<Octet>, s: seq<Octet>)
    requires Written(a, s) && |s| == a.Length
    ensures a[..] == s
  {
  }

  lemma MiddleDigit(v: nat, p: nat, q: nat)
    requires p > 0 && q > 0 && p * (256 * q) > 0
    ensures v % (p * (256 * q)) / p % 256 == v / p % 256
  {
    var m := p * (256 * q);
    var r, n := v % m, v / m;
    assert v == m * n + r;
    Reorder(p, q, n);
    QuotientShift(p, 256 * (q * n), r);
    DropMultiple(q * n, r / p);
  }

  lemma DropMultiple(x: nat, y: nat)
    ensures (256 * x + y) % 256 == y % 256
  {
  }

  lemma Reorder(p: nat, q: nat, n: nat)
    ensures p * (256 * q) * n == p * (256 * (q * n))
  {
    assert (256 * q) * n == 256 * (q * n);
    assert p * (256 * q) * n == p * ((256 * q) * n);
  }

  lemma QuotientShift(p: nat, x: nat, r: nat)
    requires p > 0
    ensures (p * x + r) / p == x + r / p
  {
    var t := r / p;
    assert p * x + r == p * (x + t) + r % p;
    QuotientUnique(p * x + r, p, x + t, r % p);
    var d := (p * x + r) / p - (x + t);
    assert d * p == 0;
  }

  /** Whole blocks and a rest are told apart by the length. */
  lemma Cut(whole: seq<Octet>, part: seq<Octet>)
    requires |whole| % 64 == 0 && |part| < 64
    ensures var s := whole + part;
            |s| % 64 == |part| && s[..|s| - |part|] == whole && s[|s| - |part|..] == part
  {
    CountIsRemainder(|whole|, 0, |part|);
  }

  lemma Uncut(s: seq<Octet>)
    ensures |s[..|s| - |s| % 64]| % 64 == 0 && s == s[..|s| - |s| % 64] + s[|s| - |s| % 64..]
  {
  }

  // ----- the length field of "abc" -----

  lemma OctetsOf24(k: nat)
    ensures OctetOf(24, k) == if k == 0 then 24 else 0
  {
    if k > 0 {
      var p := Pow256(k);
      assert p == 256 * Pow256(k - 1) && p >= 256;
      QuotientIs(24, p);
    }
  }

  lemma QuotientIs(v: nat, p: nat)
    requires v < p
    ensures v / p == 0
  {
    QuotientUnique(v, p, 0, v);
  }
}
