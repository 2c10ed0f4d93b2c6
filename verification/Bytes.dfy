/** Octets, big-endian integers and concatenation, shared by the codecs below. */
module Bytes {

  type byte = x: int | 0 <= x < 256

  datatype Option<+T> = None | Some(value: T)

  function Pow256(n: nat): (p: nat)
    ensures p > 0
  {
    if n == 0 then 1 else 256 * Pow256(n - 1)
  }

  lemma PowersOf256()
    ensures Pow256(0) == 1 && Pow256(1) == 256 && Pow256(2) == 0x1_0000 && Pow256(3) == 0x100_0000
    ensures Pow256(4) == 0x1_0000_0000 && Pow256(5) == 0x100_0000_0000 && Pow256(6) == 0x1_0000_0000_0000
    ensures Pow256(7) == 0x100_0000_0000_0000 && Pow256(8) == 0x1_0000_0000_0000_0000
  {
    assert Pow256(2) == 256 * Pow256(1);
    assert Pow256(4) == 256 * (256 * Pow256(2));
    assert Pow256(6) == 256 * (256 * Pow256(4));
    assert Pow256(8) == 256 * (256 * Pow256(6));
  }

  /** The n octets of v (modulo 256^n), most significant first. */
  function BigEndian(n: nat, v: nat): (s: seq<byte>)
    ensures |s| == n
  {
    if n == 0 then [] else BigEndian(n - 1, v / 256) + [v % 256]
  }

  function FromBigEndian(s: seq<byte>): (v: nat)
  {
    if s == [] then 0 else FromBigEndian(s[..|s| - 1]) * 256 + s[|s| - 1]
  }

  /** The value of one leading octet. */
  lemma {:induction false} FromBigEndianCons(d: byte, rest: seq<byte>)
    ensures FromBigEndian([d] + rest) == d * Pow256(|rest|) + FromBigEndian(rest)
  {
    if rest == [] {
      assert [d] + rest == [d];
      assert FromBigEndian([d]) == FromBigEndian([]) * 256 + d;
    } else {
      var init, last := rest[..|rest| - 1], rest[|rest| - 1];
      assert ([d] + rest)[..|rest|] == [d] + init;
      FromBigEndianCons(d, init);
      TimesBase(d, Pow256(|init|), FromBigEndian(init));
    }
  }

  lemma TimesBase(d: nat, p: nat, v: nat)
    ensures (d * p + v) * 256 == d * (256 * p) + v * 256
  {
  }

  lemma {:induction false} BigEndianRoundTrip(n: nat, v: nat)
    ensures FromBigEndian(BigEndian(n, v)) == v % Pow256(n)
  {
    if n > 0 {
      BigEndianRoundTrip(n - 1, v / 256);
      assert BigEndian(n, v)[..n - 1] == BigEndian(n - 1, v / 256);
      SplitModulus(v, Pow256(n - 1));
    }
  }

  lemma {:induction false} BackToOctets(s: seq<byte>)
    ensures BigEndian(|s|, FromBigEndian(s)) == s && FromBigEndian(s) < Pow256(|s|)
  {
    if s != [] {
      BackToOctets(s[..|s| - 1]);
      LastOctet(FromBigEndian(s[..|s| - 1]), s[|s| - 1]);
    }
  }

  lemma LastOctet(v: nat, d: byte)
    ensures (v * 256 + d) / 256 == v && (v * 256 + d) % 256 == d
  {
  }

  lemma SplitModulus(v: nat, p: nat)
    requires p > 0
    ensures (v / 256 % p) * 256 + v % 256 == v % (256 * p)
  {
    var q, r := v / 256 / p, (v / 256 % p) * 256 + v % 256;
    assert v / 256 == q * p + v / 256 % p;
    assert v == q * (256 * p) + r;
    assert v / 256 % p <= p - 1;
    assert 0 <= r < 256 * p;
    QuotientUnique(v, 256 * p, q, r);
  }

  lemma QuotientUnique(v: nat, m: nat, q: nat, r: nat)
    requires m > 0 && r < m && v == q * m + r
    ensures v % m == r
  {
    var d := v / m - q;
    assert d * m == r - v % m;
    if d >= 1 {
      MultipleAtLeast(d, m);
    } else if d <= -1 {
      MultipleAtLeast(-d, m);
    }
  }

  lemma MultipleAtLeast(d: int, m: nat)
    requires d >= 1
    ensures d * m >= m
  {
  }

  function Flatten<T>(pieces: seq<seq<T>>): seq<T>
  {
    if pieces == [] then [] else pieces[0] + Flatten(pieces[1..])
  }

  lemma {:induction false} FlattenAppend<T>(a: seq<seq<T>>, b: seq<seq<T>>)
    ensures Flatten(a + b) == Flatten(a) + Flatten(b)
  {
    if a == [] {
      assert a + b == b;
    } else {
      FlattenAppend(a[1..], b);
      assert (a + b)[1..] == a[1..] + b && (a + b)[0] == a[0];
      Associative(a[0], Flatten(a[1..]), Flatten(b));
    }
  }

  lemma Associative<T>(a: seq<T>, b: seq<T>, c: seq<T>)
    ensures (a + b) + c == a + (b + c)
  {
  }

  lemma Cons<T>(a: T, rest: seq<T>)
    ensures ([a] + rest)[0] == a && ([a] + rest)[1..] == rest
  {
  }

  lemma Uncons<T>(s: seq<T>)
    requires s != []
    ensures s == [s[0]] + s[1..]
  {
  }

  lemma EmptyLeft<T>(s: seq<T>)
    ensures [] + s == s
  {
  }

  lemma TakeDrop<T>(s: seq<T>, i: nat)
    requires i <= |s|
    ensures s == s[..i] + s[i..]
  {
  }

  lemma SliceThen<T>(s: seq<T>, a: nat, b: nat)
    requires a <= b <= |s|
    ensures s[a..] == s[a..b] + s[b..]
  {
  }

  lemma SliceJoin<T>(s: seq<T>, a: nat, b: nat, c: nat)
    requires a <= b <= c <= |s|
    ensures s[a..c] == s[a..b] + s[b..c]
  {
  }

  lemma SliceOfTake<T>(s: seq<T>, n: nat, a: nat, b: nat)
    requires a <= b <= n <= |s|
    ensures s[..n][a..b] == s[a..b]
  {
  }

  lemma SplitHere<T>(s: seq<T>, i: nat)
    requires i < |s|
    ensures s[..i + 1] == s[..i] + [s[i]]
    ensures s == s[..i + 1] + s[i + 1..]
  {
  }

  lemma FlattenSplit<T>(pieces: seq<seq<T>>, i: nat)
    requires i < |pieces|
    ensures Flatten(pieces[..i + 1]) == Flatten(pieces[..i]) + pieces[i]
    ensures Flatten(pieces) == Flatten(pieces[..i + 1]) + Flatten(pieces[i + 1..])
  {
    hide Flatten;
    SplitHere(pieces, i);
    FlattenAppend(pieces[..i], [pieces[i]]);
    FlattenOne(pieces[i]);
    FlattenAppend(pieces[..i + 1], pieces[i + 1..]);
  }

  lemma FlattenOne<T>(piece: seq<T>)
    ensures Flatten([piece]) == piece
  {
    assert Flatten([piece]) == piece + Flatten<T>([]);
  }

  /** The array starts with these elements. */
  ghost predicate Written<T>(a: array<T>, out: seq<T>)
    reads a
  {
    |out| <= a.Length && forall i | 0 <= i < |out| :: a[i] == out[i]
  }

  /** *out++ = c. */
  method Put<T>(a: array<T>, at: nat, c: T, ghost out: seq<T>)
    requires Written(a, out) && |out| == at < a.Length
    modifies a
    ensures Written(a, out + [c])
  {
    a[at] := c;
  }
}
