/** MD5: the definition of RFC 1321, and the implementation on 64-bit words that are never reduced to 32 bits. */
module Md5 {
  import opened Bytes
  import opened Padding

  type Word = bv32

  /** unsigned long on the 64-bit host. */
  type Wide = bv64

  // ----- sections 3.1 to 3.5 of RFC 1321 -----

  datatype Vars = Vars(a: Word, b: Word, c: Word, d: Word)

  /** The auxiliary functions F, G, H and I. */
  function Aux(round: nat, x: Word, y: Word, z: Word): Word {
    if round == 0 then F(x, y, z) else if round == 1 then G(x, y, z) else if round == 2 then H(x, y, z) else I(x, y, z)
  }

  function F(x: Word, y: Word, z: Word): Word {
    (x & y) | (!x & z)
  }

  function G(x: Word, y: Word, z: Word): Word {
    (x & z) | (y & !z)
  }

  function H(x: Word, y: Word, z: Word): Word {
    x ^ y ^ z
  }

  function I(x: Word, y: Word, z: Word): Word {
    y ^ (x | !z)
  }

  function Rotate(x: Word, s: bv6): Word
    requires 0 < s < 32
  {
    (x << s) | (x >> (32 - s))
  }

  /** The word that operation i of a round reads. */
  function K(round: nat, i: nat): (k: nat)
    ensures k < 16
  {
    (if round == 0 then i else if round == 1 then 1 + 5 * i else if round == 2 then 5 + 3 * i else 7 * i) % 16
  }

  function Shift(round: nat, i: nat): (s: bv6)
    ensures 0 < s < 32
  {
    var column := i % 4;
    if round == 0 then (if column == 0 then 7 else if column == 1 then 12 else if column == 2 then 17 else 22)
    else if round == 1 then (if column == 0 then 5 else if column == 1 then 9 else if column == 2 then 14 else 20)
    else if round == 2 then (if column == 0 then 4 else if column == 1 then 11 else if column == 2 then 16 else 23)
    else (if column == 0 then 6 else if column == 1 then 10 else if column == 2 then 15 else 21)
  }

  const T1: seq<Word> := [
    0xD76AA478, 0xE8C7B756, 0x242070DB, 0xC1BDCEEE,
    0xF57C0FAF, 0x4787C62A, 0xA8304613, 0xFD469501,
    0x698098D8, 0x8B44F7AF, 0xFFFF5BB1, 0x895CD7BE,
    0x6B901122, 0xFD987193, 0xA679438E, 0x49B40821]

  const T2: seq<Word> := [
    0xF61E2562, 0xC040B340, 0x265E5A51, 0xE9B6C7AA,
    0xD62F105D, 0x02441453, 0xD8A1E681, 0xE7D3FBC8,
    0x21E1CDE6, 0xC33707D6, 0xF4D50D87, 0x455A14ED,
    0xA9E3E905, 0xFCEFA3F8, 0x676F02D9, 0x8D2A4C8A]

  const T3: seq<Word> := [
    0xFFFA3942, 0x8771F681, 0x6D9D6122, 0xFDE5380C,
    0xA4BEEA44, 0x4BDECFA9, 0xF6BB4B60, 0xBEBFBC70,
    0x289B7EC6, 0xEAA127FA, 0xD4EF3085, 0x04881D05,
    0xD9D4D039, 0xE6DB99E5, 0x1FA27CF8, 0xC4AC5665]

  const T4: seq<Word> := [
    0xF4292244, 0x432AFF97, 0xAB9423A7, 0xFC93A039,
    0x655B59C3, 0x8F0CCC92, 0xFFEFF47D, 0x85845DD1,
    0x6FA87E4F, 0xFE2CE6E0, 0xA3014314, 0x4E0811A1,
    0xF7537E82, 0xBD3AF235, 0x2AD7D2BB, 0xEB86D391]

  /** Element 16 * round + i + 1 of the table constructed from the sine function. */
  function T(round: nat, i: nat): Word
    requires i < 16
  {
    (if round == 0 then T1 else if round == 1 then T2 else if round == 2 then T3 else T4)[i]
  }

  /** a = b + ((a + F(b,c,d) + X[k] + T[i]) <<< s) */
  function Operation(round: nat, i: nat, a: Word, b: Word, c: Word, d: Word, x: seq<Word>): Word
    requires |x| == 16 && i < 16
  {
    Turned(Sum(a, Aux(round, b, c, d), x[K(round, i)], T(round, i)), Shift(round, i), b)
  }

  function Sum(a: Word, f: Word, x: Word, t: Word): Word {
    Add(a, Add(Add(f, x), t))
  }

  function Add(x: Word, y: Word): Word {
    x + y
  }

  function Turned(sum: Word, s: bv6, b: Word): Word
    requires 0 < s < 32
  {
    Add(b, Rotate(sum, s))
  }

  /** One row of the listing: [ABCD], [DABC], [CDAB], [BCDA]. */
  function Row(round: nat, row: nat, v: Vars, x: seq<Word>): Vars
    requires |x| == 16 && row < 4
  {
    var i := 4 * row;
    var a := Operation(round, i, v.a, v.b, v.c, v.d, x);
    var d := Operation(round, i + 1, v.d, a, v.b, v.c, x);
    var c := Operation(round, i + 2, v.c, d, a, v.b, x);
    var b := Operation(round, i + 3, v.b, c, d, a, x);
    Vars(a, b, c, d)
  }

  /** The first n of the sixteen rows. */
  function Rows(v: Vars, x: seq<Word>, n: nat): Vars
    requires |x| == 16
  {
    if n == 0 then v else Row((n - 1) / 4, (n - 1) % 4, Rows(v, x, n - 1), x)
  }

  function Plus(v: Vars, w: Vars): Vars {
    Vars(Add(v.a, w.a), Add(v.b, w.b), Add(v.c, w.c), Add(v.d, w.d))
  }

  /** Words are stored low-order octet first. */
  function LittleWord(m: seq<Octet>): Word
    requires |m| == 4
  {
    m[0] as Word | (m[1] as Word << 8) | (m[2] as Word << 16) | (m[3] as Word << 24)
  }

  function BlockWords(m: seq<Octet>): (x: seq<Word>)
    requires |m| == 64
    ensures |x| == 16
  {
    seq(16, i requires 0 <= i < 16 => LittleWord(m[4 * i..4 * i + 4]))
  }

  function Compress(v: Vars, m: seq<Octet>): Vars
    requires |m| == 64
  {
    Plus(v, Rows(v, BlockWords(m), 16))
  }

  const INIT := Vars(0x67452301, 0xEFCDAB89, 0x98BADCFE, 0x10325476)

  /** Over the 64-octet blocks of whole-block data. */
  function Chain(data: seq<Octet>): Vars {
    if |data| < 64 then INIT else Compress(Chain(data[..|data| - 64]), data[|data| - 64..])
  }

  /** The low 64 bits of the length, low-order octet first. */
  function LengthField(bits: nat): (s: seq<Octet>)
    ensures |s| == 8
  {
    seq(8, i requires 0 <= i < 8 => OctetOf(bits, i))
  }

  function WordOctets(w: Word): (s: seq<Octet>)
    ensures |s| == 4
  {
    [(w & 0xFF) as Octet, ((w >> 8) & 0xFF) as Octet, ((w >> 16) & 0xFF) as Octet, ((w >> 24) & 0xFF) as Octet]
  }

  function Digest(message: seq<Octet>): seq<Octet> {
    var v := Chain(Padded(message, LengthField(8 * |message|)));
    WordOctets(v.a) + WordOctets(v.b) + WordOctets(v.c) + WordOctets(v.d)
  }

  // ----- wide words modulo 2^32 -----

  function Low(x: Wide): Word {
    (x & 0xFFFF_FFFF) as Word
  }

  function WideAdd(x: Wide, y: Wide): Wide {
    x + y
  }

  lemma LowAdd(x: Wide, y: Wide)
    ensures Low(WideAdd(x, y)) == Add(Low(x), Low(y))
  {
    LowPlus(x, y);
    hide Low;
  }

  lemma LowPlus(x: Wide, y: Wide)
    ensures Low(x + y) == Low(x) + Low(y)
  {
    Truncated(x, y, Low(x), Low(y), Low(x + y));
  }

  lemma Truncated(x: Wide, y: Wide, a: Word, b: Word, c: Word)
    requires a == (x & 0xFFFF_FFFF) as Word && b == (y & 0xFFFF_FFFF) as Word && c == ((x + y) & 0xFFFF_FFFF) as Word
    ensures c == a + b
  {
  }

  /** The macro S: only the right-shifted half is masked. */
  function WideRotate(x: Wide, s: bv6): Wide
    requires 0 < s < 32
  {
    (x << s) | ((x & 0xFFFF_FFFF) >> (32 - s))
  }

  lemma LowShifts(x: Wide, s: bv6)
    requires 0 < s < 32
    ensures Low((x << s) | ((x & 0xFFFF_FFFF) >> (32 - s))) == (Low(x) << s) | (Low(x) >> (32 - s))
  {
    ShiftsMasked(x, s, Low(x), Low((x << s) | ((x & 0xFFFF_FFFF) >> (32 - s))));
  }

  lemma ShiftsMasked(x: Wide, s: bv6, low: Word, r: Word)
    requires 0 < s < 32 && low == (x & 0xFFFF_FFFF) as Word
    requires r == (((x << s) | ((x & 0xFFFF_FFFF) >> (32 - s))) & 0xFFFF_FFFF) as Word
    ensures r == (low << s) | (low >> (32 - s))
  {
  }

  lemma LowRotate(x: Wide, s: bv6)
    requires 0 < s < 32
    ensures Low(WideRotate(x, s)) == Rotate(Low(x), s)
  {
    LowShifts(x, s);
    hide Low;
  }

  lemma LowTurned(x: Wide, s: bv6, b: Wide)
    requires 0 < s < 32
    ensures Low(WideAdd(WideRotate(x, s), b)) == Turned(Low(x), s, Low(b))
  {
    hide Low, WideRotate, Rotate, Add, WideAdd;
    LowAdd(WideRotate(x, s), b);
    LowRotate(x, s);
    Commute(Rotate(Low(x), s), Low(b));
  }

  lemma Commute(x: Word, y: Word)
    ensures Add(x, y) == Add(y, x)
  {
  }

  /** a += f + x + t */
  function WideSum(a: Wide, f: Wide, x: Wide, t: Wide): Wide {
    WideAdd(a, WideAdd(WideAdd(f, x), t))
  }

  lemma LowSum(a: Wide, f: Wide, x: Wide, t: Wide)
    ensures Low(WideSum(a, f, x, t)) == Sum(Low(a), Low(f), Low(x), Low(t))
  {
    hide Low, Add, WideAdd;
    LowAdd(f, x);
    LowAdd(WideAdd(f, x), t);
    LowAdd(a, WideAdd(WideAdd(f, x), t));
  }

  lemma LowOfWord(t: Word)
    ensures Low(t as Wide) == t
  {
  }

  /** The four macros F, in the forms that save an operation. */
  function WideAux(round: nat, x: Wide, y: Wide, z: Wide): Wide {
    if round == 0 then WideF(x, y, z)
    else if round == 1 then WideG(x, y, z)
    else if round == 2 then WideH(x, y, z)
    else WideI(x, y, z)
  }

  function WideH(x: Wide, y: Wide, z: Wide): Wide {
    x ^ y ^ z
  }

  function WideI(x: Wide, y: Wide, z: Wide): Wide {
    y ^ (x | !z)
  }

  function WideF(x: Wide, y: Wide, z: Wide): Wide {
    z ^ (x & (y ^ z))
  }

  function WideG(x: Wide, y: Wide, z: Wide): Wide {
    y ^ (z & (x ^ y))
  }

  lemma LowAux(round: nat, x: Wide, y: Wide, z: Wide)
    ensures Low(WideAux(round, x, y, z)) == Aux(round, Low(x), Low(y), Low(z))
  {
    if round == 0 {
      LowF(x, y, z);
    } else if round == 1 {
      LowG(x, y, z);
    } else if round == 2 {
      LowH(x, y, z);
    } else {
      LowI(x, y, z);
    }
    hide Low, F, G, H, I, WideF, WideG, WideH, WideI;
  }

  lemma LowF(x: Wide, y: Wide, z: Wide)
    ensures Low(WideF(x, y, z)) == F(Low(x), Low(y), Low(z))
  {
  }

  lemma LowG(x: Wide, y: Wide, z: Wide)
    ensures Low(WideG(x, y, z)) == G(Low(x), Low(y), Low(z))
  {
  }

  lemma LowH(x: Wide, y: Wide, z: Wide)
    ensures Low(WideH(x, y, z)) == H(Low(x), Low(y), Low(z))
  {
  }

  lemma LowI(x: Wide, y: Wide, z: Wide)
    ensures Low(WideI(x, y, z)) == I(Low(x), Low(y), Low(z))
  {
  }

  // ----- md5_process -----

  /** One P line: which word, which rotation, which constant. */
  datatype Line = Line(k: nat, s: bv6, t: Word)

  const LINES1: seq<Line> := [
    Line(0, 7, 0xD76AA478), Line(1, 12, 0xE8C7B756), Line(2, 17, 0x242070DB), Line(3, 22, 0xC1BDCEEE),
    Line(4, 7, 0xF57C0FAF), Line(5, 12, 0x4787C62A), Line(6, 17, 0xA8304613), Line(7, 22, 0xFD469501),
    Line(8, 7, 0x698098D8), Line(9, 12, 0x8B44F7AF), Line(10, 17, 0xFFFF5BB1), Line(11, 22, 0x895CD7BE),
    Line(12, 7, 0x6B901122), Line(13, 12, 0xFD987193), Line(14, 17, 0xA679438E), Line(15, 22, 0x49B40821)]

  const LINES2: seq<Line> := [
    Line(1, 5, 0xF61E2562), Line(6, 9, 0xC040B340), Line(11, 14, 0x265E5A51), Line(0, 20, 0xE9B6C7AA),
    Line(5, 5, 0xD62F105D), Line(10, 9, 0x02441453), Line(15, 14, 0xD8A1E681), Line(4, 20, 0xE7D3FBC8),
    Line(9, 5, 0x21E1CDE6), Line(14, 9, 0xC33707D6), Line(3, 14, 0xF4D50D87), Line(8, 20, 0x455A14ED),
    Line(13, 5, 0xA9E3E905), Line(2, 9, 0xFCEFA3F8), Line(7, 14, 0x676F02D9), Line(12, 20, 0x8D2A4C8A)]

  const LINES3: seq<Line> := [
    Line(5, 4, 0xFFFA3942), Line(8, 11, 0x8771F681), Line(11, 16, 0x6D9D6122), Line(14, 23, 0xFDE5380C),
    Line(1, 4, 0xA4BEEA44), Line(4, 11, 0x4BDECFA9), Line(7, 16, 0xF6BB4B60), Line(10, 23, 0xBEBFBC70),
    Line(13, 4, 0x289B7EC6), Line(0, 11, 0xEAA127FA), Line(3, 16, 0xD4EF3085), Line(6, 23, 0x04881D05),
    Line(9, 4, 0xD9D4D039), Line(12, 11, 0xE6DB99E5), Line(15, 16, 0x1FA27CF8), Line(2, 23, 0xC4AC5665)]

  const LINES4: seq<Line> := [
    Line(0, 6, 0xF4292244), Line(7, 10, 0x432AFF97), Line(14, 15, 0xAB9423A7), Line(5, 21, 0xFC93A039),
    Line(12, 6, 0x655B59C3), Line(3, 10, 0x8F0CCC92), Line(10, 15, 0xFFEFF47D), Line(1, 21, 0x85845DD1),
    Line(8, 6, 0x6FA87E4F), Line(15, 10, 0xFE2CE6E0), Line(6, 15, 0xA3014314), Line(13, 21, 0x4E0811A1),
    Line(4, 6, 0xF7537E82), Line(11, 10, 0xBD3AF235), Line(2, 15, 0x2AD7D2BB), Line(9, 21, 0xEB86D391)]

  function LineOf(round: nat, i: nat): Line
    requires i < 16
  {
    (if round == 0 then LINES1 else if round == 1 then LINES2 else if round == 2 then LINES3 else LINES4)[i]
  }

  /** The macro P, on the new value of its first argument. */
  function P(round: nat, a: Wide, b: Wide, c: Wide, d: Wide, x: Wide, s: bv6, t: Wide): Wide
    requires 0 < s < 32
  {
    WideAdd(WideRotate(WideSum(a, WideAux(round, b, c, d), x, t), s), b)
  }

  lemma LowChained(a: Wide, f: Wide, x: Wide, t: Wide, s: bv6, b: Wide)
    requires 0 < s < 32
    ensures Low(WideAdd(WideRotate(WideSum(a, f, x, t), s), b)) == Turned(Sum(Low(a), Low(f), Low(x), Low(t)), s, Low(b))
  {
    hide *;
    LowSum(a, f, x, t);
    LowTurned(WideSum(a, f, x, t), s, b);
  }

  lemma LowP(round: nat, a: Wide, b: Wide, c: Wide, d: Wide, x: Wide, s: bv6, t: Wide)
    requires 0 < s < 32
    ensures Low(P(round, a, b, c, d, x, s, t)) == Turned(Sum(Low(a), Aux(round, Low(b), Low(c), Low(d)), Low(x), Low(t)), s, Low(b))
  {
    hide Low, Aux, WideAux, Sum, WideSum, Turned, WideRotate, Add, WideAdd;
    LowAux(round, b, c, d);
    LowChained(a, WideAux(round, b, c, d), x, t, s, b);
  }

  /** One line of md5_process. */
  function WideOperation(round: nat, i: nat, a: Wide, b: Wide, c: Wide, d: Wide, x: seq<Wide>): Wide
    requires |x| == 16 && round < 4 && i < 16
  {
    LinesAgree(round, i);
    var line := LineOf(round, i);
    P(round, a, b, c, d, x[line.k], line.s, line.t as Wide)
  }

  lemma LowLine(round: nat, a: Wide, b: Wide, c: Wide, d: Wide, x: Wide, s: bv6, t: Word, low: Word)
    requires 0 < s < 32 && Low(x) == low
    ensures Low(P(round, a, b, c, d, x, s, t as Wide)) == Turned(Sum(Low(a), Aux(round, Low(b), Low(c), Low(d)), low, t), s, Low(b))
  {
    hide Low, Aux, Sum, Turned, P;
    LowOfWord(t);
    LowP(round, a, b, c, d, x, s, t as Wide);
  }

  lemma OperationIs(round: nat, i: nat, a: Word, b: Word, c: Word, d: Word, x: seq<Word>, k: nat, s: bv6, t: Word)
    requires |x| == 16 && i < 16 && k == K(round, i) && s == Shift(round, i) && t == T(round, i)
    ensures Operation(round, i, a, b, c, d, x) == Turned(Sum(a, Aux(round, b, c, d), x[k], t), s, b)
  {
    hide K, Shift, T, Sum, Aux, Turned;
  }

  lemma WideOperationIs(round: nat, i: nat, a: Wide, b: Wide, c: Wide, d: Wide, x: seq<Wide>, k: nat, s: bv6, t: Word)
    requires |x| == 16 && round < 4 && i < 16 && LineOf(round, i) == Line(k, s, t) && k < 16 && 0 < s < 32
    ensures WideOperation(round, i, a, b, c, d, x) == P(round, a, b, c, d, x[k], s, t as Wide)
  {
    hide LineOf, P;
  }

  lemma LowOperation(round: nat, i: nat, a: Wide, b: Wide, c: Wide, d: Wide, wide: seq<Wide>, x: seq<Word>)
    requires round < 4 && i < 16 && |wide| == |x| == 16 && forall k | 0 <= k < 16 :: Low(wide[k]) == x[k]
    ensures Low(WideOperation(round, i, a, b, c, d, wide)) == Operation(round, i, Low(a), Low(b), Low(c), Low(d), x)
  {
    hide Low, LineOf, Aux, Sum, Turned, K, Shift, T, P, Operation, WideOperation;
    LinesAgree(round, i);
    var k, s, t := K(round, i), Shift(round, i), T(round, i);
    WideOperationIs(round, i, a, b, c, d, wide, k, s, t);
    OperationIs(round, i, Low(a), Low(b), Low(c), Low(d), x, k, s, t);
    LowLine(round, a, b, c, d, wide[k], s, t, x[k]);
  }

  /** All 64 lines are those of the standard. */
  lemma LinesAgree(round: nat, i: nat)
    requires round < 4 && i < 16
    ensures var line := LineOf(round, i);
            line.k == K(round, i) && line.s == Shift(round, i) && line.t == T(round, i)
  {
    if round == 0 {
      LinesAgree1(i);
    } else if round == 1 {
      LinesAgree2(i);
    } else if round == 2 {
      LinesAgree3(i);
    } else {
      LinesAgree4(i);
    }
    hide T1, T2, T3, T4, LINES1, LINES2, LINES3, LINES4, K, Shift;
  }

  lemma LinesAgree1(i: nat)
    requires i < 16
    ensures LINES1[i] == Line(K(0, i), Shift(0, i), T1[i])
  {
    if i < 4 {
    } else if i < 8 {
    } else if i < 12 {
    } else {
    }
  }

  lemma LinesAgree2(i: nat)
    requires i < 16
    ensures LINES2[i] == Line(K(1, i), Shift(1, i), T2[i])
  {
    if i < 4 {
    } else if i < 8 {
    } else if i < 12 {
    } else {
    }
  }

  lemma LinesAgree3(i: nat)
    requires i < 16
    ensures LINES3[i] == Line(K(2, i), Shift(2, i), T3[i])
  {
    if i < 4 {
    } else if i < 8 {
    } else if i < 12 {
    } else {
    }
  }

  lemma LinesAgree4(i: nat)
    requires i < 16
    ensures LINES4[i] == Line(K(3, i), Shift(3, i), T4[i])
  {
    if i < 4 {
    } else if i < 8 {
    } else if i < 12 {
    } else {
    }
  }

  // ----- blocks -----

  datatype WideVars = WideVars(a: Wide, b: Wide, c: Wide, d: Wide)

  function LowVars(v: WideVars): Vars {
    Vars(Low(v.a), Low(v.b), Low(v.c), Low(v.d))
  }

  /** GET_ULONG_LE */
  function WideWord(m: seq<Octet>): Wide
    requires |m| == 4
  {
    m[0] as Wide | (m[1] as Wide << 8) | (m[2] as Wide << 16) | (m[3] as Wide << 24)
  }

  lemma LowWideWord(m: seq<Octet>)
    requires |m| == 4
    ensures Low(WideWord(m)) == LittleWord(m)
  {
    LowOctets(m[0], m[1], m[2], m[3]);
    hide Low;
  }

  lemma LowOctets(p: Octet, q: Octet, r: Octet, s: Octet)
    ensures Low(p as Wide | (q as Wide << 8) | (r as Wide << 16) | (s as Wide << 24))
         == p as Word | (q as Word << 8) | (r as Word << 16) | (s as Word << 24)
  {
  }

  ghost predicate Narrows(wide: seq<Wide>, x: seq<Word>) {
    |wide| == |x| == 16 && forall k | 0 <= k < 16 :: Low(wide[k]) == x[k]
  }

  method LoadWords(data: seq<Octet>) returns (x: array<Wide>)
    requires |data| == 64
    ensures Narrows(x[..], BlockWords(data))
  {
    hide Low, WideWord, LittleWord;
    x := new Wide[16](i requires 0 <= i < 16 => WideWord(data[4 * i..4 * i + 4]));
    forall k | 0 <= k < 16 ensures Low(x[k]) == BlockWords(data)[k] {
      LowWideWord(data[4 * k..4 * k + 4]);
    }
  }

  /** Four lines of md5_process. */
  method FourLines(round: nat, row: nat, v: WideVars, x: array<Wide>, ghost words: seq<Word>) returns (r: WideVars)
    requires round < 4 && row < 4 && Narrows(x[..], words)
    ensures LowVars(r) == Row(round, row, LowVars(v), words)
  {
    hide Low, WideOperation, Operation;
    var WideVars(a, b, c, d) := v;
    var i := 4 * row;
    LowOperation(round, i, a, b, c, d, x[..], words);
    a := WideOperation(round, i, a, b, c, d, x[..]);
    LowOperation(round, i + 1, d, a, b, c, x[..], words);
    d := WideOperation(round, i + 1, d, a, b, c, x[..]);
    LowOperation(round, i + 2, c, d, a, b, x[..], words);
    c := WideOperation(round, i + 2, c, d, a, b, x[..]);
    LowOperation(round, i + 3, b, c, d, a, x[..], words);
    b := WideOperation(round, i + 3, b, c, d, a, x[..]);
    r := WideVars(a, b, c, d);
  }

  method AllLines(state: WideVars, x: array<Wide>, ghost words: seq<Word>) returns (v: WideVars)
    requires Narrows(x[..], words) && |words| == 16
    ensures LowVars(v) == Rows(LowVars(state), words, 16)
  {
    hide *;
    v := state;
    NoRows(LowVars(state), words);
    for round := 0 to 4
      invariant LowVars(v) == Rows(LowVars(state), words, 4 * round)
    {
      v := OneRound(round, v, state, x, words);
    }
  }

  method OneRound(round: nat, v0: WideVars, ghost state: WideVars, x: array<Wide>, ghost words: seq<Word>) returns (v: WideVars)
    requires round < 4 && Narrows(x[..], words)
    requires |words| == 16 && LowVars(v0) == Rows(LowVars(state), words, 4 * round)
    ensures LowVars(v) == Rows(LowVars(state), words, 4 * round + 4)
  {
    hide *;
    v := v0;
    for row := 0 to 4
      invariant LowVars(v) == Rows(LowVars(state), words, 4 * round + row)
    {
      NextRow(LowVars(state), words, round, row);
      v := FourLines(round, row, v, x, words);
    }
  }

  lemma NoRows(v: Vars, x: seq<Word>)
    requires |x| == 16
    ensures Rows(v, x, 0) == v
  {
  }

  lemma NextRow(v: Vars, x: seq<Word>, round: nat, row: nat)
    requires |x| == 16 && round < 4 && row < 4
    ensures Rows(v, x, 4 * round + row + 1) == Row(round, row, Rows(v, x, 4 * round + row), x)
  {
    hide Row;
  }

  /** md5_process: on words that are never reduced it is the standard's compression modulo 2^32. */
  method Process(state: WideVars, data: seq<Octet>) returns (r: WideVars)
    requires |data| == 64
    ensures LowVars(r) == Compress(LowVars(state), data)
  {
    hide LowVars, Narrows, BlockWords, Rows, WideAdd, Plus;
    var x := LoadWords(data);
    var v := AllLines(state, x, BlockWords(data));
    LowPlusVars(state, v);
    r := WideVars(WideAdd(state.a, v.a), WideAdd(state.b, v.b), WideAdd(state.c, v.c), WideAdd(state.d, v.d));
  }

  lemma LowPlusVars(v: WideVars, w: WideVars)
    ensures LowVars(WideVars(WideAdd(v.a, w.a), WideAdd(v.b, w.b), WideAdd(v.c, w.c), WideAdd(v.d, w.d)))
         == Plus(LowVars(v), LowVars(w))
  {
    hide Low, WideAdd, Add;
    LowAdd(v.a, w.a);
    LowAdd(v.b, w.b);
    LowAdd(v.c, w.c);
    LowAdd(v.d, w.d);
  }

  lemma ChainNext(data: seq<Octet>, m: seq<Octet>)
    requires |data| % 64 == 0 && |m| == 64
    ensures Chain(data + m) == Compress(Chain(data), m)
  {
    hide Compress;
    assert (data + m)[..|data + m| - 64] == data && (data + m)[|data + m| - 64..] == m;
  }

  // ----- md5_update -----

  const TWO_32 := 0x1_0000_0000

  lemma CountUp(n: nat, k: nat)
    requires 0 < k < TWO_32
    ensures var low := (n % TWO_32 + k) % TWO_32;
            low == (n + k) % TWO_32 && n / TWO_32 + (if low < k then 1 else 0) == (n + k) / TWO_32
  {
  }

  lemma BlockOffset(n: nat)
    ensures n % TWO_32 % 64 == n % 64
  {
  }

  /** The array state[6] and the block buffer. */
  class Context {
    var low: nat
    var high: nat
    var chain: WideVars
    const buffer: array<Octet>
    ghost var seen: seq<Octet>

    ghost predicate Valid()
      reads this, buffer
    {
      && low == |seen| % TWO_32 && high == |seen| / TWO_32
      && buffer.Length == 64
      && Written(buffer, seen[|seen| - |seen| % 64..])
      && LowVars(chain) == Chain(seen[..|seen| - |seen| % 64])
    }

    constructor ()
      ensures Valid() && seen == [] && fresh(buffer)
    {
      low, high, seen := 0, 0, [];
      chain := WideVars(0x67452301, 0xEFCDAB89, 0x98BADCFE, 0x10325476);
      buffer := new Octet[64](i => 0);
      new;
      LowInit();
    }

    lemma Parts() returns (whole: seq<Octet>, part: seq<Octet>)
      requires Valid()
      ensures buffer.Length == 64 && |part| == |seen| % 64 == low % 64 && |whole| % 64 == 0 && seen == whole + part
      ensures Written(buffer, part) && LowVars(chain) == Chain(whole)
      ensures low == |seen| % TWO_32 && high == |seen| / TWO_32
    {
      BlockOffset(|seen|);
      hide Chain, Written, LowVars, TWO_32;
      Uncut(seen);
      whole, part := seen[..|seen| - |seen| % 64], seen[|seen| - |seen| % 64..];
    }

    lemma Settled(whole: seq<Octet>, part: seq<Octet>)
      requires buffer.Length == 64 && |part| < 64 && |whole| % 64 == 0 && seen == whole + part
      requires low == |seen| % TWO_32 && high == |seen| / TWO_32
      requires Written(buffer, part) && LowVars(chain) == Chain(whole)
      ensures Valid()
    {
      hide Chain, Written, LowVars, TWO_32;
      Cut(whole, part);
    }

    /** memcpy(buffer + left, input, |input|) */
    method Fill(left: nat, input: seq<Octet>, ghost part: seq<Octet>)
      requires buffer.Length == 64 && Written(buffer, part) && left == |part| && left + |input| <= 64
      modifies buffer
      ensures Written(buffer, part + input)
    {
      forall i | 0 <= i < |input| {
        buffer[left + i] := input[i];
      }
    }

    method ProcessBlock(data: seq<Octet>, ghost whole: seq<Octet>)
      requires |data| == 64 && |whole| % 64 == 0 && LowVars(chain) == Chain(whole)
      modifies this`chain
      ensures LowVars(chain) == Chain(whole + data)
    {
      hide Chain, LowVars, Compress;
      ChainNext(whole, data);
      chain := Process(chain, data);
    }

    /** The length counter, in two words of 32 bits. */
    method CountInput(ilen: nat)
      requires 0 < ilen < 0x8000_0000 && low == |seen| % TWO_32 && high == |seen| / TWO_32
      modifies this`low, this`high
      ensures low == (|seen| + ilen) % TWO_32 && high == (|seen| + ilen) / TWO_32
    {
      CountUp(|seen|, ilen);
      low := (low + ilen) % TWO_32;
      if low < ilen {
        high := high + 1;
      }
    }

    /** md5_update */
    method Update(input0: seq<Octet>)
      requires Valid() && |input0| < 0x8000_0000
      modifies this`low, this`high, this`chain, this`seen, buffer
      ensures Valid() && seen == old(seen) + input0
    {
      hide *;
      if |input0| <= 0 {
        assert seen + input0 == seen;
        return;
      }
      ghost var whole, part := Parts();
      var input := input0;
      var left := low % 64;
      var fill := 64 - left;
      CountInput(|input|);
      seen := seen + input0;
      Associative(whole, part, input0);
      if |input| >= fill {
        assert input[..fill] + input[fill..] == input;
      }
      if left != 0 && |input| >= fill {
        whole := FillBlock(left, input[..fill], input[fill..], whole, part);
        part := [];
        input := input[fill..];
        left := 0;
      }
      WholeBlocks(left, input, whole, part);
    }

    /** The first branch of md5_update, for an input that completes the block in the buffer. */
    method FillBlock(left: nat, head: seq<Octet>, ghost rest: seq<Octet>, ghost whole: seq<Octet>, ghost part: seq<Octet>)
      returns (ghost next: seq<Octet>)
      requires buffer.Length == 64 && left == |part| && left + |head| == 64 && |whole| % 64 == 0
      requires Written(buffer, part) && LowVars(chain) == Chain(whole)
      requires seen == whole + (part + (head + rest))
      modifies this`chain, buffer
      ensures |next| % 64 == 0 && seen == next + ([] + rest) && LowVars(chain) == Chain(next) && Written(buffer, [])
    {
      hide Chain, Written, LowVars;
      Fill(left, head, part);
      FullArray(buffer, part + head);
      ProcessBlock(buffer[..], whole);
      next := whole + (part + head);
      Associative(part, head, rest);
      Associative(whole, part + head, rest);
      assert [] + rest == rest;
      NothingWritten(buffer);
    }

    lemma NothingWritten(a: array<Octet>)
      ensures Written(a, [])
    {
    }

    /** The block loop of md5_update, and the copy of what is left over. */
    method WholeBlocks(left: nat, input0: seq<Octet>, ghost whole0: seq<Octet>, ghost part: seq<Octet>)
      requires buffer.Length == 64 && left == |part| && (left > 0 ==> left + |input0| < 64)
      requires |whole0| % 64 == 0 && seen == whole0 + (part + input0)
      requires low == |seen| % TWO_32 && high == |seen| / TWO_32
      requires Written(buffer, part) && LowVars(chain) == Chain(whole0)
      modifies this`chain, buffer
      ensures Valid()
    {
      hide *;
      var input := input0;
      ghost var whole := whole0;
      while |input| >= 64
        invariant left > 0 ==> left + |input| < 64
        invariant |whole| % 64 == 0 && seen == whole + (part + input)
        invariant Written(buffer, part) && LowVars(chain) == Chain(whole)
      {
        ProcessBlock(input[..64], whole);
        assert part == [] && part + input == input[..64] + input[64..] && part + input[64..] == input[64..];
        Associative(whole, input[..64], input[64..]);
        whole := whole + input[..64];
        input := input[64..];
      }
      if |input| > 0 {
        Fill(left, input, part);
      } else {
        assert part + input == part;
      }
      Settled(whole, part + input);
    }
  }

  lemma LowInit()
    ensures LowVars(WideVars(0x67452301, 0xEFCDAB89, 0x98BADCFE, 0x10325476)) == Chain([])
  {
  }

  // ----- MD5 -----

  /** PUT_ULONG_LE of a wide word. */
  function WideOctets(w: Wide): (s: seq<Octet>)
    ensures |s| == 4
  {
    [(w & 0xFF) as Octet, ((w >> 8) & 0xFF) as Octet, ((w >> 16) & 0xFF) as Octet, ((w >> 24) & 0xFF) as Octet]
  }

  lemma LowWideOctets(w: Wide)
    ensures WideOctets(w) == WordOctets(Low(w))
  {
    MaskedOctets(w, Low(w));
  }

  lemma MaskedOctets(w: Wide, low: Word)
    requires low == (w & 0xFFFF_FFFF) as Word
    ensures WideOctets(w) == WordOctets(low)
  {
  }

  /** PUT_ULONG_LE of a length word. */
  function CountOctets(n: nat): (s: seq<Octet>)
    ensures |s| == 4
  {
    [OctetOf(n, 0), OctetOf(n, 1), OctetOf(n, 2), OctetOf(n, 3)]
  }

  /** The two length words, shifted from octets to bits, are the two halves of the bit count. */
  lemma MessageLength(n: nat)
    ensures CountOctets(n % TWO_32 * 8) + CountOctets(n % TWO_32 / 0x2000_0000 + n / TWO_32 * 8) == LengthField(8 * n)
  {
    assert n % TWO_32 / 0x2000_0000 + n / TWO_32 * 8 == 8 * n / TWO_32;
    LowHalf(8 * n, n % TWO_32 * 8);
    HighHalf(8 * n);
  }

  lemma LowHalf(v: nat, w: nat)
    requires v % TWO_32 == w % TWO_32
    ensures CountOctets(w) == [OctetOf(v, 0), OctetOf(v, 1), OctetOf(v, 2), OctetOf(v, 3)]
  {
    PowersOf256();
    MiddleDigit(v, 1, 0x100_0000);
    MiddleDigit(w, 1, 0x100_0000);
    MiddleDigit(v, 256, 0x1_0000);
    MiddleDigit(w, 256, 0x1_0000);
    MiddleDigit(v, 65536, 0x100);
    MiddleDigit(w, 65536, 0x100);
    MiddleDigit(v, 0x100_0000, 1);
    MiddleDigit(w, 0x100_0000, 1);
  }

  lemma HighHalf(v: nat)
    ensures CountOctets(v / TWO_32) == [OctetOf(v, 4), OctetOf(v, 5), OctetOf(v, 6), OctetOf(v, 7)]
  {
    HighOctet(v, 0);
    HighOctet(v, 1);
    HighOctet(v, 2);
    HighOctet(v, 3);
    hide OctetOf;
  }

  lemma HighOctet(v: nat, k: nat)
    requires k < 4
    ensures OctetOf(v / TWO_32, k) == OctetOf(v, k + 4)
  {
    PowersOf256();
    assert v / TWO_32 / Pow256(k) == v / Pow256(k + 4);
  }

  const PADDING: seq<Octet> := [0x80] + Zeros(63)

  /** The three updates of MD5 make the padded message. */
  method PadAll(input: seq<Octet>) returns (ctx: Context)
    requires |input| < 0x8000_0000
    ensures ctx.Valid() && ctx.seen == Padded(input, LengthField(8 * |input|))
  {
    hide *;
    ctx := new Context();
    ctx.Update(input);
    assert [] + input == input;
    var msglen := LengthOctets(ctx);
    ghost var whole, part := ctx.Parts();
    var last := ctx.low % 64;
    var padn := if last < 56 then 56 - last else 120 - last;
    PaddingCut(|input|, last, padn);
    ctx.Update(PADDING[..padn]);
    ctx.Update(msglen);
    PaddedIs(input, PADDING[..padn], msglen);
  }

  lemma PaddedIs(input: seq<Octet>, cut: seq<Octet>, msglen: seq<Octet>)
    requires cut == [0x80] + Zeros((55 - |input|) % 64) && msglen == LengthField(8 * |input|)
    ensures (input + cut) + msglen == Padded(input, LengthField(8 * |input|))
  {
    hide Zeros, LengthField;
    Associative(input, [0x80], Zeros((55 - |input|) % 64));
  }

  method LengthOctets(ctx: Context) returns (msglen: seq<Octet>)
    requires ctx.Valid()
    ensures msglen == LengthField(8 * |ctx.seen|)
  {
    hide CountOctets, LengthField;
    MessageLength(|ctx.seen|);
    msglen := CountOctets(ctx.low * 8) + CountOctets(ctx.low / 0x2000_0000 + ctx.high * 8);
  }

  lemma PaddingCut(n: nat, last: nat, padn: nat)
    requires last == n % TWO_32 % 64 && padn == if last < 56 then 56 - last else 120 - last
    ensures padn <= |PADDING| && PADDING[..padn] == [0x80] + Zeros((55 - n) % 64)
  {
    BlockOffset(n);
    RoomLeft(n);
    assert (55 - n) % 64 == padn - 1;
  }

  /** MD5 of every input an int can measure. */
  method MD5(input: seq<Octet>) returns (output: seq<Octet>)
    requires |input| < 0x8000_0000
    ensures output == Digest(input)
  {
    hide Padded, Chain;
    var ctx := PadAll(input);
    ghost var whole, part := ctx.Parts();
    assert whole == ctx.seen;
    output := Output(ctx.chain);
  }

  method Output(v: WideVars) returns (output: seq<Octet>)
    ensures var w := LowVars(v);
            output == WordOctets(w.a) + WordOctets(w.b) + WordOctets(w.c) + WordOctets(w.d)
  {
    LowWideOctets(v.a);
    LowWideOctets(v.b);
    LowWideOctets(v.c);
    LowWideOctets(v.d);
    hide Low, WideOctets, WordOctets;
    output := WideOctets(v.a) + WideOctets(v.b) + WideOctets(v.c) + WideOctets(v.d);
  }
}
