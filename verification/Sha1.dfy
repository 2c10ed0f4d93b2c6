/** SHA-1: the plain definition of FIPS 180-1 and the streaming implementation with its 16-word circular schedule. */
module Sha1 {
  import opened Bytes
  import opened Padding

  type Word = bv32

  datatype State = State(a: Word, b: Word, c: Word, d: Word, e: Word)

  // ----- sections 3 and 5 to 7 of FIPS 180-1 -----

  function S(n: nat, x: Word): Word
    requires 0 < n < 32
  {
    (x << n) | (x >> (32 - n))
  }

  function F(t: nat, b: Word, c: Word, d: Word): Word {
    if t < 20 then (b & c) | (!b & d)
    else if t < 40 then b ^ c ^ d
    else if t < 60 then (b & c) | (b & d) | (c & d)
    else b ^ c ^ d
  }

  function K(t: nat): Word {
    if t < 20 then 0x5A827999 else if t < 40 then 0x6ED9EBA1 else if t < 60 then 0x8F1BBCDC else 0xCA62C1D6
  }

  /** W(t), with 80 words in mind. */
  function Schedule(block: seq<Word>, t: nat): Word
    requires |block| == 16
  {
    if t < 16 then block[t]
    else Mix(Schedule(block, t - 3), Schedule(block, t - 8), Schedule(block, t - 14), Schedule(block, t - 16))
  }

  function Mix(w3: Word, w8: Word, w14: Word, w16: Word): Word {
    S(1, w3 ^ w8 ^ w14 ^ w16)
  }

  function Round(t: nat, s: State, w: Word): State {
    State(Temp(s, F(t, s.b, s.c, s.d), w, K(t)), s.a, S(30, s.b), s.c, s.d)
  }

  function Temp(s: State, f: Word, w: Word, k: Word): Word {
    S(5, s.a) + f + s.e + w + k
  }

  /** The state before round t. */
  function Rounds(block: seq<Word>, h: State, t: nat): State
    requires |block| == 16
  {
    if t == 0 then h else Round(t - 1, Rounds(block, h, t - 1), Schedule(block, t - 1))
  }

  function Plus(h: State, s: State): State {
    State(h.a + s.a, h.b + s.b, h.c + s.c, h.d + s.d, h.e + s.e)
  }

  function BigWord(m: seq<Octet>): Word
    requires |m| == 4
  {
    (m[0] as Word << 24) | (m[1] as Word << 16) | (m[2] as Word << 8) | m[3] as Word
  }

  function BlockWords(m: seq<Octet>): (w: seq<Word>)
    requires |m| == 64
    ensures |w| == 16
  {
    seq(16, i requires 0 <= i < 16 => BigWord(m[4 * i..4 * i + 4]))
  }

  function Compress(h: State, m: seq<Octet>): State
    requires |m| == 64
  {
    Plus(h, Rounds(BlockWords(m), h, 80))
  }

  const INIT := State(0x67452301, 0xEFCDAB89, 0x98BADCFE, 0x10325476, 0xC3D2E1F0)

  /** The chaining value behind whole blocks. */
  function Chain(data: seq<Octet>): State
    requires |data| % 64 == 0
  {
    if data == [] then INIT else Compress(Chain(data[..|data| - 64]), data[|data| - 64..])
  }

  /** The 64-bit length field: the low eight octets, most significant first. */
  function LengthField(bits: nat): (s: seq<Octet>)
    ensures |s| == 8
  {
    seq(8, i requires 0 <= i < 8 => OctetOf(bits, 7 - i))
  }

  function WordOctets(w: Word): (s: seq<Octet>)
    ensures |s| == 4
  {
    [((w >> 24) & 0xFF) as Octet, ((w >> 16) & 0xFF) as Octet, ((w >> 8) & 0xFF) as Octet, (w & 0xFF) as Octet]
  }

  function StateOctets(s: State): (d: seq<Octet>)
    ensures |d| == 20
  {
    WordOctets(s.a) + WordOctets(s.b) + WordOctets(s.c) + WordOctets(s.d) + WordOctets(s.e)
  }

  function Digest(message: seq<Octet>): seq<Octet> {
    StateOctets(Chain(Padded(message, LengthField(8 * |message|))))
  }

  // ----- the 16-word circular schedule (section 8) -----

  /** Sixteen consecutive schedule words starting at `from`, each in its slot modulo 16. */
  ghost predicate Circular(w: seq<Word>, block: seq<Word>, from: nat)
    requires |block| == 16
  {
    |w| == 16 && forall t | from <= t < from + 16 :: w[t % 16] == Schedule(block, t)
  }

  /** The slots of (s + 13) & 15 and so on are those of the words 3, 8, 14 and 16 back. */
  lemma Slots(t: nat)
    requires t >= 16
    ensures (t % 16 + 13) % 16 == (t - 3) % 16 && (t % 16 + 8) % 16 == (t - 8) % 16
    ensures (t % 16 + 2) % 16 == (t - 14) % 16 && t % 16 == (t - 16) % 16
  {
    Slot(t, 3);
    Slot(t, 8);
    Slot(t, 14);
    Slot(t, 16);
  }

  lemma Slot(t: nat, back: nat)
    requires back <= 16 <= t
    ensures (t % 16 + (16 - back)) % 16 == (t - back) % 16
  {
  }

  lemma OtherSlot(i: nat, t: nat)
    requires i < t < i + 16
    ensures i % 16 != t % 16
  {
  }

  lemma SlotWord(w: seq<Word>, block: seq<Word>, from: nat, t: nat, slot: nat)
    requires |block| == 16 && Circular(w, block, from) && from <= t < from + 16 && slot == t % 16
    ensures |w| == 16 && w[slot] == Schedule(block, t)
  {
  }

  lemma ScheduleAt(block: seq<Word>, t: nat)
    requires |block| == 16 && t >= 16
    ensures Schedule(block, t) == Mix(Schedule(block, t - 3), Schedule(block, t - 8), Schedule(block, t - 14), Schedule(block, t - 16))
  {
    hide Mix;
  }

  /** Overwriting the oldest word moves the window by one. */
  lemma Moved(w: seq<Word>, block: seq<Word>, t: nat, slot: nat)
    requires t >= 16 && |block| == 16 && Circular(w, block, t - 16) && slot == t % 16
    ensures Circular(w[slot := Schedule(block, t)], block, t - 15)
  {
    hide Schedule;
    forall i | t - 15 <= i < t + 1 ensures w[slot := Schedule(block, t)][i % 16] == Schedule(block, i) {
      if i < t {
        OtherSlot(i, t);
      }
    }
  }

  /** The expression of section 8 on the circular buffer is the next schedule word. */
  method Expand(w: array<Word>, t: nat, ghost block: seq<Word>)
    requires t >= 16 && |block| == 16 && Circular(w[..], block, t - 16)
    modifies w
    ensures Circular(w[..], block, t - 15)
  {
    var s := t % 16;
    Slots(t);
    SlotWord(w[..], block, t - 16, t - 3, (s + 13) % 16);
    SlotWord(w[..], block, t - 16, t - 8, (s + 8) % 16);
    SlotWord(w[..], block, t - 16, t - 14, (s + 2) % 16);
    SlotWord(w[..], block, t - 16, t - 16, s);
    ScheduleAt(block, t);
    Moved(w[..], block, t, s);
    hide Mix, Circular, Schedule;
    ghost var was := w[..];
    w[s] := Mix(w[(s + 13) % 16], w[(s + 8) % 16], w[(s + 2) % 16], w[s]);
    assert w[..] == was[s := Schedule(block, t)];
  }

  // ----- sha1_step -----

  /** A word of memory on the little-endian host. */
  function HostWord(m: seq<Octet>): Word
    requires |m| == 4
  {
    (m[3] as Word << 24) | (m[2] as Word << 16) | (m[1] as Word << 8) | m[0] as Word
  }

  /** The byte swap at the head of sha1_step, followed by a host load, reads big-endian words. */
  method LoadWords(m: array<Octet>) returns (w: array<Word>)
    requires m.Length == 64
    modifies m
    ensures fresh(w) && w[..] == BlockWords(old(m[..]))
  {
    ghost var was := m[..];
    var tctxt := m[..];
    forall i | 0 <= i < 64 {
      m[i] := tctxt[i / 4 * 4 + 3 - i % 4];
    }
    w := new Word[16](i requires 0 <= i < 16 reads m => HostWord(m[4 * i..4 * i + 4]));
    forall i | 0 <= i < 16 ensures w[i] == BigWord(was[4 * i..4 * i + 4]) {
      SwappedWord(was, m[..], i);
    }
  }

  lemma SwappedWord(was: seq<Octet>, now: seq<Octet>, i: nat)
    requires i < 16 && |was| == |now| == 64 && forall j | 0 <= j < 64 :: now[j] == was[j / 4 * 4 + 3 - j % 4]
    ensures HostWord(now[4 * i..4 * i + 4]) == BigWord(was[4 * i..4 * i + 4])
  {
    hide HostWord, BigWord;
    var a, b := now[4 * i..4 * i + 4], was[4 * i..4 * i + 4];
    forall k | 0 <= k < 4 ensures a[k] == b[3 - k] {
      InGroup(i, k);
      assert now[4 * i + k] == was[4 * i + 3 - k];
    }
    Mirrored(a, b);
  }

  lemma InGroup(i: nat, k: nat)
    requires k < 4
    ensures (4 * i + k) / 4 * 4 + 3 - (4 * i + k) % 4 == 4 * i + 3 - k
  {
  }

  lemma Mirrored(a: seq<Octet>, b: seq<Octet>)
    requires |a| == |b| == 4 && a[0] == b[3] && a[1] == b[2] && a[2] == b[1] && a[3] == b[0]
    ensures HostWord(a) == BigWord(b)
  {
  }

  const K_TABLE: seq<Word> := [0x5A827999, 0x6ED9EBA1, 0x8F1BBCDC, 0xCA62C1D6]

  lemma KTable(t: nat)
    requires t < 80
    ensures K_TABLE[t / 20] == K(t)
  {
  }

  /** tmp = S(5, a) + F(b, c, d) + e + W(s) + K(t), and the rotation of the five variables. */
  method OneRound(t: nat, s: State, w: Word) returns (r: State)
    requires t < 80
    ensures r == Round(t, s, w)
  {
    var State(a, b, c, d, e) := s;
    KTable(t);
    hide S, F, K, Temp, K_TABLE;
    var tmp := Temp(s, F(t, b, c, d), w, K_TABLE[t / 20]);
    e := d;
    d := c;
    c := S(30, b);
    b := a;
    a := tmp;
    r := State(a, b, c, d, e);
  }

  lemma WindowStart(w: seq<Word>, block: seq<Word>)
    requires |block| == 16 && w == block
    ensures Circular(w, block, 0)
  {
  }

  /** The four loops of sha1_step; only the first has rounds that do not expand the schedule. */
  method AllRounds(w: array<Word>, h: State) returns (s: State)
    requires w.Length == 16
    modifies w
    ensures s == Rounds(old(w[..]), h, 80)
  {
    ghost var block := w[..];
    WindowStart(w[..], block);
    s := h;
    hide Circular, Rounds, Schedule, Round;
    FirstRound(block, h);
    for t := 0 to 80
      invariant w.Length == 16 && Circular(w[..], block, if t <= 16 then 0 else t - 16)
      invariant s == Rounds(block, h, t)
    {
      s := ExpandAndRound(w, t, s, block, h);
    }
  }

  lemma FirstRound(block: seq<Word>, h: State)
    requires |block| == 16
    ensures Rounds(block, h, 0) == h
  {
  }

  lemma NextRound(block: seq<Word>, h: State, t: nat)
    requires |block| == 16
    ensures Rounds(block, h, t + 1) == Round(t, Rounds(block, h, t), Schedule(block, t))
  {
  }

  method ExpandAndRound(w: array<Word>, t: nat, s: State, ghost block: seq<Word>, ghost h: State) returns (r: State)
    requires t < 80 && |block| == 16 && Circular(w[..], block, if t <= 16 then 0 else t - 16)
    requires s == Rounds(block, h, t)
    modifies w
    ensures Circular(w[..], block, if t + 1 <= 16 then 0 else t - 15)
    ensures r == Rounds(block, h, t + 1)
  {
    hide Rounds, Schedule, Round, Circular;
    if t >= 16 {
      Expand(w, t, block);
    }
    SlotWord(w[..], block, if t < 16 then 0 else t - 15, t, t % 16);
    r := OneRound(t, s, w[t % 16]);
    NextRound(block, h, t);
  }

  // ----- the context -----

  lemma ChainNext(data: seq<Octet>, m: seq<Octet>)
    requires |data| % 64 == 0 && |m| == 64
    ensures Chain(data + m) == Compress(Chain(data), m)
  {
    hide Compress;
    assert (data + m)[..|data + m| - 64] == data && (data + m)[|data + m| - 64..] == m;
  }

  lemma NoBlocks()
    ensures Chain([]) == INIT
  {
  }

  class Context {
    var h: State
    var bits: nat
    const m: array<Octet>
    var count: nat
    ghost var seen: seq<Octet>

    /** The octets so far: whole blocks are in h, the rest is in m. */
    ghost predicate Absorbed()
      reads this`h, this`count, this`seen, m
    {
      && m.Length == 64 && count == |seen| % 64
      && Written(m, seen[|seen| - count..])
      && h == Chain(seen[..|seen| - count])
    }

    /** The bit count wraps at 64 bits. */
    ghost predicate Valid()
      reads this, m
    {
      Absorbed() && bits == 8 * |seen| % 0x1_0000_0000_0000_0000
    }

    /** sha1_init */
    constructor ()
      ensures Valid() && seen == [] && fresh(m)
    {
      h := INIT;
      bits := 0;
      count := 0;
      seen := [];
      m := new Octet[64](i => 0);
      new;
      hide Chain, Absorbed;
      NoBlocks();
      SettledWhole();
    }

    /** sha1_step on a full buffer. */
    method Step(ghost before: seq<Octet>)
      requires m.Length == 64 && |before| % 64 == 0 && h == Chain(before)
      modifies this`h, m
      ensures h == Chain(before + old(m[..]))
    {
      hide Compress, Chain, Rounds, BlockWords;
      ChainNext(before, m[..]);
      var w := LoadWords(m);
      var s := AllRounds(w, h);
      CompressIs(h, old(m[..]), s);
      h := Plus(h, s);
      forall i | 0 <= i < 64 {
        m[i] := 0;
      }
    }

    /** memcpy into the buffer behind what it holds. */
    method Fill(x: seq<Octet>, ghost part: seq<Octet>)
      requires m.Length == 64 && Written(m, part) && count == |part| && count + |x| <= 64
      modifies m
      ensures Written(m, part + x)
    {
      forall i | 0 <= i < |x| {
        m[count + i] := x[i];
      }
    }

    /** Copy into the buffer, advance the count modulo 64, and process a full buffer. */
    method Absorb(x: seq<Octet>)
      requires Absorbed() && 0 < |x| && count + |x| <= 64
      modifies this`h, this`count, this`seen, m
      ensures Absorbed() && seen == old(seen) + x && count == |seen| % 64
    {
      hide Chain, Written, Absorbed;
      ghost var whole, part := Parts();
      Associative(whole, part, x);
      Fill(x, part);
      CountIsRemainder(|seen|, count, |x|);
      count := (count + |x|) % 64;
      seen := seen + x;
      if count == 0 {
        FullArray(m, part + x);
        Step(whole);
        SettledWhole();
      } else {
        SettledPart(whole, part + x);
      }
    }

    lemma Parts() returns (whole: seq<Octet>, part: seq<Octet>)
      requires Absorbed()
      ensures m.Length == 64 && count == |part| == |seen| % 64 && |whole| % 64 == 0
      ensures seen == whole + part && Written(m, part) && h == Chain(whole)
    {
      hide Chain, Written;
      whole, part := seen[..|seen| - count], seen[|seen| - count..];
      assert seen == whole + part;
    }

    lemma SettledWhole()
      requires m.Length == 64 && count == 0 && |seen| % 64 == 0 && h == Chain(seen)
      ensures Absorbed()
    {
      hide Chain;
      assert seen[..|seen|] == seen && seen[|seen|..] == [];
    }

    lemma SettledPart(whole: seq<Octet>, part: seq<Octet>)
      requires m.Length == 64 && count == |part| < 64 && |whole| % 64 == 0 && seen == whole + part
      requires Written(m, part) && h == Chain(whole)
      ensures Absorbed()
    {
      hide Chain, Written;
      Cut(whole, part);
    }

    lemma CountBelow()
      requires Absorbed()
      ensures count == |seen| % 64
    {
    }

    /** sha1_loop */
    method Loop(input: seq<Octet>)
      requires Valid()
      modifies this`h, this`count, this`seen, this`bits, m
      ensures Valid() && seen == old(seen) + input
    {
      var off := 0;
      hide Absorbed;
      assert Absorbed() && seen == seen + input[..0];
      while off < |input|
        invariant 0 <= off <= |input| && Valid() && seen == old(seen) + input[..off]
      {
        var gaplen := 64 - count;
        var copysiz := if gaplen < |input| - off then gaplen else |input| - off;
        CountBelow();
        Absorb(input[off..off + copysiz]);
        BitsAdd(|seen| - copysiz, copysiz);
        bits := (bits + copysiz * 8) % 0x1_0000_0000_0000_0000;
        assert input[..off] + input[off..off + copysiz] == input[..off + copysiz];
        Associative(old(seen), input[..off], input[off..off + copysiz]);
        off := off + copysiz;
      }
      assert input[..off] == input;
    }

    /** sha1_pad: one block or two, as the standard pads. */
    method Pad()
      requires Valid()
      modifies this`h, this`count, this`seen, m
      ensures Absorbed() && count == 0 && seen == Padded(old(seen), LengthField(8 * |old(seen)|))
    {
      hide Absorbed, LengthField, Zeros;
      ghost var message := seen;
      CountBelow();
      Absorb([0x80]);
      PadZeros();
      assert (56 - |message + [0x80]|) % 64 == (55 - |message|) % 64;
      LengthOctets(8 * |message|);
      PutLength(LengthField(8 * |message|));
    }

    /** Zeros up to octet 56 of a block; less than eight octets of room take a block more. */
    method PadZeros()
      requires Absorbed()
      modifies this`h, this`count, this`seen, m
      ensures Absorbed() && count == 56 && seen == old(seen) + Zeros((56 - |old(seen)|) % 64)
    {
      hide Absorbed, Zeros;
      CountBelow();
      RoomLeft(|seen|);
      var padstart := count;
      var padlen := 64 - padstart;
      if padlen < 8 {
        NewBlock(padlen);
      } else {
        ZeroFill(padlen - 8);
      }
    }

    method NewBlock(padlen: nat)
      requires Absorbed() && 0 < padlen == 64 - count == 64 - |seen| % 64
      modifies this`h, this`count, this`seen, m
      ensures Absorbed() && count == 56 && seen == old(seen) + Zeros(padlen + 56)
    {
      hide Absorbed, Zeros;
      FullBlock(|seen|, padlen);
      Absorb(Zeros(padlen));
      ZeroFill(56);
      ZerosJoin(padlen, 56);
      Associative(old(seen), Zeros(padlen), Zeros(56));
    }

    method ZeroFill(n: nat)
      requires Absorbed() && count + n == 56 && count == |seen| % 64
      modifies this`h, this`count, this`seen, m
      ensures Absorbed() && count == 56 && seen == old(seen) + Zeros(n)
    {
      hide Absorbed, Zeros;
      CountIsRemainder(|seen|, count, n);
      if n > 0 {
        Absorb(Zeros(n));
      } else {
        ZerosJoin(0, 0);
        assert seen + [] == seen;
      }
    }

    /** The eight octets of the length, from the last one in memory to the first. */
    method PutLength(ghost field: seq<Octet>)
      requires Absorbed() && count == 56 == |seen| % 64
      requires |field| == 8 && forall i | 0 <= i < 8 :: field[i] == OctetOf(bits, 7 - i)
      modifies this`h, this`count, this`seen, m
      ensures Absorbed() && count == 0 && seen == old(seen) + field
    {
      hide Absorbed, OctetOf;
      var i := 0;
      ghost var start := seen;
      assert start + field[..0] == start;
      while i < 8
        invariant 0 <= i <= 8 && Absorbed() && count == (if i == 8 then 0 else 56 + i) == |seen| % 64 && seen == start + field[..i]
      {
        PutLengthOctet(OctetOf(bits, 7 - i), i, start, field);
        i := i + 1;
      }
      assert field[..8] == field;
    }

    method PutLengthOctet(octet: Octet, i: nat, ghost start: seq<Octet>, ghost field: seq<Octet>)
      requires i < |field| == 8 && field[i] == octet && Absorbed() && count == 56 + i == |seen| % 64 && seen == start + field[..i]
      modifies this`h, this`count, this`seen, m
      ensures Absorbed() && count == (if i == 7 then 0 else 57 + i) == |seen| % 64 && seen == start + field[..i + 1]
    {
      hide Absorbed;
      CountIsRemainder(|seen|, 56 + i, 1);
      Absorb([octet]);
      Associative(start, field[..i], [octet]);
      assert field[..i] + [octet] == field[..i + 1];
    }

    /** sha1_result: h is host words, and the digest has them most significant octet first. */
    method Result() returns (digest: seq<Octet>)
      requires Valid()
      modifies this`h, this`count, this`seen, m
      ensures digest == Digest(old(seen))
    {
      Pad();
      assert seen[..|seen|] == seen;
      digest := StateOctets(h);
    }
  }

  /** Any division of a message over calls of sha1_loop gives the digest of the whole. */
  method HashPieces(pieces: seq<seq<Octet>>) returns (digest: seq<Octet>)
    ensures digest == Digest(Flatten(pieces))
  {
    var ctx := new Context();
    for i := 0 to |pieces|
      invariant ctx.Valid() && fresh(ctx) && fresh(ctx.m) && ctx.seen == Flatten(pieces[..i])
    {
      ctx.Loop(pieces[i]);
      FlattenSplit(pieces, i);
    }
    assert pieces[..|pieces|] == pieces;
    digest := ctx.Result();
  }

  lemma BitsAdd(n: nat, k: nat)
    ensures (8 * n % 0x1_0000_0000_0000_0000 + k * 8) % 0x1_0000_0000_0000_0000 == 8 * (n + k) % 0x1_0000_0000_0000_0000
  {
  }

  /** Reducing the bit count modulo 2^64 does not change its low eight octets. */
  lemma LengthOctet(bits: nat, k: nat)
    requires k < 8
    ensures bits % 0x1_0000_0000_0000_0000 / Pow256(k) % 256 == bits / Pow256(k) % 256
  {
    PowersOf256();
    var q := [0x100_0000_0000_0000, 0x1_0000_0000_0000, 0x100_0000_0000, 0x1_0000_0000, 0x100_0000, 0x1_0000, 0x100, 1][k];
    assert Pow256(k) * (256 * q) == 0x1_0000_0000_0000_0000;
    MiddleDigit(bits, Pow256(k), q);
  }

  lemma LengthOctets(bits: nat)
    ensures forall i | 0 <= i < 8 ::
              LengthField(bits)[i] == OctetOf(bits % 0x1_0000_0000_0000_0000, 7 - i)
  {
    forall i | 0 <= i < 8
      ensures LengthField(bits)[i] == OctetOf(bits % 0x1_0000_0000_0000_0000, 7 - i)
    {
      LengthOctet(bits, 7 - i);
    }
  }

  lemma CompressIs(h: State, m: seq<Octet>, s: State)
    requires |m| == 64 && s == Rounds(BlockWords(m), h, 80)
    ensures Plus(h, s) == Compress(h, m)
  {
  }
}
