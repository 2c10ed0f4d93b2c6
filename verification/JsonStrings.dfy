/** cJSON's two-pass string printer and string parser, and the UTF-16 to UTF-8 transcoding (RFC 3629). */
module JsonStrings {
  import opened Bytes
  import opened Json

  // ----- print_string_ptr -----

  lemma {:induction false} EscapedAppend(s: string, c: char)
    requires CString(s) && 0 < c as int < 256
    ensures Escaped(s + [c]) == Escaped(s) + EscapeChar(c)
  {
    hide EscapeChar;
    if s == "" {
      assert s + [c] == [c] && [c][1..] == "";
      assert EscapeChar(c) + Escaped([c][1..]) == EscapeChar(c);
      assert Escaped(s) + EscapeChar(c) == EscapeChar(c);
    } else {
      assert (s + [c])[1..] == s[1..] + [c];
      EscapedAppend(s[1..], c);
      Associative(EscapeChar(s[0]), Escaped(s[1..]), EscapeChar(c));
    }
  }

  lemma EscapedNext(s: string, i: nat)
    requires CString(s) && i < |s|
    ensures Escaped(s[..i + 1]) == Escaped(s[..i]) + EscapeChar(s[i])
  {
    hide Escaped, EscapeChar;
    SplitHere(s, i);
    EscapedAppend(s[..i], s[i]);
  }

  /** The first pass. */
  method CountEscaped(str: string) returns (len: nat)
    requires CString(str)
    ensures len == |Escaped(str)|
  {
    var i := 0;
    len := 0;
    while i < |str|
      invariant 0 <= i <= |str| && len == |Escaped(str[..i])|
    {
      EscapedNext(str, i);
      var token := str[i];
      len := len + 1;
      if token == '\"' || token == '\\' || token == '\U{0008}' || token == '\U{000C}'
         || token == '\n' || token == '\r' || token == '\t' {
        len := len + 1;
      } else if token as int < 32 {
        len := len + 5;
      }
      i := i + 1;
    }
    assert str[..i] == str;
  }

  /** sprintf(ptr2, "u%04x", token). */
  method PutHex(out: array<char>, at: nat, token: char, ghost done: string)
    requires Written(out, done) && |done| == at && at + 5 <= out.Length && token as int < 256
    modifies out
    ensures Written(out, done + ['u', '0', '0', HexDigit(token as int / 16), HexDigit(token as int % 16)])
  {
    out[at], out[at + 1], out[at + 2] := 'u', '0', '0';
    out[at + 3], out[at + 4] := HexDigit(token as int / 16), HexDigit(token as int % 16);
  }

  /** The escaping branch of the second pass. */
  method PutEscape(out: array<char>, at: nat, token: char, ghost done: string) returns (n: nat)
    requires 0 < token as int < 256 && (token as int <= 31 || token == '\"' || token == '\\')
    requires Written(out, done) && |done| == at && at + |EscapeChar(token)| <= out.Length
    modifies out
    ensures n == |EscapeChar(token)| && Written(out, done + EscapeChar(token))
  {
    Put(out, at, '\\', done);
    ghost var done1 := done + ['\\'];
    assert done + EscapeChar(token) == done1 + EscapeChar(token)[1..];
    n := 2;
    if token == '\\' || token == '\"' {
      Put(out, at + 1, token, done1);
    } else if token == '\U{0008}' {
      Put(out, at + 1, 'b', done1);
    } else if token == '\U{000C}' {
      Put(out, at + 1, 'f', done1);
    } else if token == '\n' {
      Put(out, at + 1, 'n', done1);
    } else if token == '\r' {
      Put(out, at + 1, 'r', done1);
    } else if token == '\t' {
      Put(out, at + 1, 't', done1);
    } else {
      PutHex(out, at + 1, token, done1);
      n := 6;
    }
  }

  /** print_string_ptr: the buffer sized by the first pass is filled exactly by the second. */
  method PrintStringPtr(str: string) returns (out: array<char>)
    requires CString(str)
    ensures fresh(out) && out[..] == Quoted(str) + ['\0']
  {
    var len := CountEscaped(str);
    out := new char[len + 3];
    Put(out, 0, '\"', "");
    var i, at := 0, 1;
    assert "" + ['\"'] == ['\"'] + Escaped(str[..0]);
    while i < |str|
      invariant 0 <= i <= |str| && at == 1 + |Escaped(str[..i])|
      invariant Written(out, ['\"'] + Escaped(str[..i]))
      invariant fresh(out)
    {
      at := PutNext(out, at, str, i);
      i := i + 1;
    }
    assert str[..i] == str;
    Put(out, at, '\"', ['\"'] + Escaped(str));
    Put(out, at + 1, '\0', (['\"'] + Escaped(str)) + ['\"']);
    Associative(['\"'], Escaped(str), ['\"']);
    assert out[..] == Quoted(str) + ['\0'];
  }

  /** One turn of the second pass. */
  method PutNext(out: array<char>, at: nat, str: string, i: nat) returns (next: nat)
    requires CString(str) && i < |str| && out.Length == |Escaped(str)| + 3
    requires at == 1 + |Escaped(str[..i])| && Written(out, ['\"'] + Escaped(str[..i]))
    modifies out
    ensures next == 1 + |Escaped(str[..i + 1])| && Written(out, ['\"'] + Escaped(str[..i + 1]))
  {
    EscapedNext(str, i);
    EscapedFits(str, i + 1);
    ghost var done := ['\"'] + Escaped(str[..i]);
    Associative(['\"'], Escaped(str[..i]), EscapeChar(str[i]));
    if str[i] as int > 31 && str[i] != '\"' && str[i] != '\\' {
      Put(out, at, str[i], done);
      next := at + 1;
    } else {
      var n := PutEscape(out, at, str[i], done);
      next := at + n;
    }
  }

  lemma {:induction false} EscapedFits(s: string, i: nat)
    requires CString(s) && i <= |s|
    ensures |Escaped(s[..i])| <= |Escaped(s)|
    decreases |s| - i
  {
    hide Escaped, EscapeChar;
    if i < |s| {
      EscapedNext(s, i);
      EscapedFits(s, i + 1);
    } else {
      assert s[..i] == s;
    }
  }

  // ----- UTF-8, read back by the grammar of section 4 of RFC 3629 -----

  predicate Tail(c: char) {
    0x80 <= c as int <= 0xBF
  }

  function Bits(c: char): int {
    c as int % 64
  }

  /** The code point a complete octet sequence stands for; none for sequences outside the grammar, such as overlong
      ones and surrogates. */
  function CodePoint(s: string): Option<nat> {
    if |s| == 1 && s[0] as int <= 0x7F then Some(s[0] as int)
    else if |s| == 2 && 0xC2 <= s[0] as int <= 0xDF && Tail(s[1]) then
      Some((s[0] as int - 0xC0) * 0x40 + Bits(s[1]))
    else if |s| == 3 && Tail(s[1]) && Tail(s[2])
            && (|| (s[0] as int == 0xE0 && s[1] as int >= 0xA0)
                || 0xE1 <= s[0] as int <= 0xEC
                || (s[0] as int == 0xED && s[1] as int <= 0x9F)
                || 0xEE <= s[0] as int <= 0xEF) then
      Some((s[0] as int - 0xE0) * 0x1000 + Bits(s[1]) * 0x40 + Bits(s[2]))
    else if |s| == 4 && Tail(s[1]) && Tail(s[2]) && Tail(s[3])
            && (|| (s[0] as int == 0xF0 && s[1] as int >= 0x90)
                || 0xF1 <= s[0] as int <= 0xF3
                || (s[0] as int == 0xF4 && s[1] as int <= 0x8F)) then
      Some((s[0] as int - 0xF0) * 0x4_0000 + Bits(s[1]) * 0x1000 + Bits(s[2]) * 0x40 + Bits(s[3]))
    else None
  }

  predicate Surrogate(n: nat) {
    0xD800 <= n <= 0xDFFF
  }

  lemma Base64(n: nat)
    ensures n == n / 64 * 64 + n % 64 && (n < 0x11_0000 ==> n / 64 < 0x4400)
  {
  }

  lemma Shifted(n: nat)
    ensures n / 64 / 64 == n / 4096 && n / 4096 / 64 == n / 262144
  {
  }

  lemma ThreeOctets(n: nat)
    requires 0x800 <= n < 0x1_0000 && !Surrogate(n)
    ensures CodePoint(Utf8(n)) == Some(n)
  {
    Base64(n);
    Base64(n / 64);
    Shifted(n);
    ReadThree(n / 4096, n / 64 % 64, n % 64);
  }

  lemma ReadThree(a: nat, b: nat, c: nat)
    requires a < 16 && b < 64 && c < 64 && (a == 0 ==> b >= 0x20) && (a == 13 ==> b < 0x20)
    ensures CodePoint([Chr(0xE0 + a), Chr(0x80 + b), Chr(0x80 + c)]) == Some(a * 0x1000 + b * 0x40 + c)
  {
  }

  lemma FourOctets(n: nat)
    requires 0x1_0000 <= n < 0x11_0000
    ensures CodePoint(Utf8(n)) == Some(n)
  {
    Base64(n);
    Base64(n / 64);
    Base64(n / 4096);
    Shifted(n);
    ReadFour(n / 262144, n / 4096 % 64, n / 64 % 64, n % 64);
  }

  lemma ReadFour(a: nat, b: nat, c: nat, d: nat)
    requires a <= 4 && b < 64 && c < 64 && d < 64 && (a == 0 ==> b >= 0x10) && (a == 4 ==> b < 0x10)
    ensures CodePoint([Chr(0xF0 + a), Chr(0x80 + b), Chr(0x80 + c), Chr(0x80 + d)]) == Some(a * 0x4_0000 + b * 0x1000 + c * 0x40 + d)
  {
  }

  /** The transcoder writes the UTF-8 of every code point. */
  lemma Utf8RoundTrip(n: nat)
    requires n < 0x11_0000 && !Surrogate(n)
    ensures CodePoint(Utf8(n)) == Some(n)
  {
    if n >= 0x1_0000 {
      FourOctets(n);
    } else if n >= 0x800 {
      ThreeOctets(n);
    } else {
      Base64(n);
    }
  }

  /** Four hex digits, of either case, spelling n. */
  predicate Spells(h: string, n: nat) {
    && |h| == 4
    && (forall i | 0 <= i < 4 :: HexValue(h[i]).Some?)
    && n == 4096 * HexValue(h[0]).value + 256 * HexValue(h[1]).value + 16 * HexValue(h[2]).value + HexValue(h[3]).value
  }

  lemma HexSpelled(h: string, n: nat, text: string)
    requires Spells(h, n) && |text| >= 4 && text[..4] == h
    ensures ParseHex4(text) == n
  {
    assert forall i | 0 <= i < 4 :: text[i] == text[..4][i];
    assert text[0] == h[0] && text[1] == h[1] && text[2] == h[2] && text[3] == h[3];
  }

  lemma SpellsLength(h: string, n: nat)
    requires Spells(h, n)
    ensures |h| == 4
  {
  }

  /** An escape in the basic multilingual plane. */
  lemma HexParses(cp: nat, h: string, rest: string)
    requires 0 < cp < 0x1_0000 && !Surrogate(cp) && Spells(h, cp)
    ensures ParseEscape(['u'] + (h + rest)) == Some(Piece(Utf8(cp), rest))
  {
    hide CodePoint, Utf8, ParseHex4, Spells;
    var s := ['u'] + (h + rest);
    SpellsLength(h, cp);
    assert s[1..] == h + rest && s[1..][..4] == h && s[5..] == rest;
    HexSpelled(h, cp, s[1..]);
  }

  lemma EscapeTranscoded(cp: nat, h: string, rest: string)
    requires 0 < cp < 0x1_0000 && !Surrogate(cp) && Spells(h, cp)
    ensures var p := ParseEscape(['u'] + (h + rest));
            p.Some? && p.value.rest == rest && CodePoint(p.value.text) == Some(cp)
  {
    hide CodePoint, Utf8, ParseEscape, Spells;
    HexParses(cp, h, rest);
    Utf8RoundTrip(cp);
  }

  /** A surrogate pair, as section 2.1 of RFC 2781 assigns it to a supplementary code point. */
  lemma PairParses(cp: nat, hi: string, lo: string, rest: string)
    requires 0x1_0000 <= cp < 0x11_0000
    requires Spells(hi, 0xD800 + (cp - 0x1_0000) / 0x400) && Spells(lo, 0xDC00 + (cp - 0x1_0000) % 0x400)
    ensures ParseEscape(['u'] + (hi + (['\\', 'u'] + (lo + rest)))) == Some(Piece(Utf8(cp), rest))
  {
    hide CodePoint, Utf8, ParseHex4, Spells;
    var a, b := 0xD800 + (cp - 0x1_0000) / 0x400, 0xDC00 + (cp - 0x1_0000) % 0x400;
    SpellsLength(hi, a);
    SpellsLength(lo, b);
    var s := ['u'] + (hi + (['\\', 'u'] + (lo + rest)));
    assert s[1..][..4] == hi && s[5] == '\\' && s[6] == 'u' && s[7..] == lo + rest && s[7..][..4] == lo && s[11..] == rest;
    HexSpelled(hi, a, s[1..]);
    HexSpelled(lo, b, s[7..]);
    assert a % 0x400 * 0x400 + b % 0x400 == cp - 0x1_0000;
  }

  lemma PairTranscoded(cp: nat, hi: string, lo: string, rest: string)
    requires 0x1_0000 <= cp < 0x11_0000
    requires Spells(hi, 0xD800 + (cp - 0x1_0000) / 0x400) && Spells(lo, 0xDC00 + (cp - 0x1_0000) % 0x400)
    ensures var p := ParseEscape(['u'] + (hi + (['\\', 'u'] + (lo + rest))));
            p.Some? && p.value.rest == rest && CodePoint(p.value.text) == Some(cp)
  {
    hide CodePoint, Utf8, ParseEscape, Spells;
    PairParses(cp, hi, lo, rest);
    Utf8RoundTrip(cp);
  }

  // ----- parse_string -----

  /** A well-formed literal behind its opening quote: \u takes four hex digits, and the closing quote is there. */
  predicate WellFormed(s: string)
    decreases |s|
  {
    s != ""
    && (if s[0] == '\"' then true
        else if s[0] != '\\' then WellFormed(s[1..])
        else if |s| < 2 then false
        else if s[1] != 'u' then WellFormed(s[2..])
        else |s| >= 6 && (forall i | 2 <= i < 6 :: HexValue(s[i]).Some?) && WellFormed(s[6..]))
  }

  /** The count of the first pass. */
  function Count(s: string): nat
    decreases |s|
  {
    if s == "" || s[0] == '\"' then 0
    else if s[0] == '\\' then 1 + (if |s| < 2 then 0 else Count(s[2..]))
    else 1 + Count(s[1..])
  }

  lemma CountHex(s: string)
    requires |s| >= 4 && forall i | 0 <= i < 4 :: HexValue(s[i]).Some?
    ensures Count(s) == 4 + Count(s[4..])
  {
    assert s[1..][1..] == s[2..] && s[2..][1..] == s[3..] && s[3..][1..] == s[4..];
    assert Count(s) == 1 + Count(s[1..]);
    assert Count(s[1..]) == 1 + Count(s[2..]);
    assert Count(s[2..]) == 1 + Count(s[3..]);
    assert Count(s[3..]) == 1 + Count(s[4..]);
  }

  /** One escape of a well-formed literal: what follows is well-formed, and it writes no more than was counted. */
  lemma EscapeFits(s: string)
    requires WellFormed(s) && s[0] == '\\'
    ensures var e := ParseEscape(s[1..]);
            e.Some? && WellFormed(e.value.rest) && |e.value.text| + Count(e.value.rest) <= Count(s)
  {
    if s[1] == 'u' {
      UnicodeFits(s);
    } else {
      assert s[1..][1..] == s[2..];
    }
  }

  lemma UnicodeFits(s: string)
    requires WellFormed(s) && s[0] == '\\' && s[1] == 'u'
    ensures var e := ParseEscape(s[1..]);
            e.Some? && WellFormed(e.value.rest) && |e.value.text| + Count(e.value.rest) <= Count(s)
  {
    UnicodeCounted(s);
    var t, u := s[1..], s[6..];
    assert t[5..] == u;
    if |u| >= 2 && u[0] == '\\' && u[1] == 'u' {
      UnicodeCounted(u);
      assert t[11..] == u[6..] && t[5] == u[0] && t[6] == u[1];
    }
    hide Utf8, ParseHex4, WellFormed, Count;
  }

  lemma UnicodeCounted(s: string)
    requires WellFormed(s) && |s| >= 2 && s[0] == '\\' && s[1] == 'u'
    ensures |s| >= 6 && WellFormed(s[6..]) && Count(s) == 5 + Count(s[6..])
  {
    CountHex(s[2..]);
    assert s[2..][4..] == s[6..];
  }

  /** On a well-formed literal the second pass succeeds and stays within the count. */
  lemma {:induction false} DecodedFits(s: string)
    requires WellFormed(s)
    ensures var p := ParseChars(s); p.Some? && |p.value.text| <= Count(s)
    decreases |s|
  {
    if s[0] == '\"' {
    } else if s[0] != '\\' {
      DecodedFits(s[1..]);
    } else {
      hide ParseEscape, WellFormed, Count;
      EscapeFits(s);
      DecodedFits(ParseEscape(s[1..]).value.rest);
    }
  }

  /** The transcoding switch writes from the last octet backwards. */
  method PutUtf8(out: array<char>, at: nat, uc0: nat, ghost done: string) returns (len: nat)
    requires uc0 < 0x11_0000 && Written(out, done) && |done| == at && at + |Utf8(uc0)| <= out.Length
    modifies out
    ensures len == |Utf8(uc0)| && Written(out, done + Utf8(uc0))
  {
    var uc := uc0;
    len := 4;
    if uc < 0x80 {
      len := 1;
    } else if uc < 0x800 {
      len := 2;
    } else if uc < 0x1_0000 {
      len := 3;
    }
    Shifted(uc0);
    if len >= 4 {
      out[at + 3] := Chr(0x80 + uc % 64);
      uc := uc / 64;
    }
    if len >= 3 {
      out[at + 2] := Chr(0x80 + uc % 64);
      uc := uc / 64;
    }
    if len >= 2 {
      out[at + 1] := Chr(0x80 + uc % 64);
      uc := uc / 64;
    }
    out[at] := Chr((if len == 1 then 0 else if len == 2 then 0xC0 else if len == 3 then 0xE0 else 0xF0) + uc);
  }

  /** A \u escape, or a pair of them; i is behind the u, and the result is the index behind the escape. */
  method PutUnicode(out: array<char>, at: nat, str: string, i: nat, ghost done: string) returns (n: nat, end: nat)
    requires 0 < i <= |str| && str[i - 1] == 'u'
    requires var e := ParseEscape(str[i - 1..]);
             e.Some? && Written(out, done) && |done| == at && at + |e.value.text| <= out.Length
    modifies out
    ensures var p := ParseEscape(str[i - 1..]).value;
            n == |p.text| && end <= |str| && str[end..] == p.rest && Written(out, done + p.text)
  {
    hide Utf8, ParseHex4;
    ghost var s := str[i - 1..];
    assert s[0] == 'u' && s[1..] == str[i..] && s[5..] == str[i + 4..];
    var uc := ParseHex4(str[i..]);
    n, end := 0, i + 4;
    assert done + "" == done;
    if (0xDC00 <= uc <= 0xDFFF) || uc == 0 {
      return;
    }
    if 0xD800 <= uc <= 0xDBFF {
      if |str| < end + 2 || str[end] != '\\' || str[end + 1] != 'u' {
        return;
      }
      assert s[7..] == str[end + 2..] && s[11..] == str[end + 6..];
      var uc2 := ParseHex4(str[end + 2..]);
      end := end + 6;
      if uc2 < 0xDC00 || uc2 > 0xDFFF {
        return;
      }
      uc := 0x1_0000 + (uc % 0x400 * 0x400 + uc2 % 0x400);
    }
    n := PutUtf8(out, at, uc, done);
  }

  /** One turn of the second pass: a plain character or an escape sequence. */
  method ParseNext(out: array<char>, at: nat, str: string, i: nat, ghost done: string)
    returns (n: nat, end: nat, ghost text: string)
    requires i < |str| && WellFormed(str[i..]) && str[i] != '\"'
    requires Written(out, done) && |done| == at && at + Count(str[i..]) < out.Length
    modifies out
    ensures i < end <= |str| && n == |text| && Written(out, done + text)
    ensures WellFormed(str[end..]) && n + Count(str[end..]) <= Count(str[i..])
    ensures ParseChars(str[i..]) == Before(text, ParseChars(str[end..]))
  {
    if str[i] != '\\' {
      assert str[i..][1..] == str[i + 1..];
      n, end, text := 1, i + 1, [str[i]];
      Put(out, at, str[i], done);
      return;
    }
    EscapeFits(str[i..]);
    ghost var e := ParseEscape(str[i..][1..]).value;
    text := e.text;
    assert str[i..][1..] == str[i + 1..] && str[i + 1..][1..] == str[i + 2..];
    hide WellFormed, Count;
    n, end := 1, i + 2;
    var c := str[i + 1];
    if c == 'b' {
      Put(out, at, '\U{0008}', done);
    } else if c == 'f' {
      Put(out, at, '\U{000C}', done);
    } else if c == 'n' {
      Put(out, at, '\n', done);
    } else if c == 'r' {
      Put(out, at, '\r', done);
    } else if c == 't' {
      Put(out, at, '\t', done);
    } else if c == 'u' {
      hide ParseEscape;
      n, end := PutUnicode(out, at, str, i + 2, done);
    } else {
      Put(out, at, c, done);
    }
  }

  /** No backslash is the last character, so the first pass stays inside. */
  predicate Skippable(s: string)
    decreases |s|
  {
    s != "" && (s[0] == '\"' || (if s[0] == '\\' then |s| >= 2 && Skippable(s[2..]) else Skippable(s[1..])))
  }

  lemma SkippableHex(s: string)
    requires |s| >= 4 && (forall i | 0 <= i < 4 :: HexValue(s[i]).Some?) && Skippable(s[4..])
    ensures Skippable(s)
  {
    assert s[1..][1..] == s[2..] && s[2..][1..] == s[3..] && s[3..][1..] == s[4..];
    assert Skippable(s[3..]);
    assert Skippable(s[2..]);
    assert Skippable(s[1..]);
  }

  lemma {:induction false} WellFormedSkippable(s: string)
    requires WellFormed(s)
    ensures Skippable(s)
    decreases |s|
  {
    if s[0] == '\"' {
    } else if s[0] != '\\' {
      WellFormedSkippable(s[1..]);
    } else if s[1] != 'u' {
      WellFormedSkippable(s[2..]);
    } else {
      WellFormedSkippable(s[6..]);
      assert s[2..][4..] == s[6..];
      SkippableHex(s[2..]);
    }
  }

  /** The first pass of parse_string. */
  method CountLiteral(str: string) returns (len: nat)
    requires WellFormed(str)
    ensures len == Count(str)
  {
    var i := 0;
    len := 0;
    assert str[0..] == str;
    WellFormedSkippable(str);
    while i < |str| && str[i] != '\"'
      invariant i <= |str| && Skippable(str[i..])
      invariant len + Count(str[i..]) == Count(str)
      decreases |str| - i
    {
      assert str[i..][1..] == str[i + 1..];
      if str[i] == '\\' {
        assert str[i..][2..] == str[i + 2..];
      }
      len := len + 1;
      i := i + 1;
      if str[i - 1] == '\\' {
        i := i + 1;
      }
    }
  }

  /** Between two turns of the second pass, with the text `done` in the buffer and str unread from i on. */
  ghost predicate Parsing(out: array<char>, str: string, i: nat, done: string, goal: Option<Piece>)
    reads out
  {
    && i < |str| && WellFormed(str[i..]) && Written(out, done) && |done| + Count(str[i..]) < out.Length
    && goal.Some? && goal == Before(done, ParseChars(str[i..]))
  }

  method ParseOne(out: array<char>, at: nat, str: string, i: nat, ghost done: string, ghost goal: Option<Piece>)
    returns (n: nat, end: nat, ghost text: string)
    requires Parsing(out, str, i, done, goal) && str[i] != '\"' && |done| == at
    modifies out
    ensures i < end && |text| == at + n && Parsing(out, str, end, text, goal)
  {
    hide WellFormed, Count, ParseChars, Written;
    ghost var more;
    n, end, more := ParseNext(out, at, str, i, done);
    text := done + more;
    ghost var p := ParseChars(str[end..]);
    if p.Some? {
      Associative(done, more, p.value.text);
    }
    StillOpen(str[end..]);
  }

  lemma StillOpen(s: string)
    requires WellFormed(s)
    ensures |s| > 0
  {
  }

  /** The second pass, writing into a buffer of the counted size and one for the NUL. */
  method ParseInto(out: array<char>, str: string, ghost goal: Option<Piece>) returns (end: nat)
    requires |str| > 1 && Parsing(out, str, 1, "", goal)
    modifies out
    ensures Written(out, goal.value.text + ['\0']) && end <= |str| && str[end..] == goal.value.rest
  {
    var i, at := 1, 0;
    ghost var done := "";
    while i < |str| && str[i] != '\"'
      invariant i < |str| && |done| == at && Parsing(out, str, i, done, goal)
      decreases |str| - i
    {
      hide Parsing;
      var n: nat;
      n, i, done := ParseOne(out, at, str, i, done, goal);
      at := at + n;
    }
    assert ParseChars(str[i..]) == Some(Piece("", str[i + 1..]));
    assert done + "" == done;
    hide ParseChars, WellFormed;
    Put(out, at, '\0', done);
    end := i + 1;
  }

  /** parse_string: the buffer of the first pass holds what the second decodes, with its NUL. */
  method ParseStringPtr(str: string) returns (ok: bool, out: array<char>, end: nat)
    requires Peek(str) == '\"' ==> WellFormed(str[1..])
    ensures ok <==> ParseString(str).Got?
    ensures ok ==> out.Length == Count(str[1..]) + 1 && Written(out, ParseString(str).value + ['\0'])
    ensures ok ==> end <= |str| && str[end..] == ParseString(str).rest
  {
    end := 0;
    if Peek(str) != '\"' {
      ok := false;
      out := new char[0];
      return;
    }
    ok := true;
    var len := CountLiteral(str[1..]);
    out := new char[len + 1];
    DecodedFits(str[1..]);
    StillOpen(str[1..]);
    ghost var goal := ParseChars(str[1..]);
    assert "" + goal.value.text == goal.value.text;
    end := ParseInto(out, str, goal);
  }
}
