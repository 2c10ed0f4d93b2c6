/** Parsing what the printer wrote gives back the tree, and minifying it gives the unformatted print. */
module JsonRoundTrip {
  import opened Bytes
  import opened Json

  // ----- numbers -----

  function Folded(acc: nat, s: string): nat
    requires forall i | 0 <= i < |s| :: IsDigit(s[i])
  {
    if s == "" then acc else Folded(acc, s[..|s| - 1]) * 10 + DigitValue(s[|s| - 1])
  }

  lemma {:induction false} FoldedDigits(n: nat)
    ensures Folded(0, Digits(n)) == n
  {
    if n < 10 {
      assert Digits(n)[..0] == "";
      assert Folded(0, Digits(n)[..0]) == 0;
    } else {
      FoldedDigits(n / 10);
      assert Digits(n)[..|Digits(n)| - 1] == Digits(n / 10);
    }
  }

  lemma {:induction false} FoldedFront(acc: nat, d: char, s: string)
    requires IsDigit(d) && forall i | 0 <= i < |s| :: IsDigit(s[i])
    ensures Folded(acc * 10 + DigitValue(d), s) == Folded(acc, [d] + s)
    decreases |s|
  {
    if s == "" {
      assert [d] + s == [d] && [d][..0] == "";
      assert Folded(acc, [d][..0]) == acc;
    } else {
      FoldedFront(acc, d, s[..|s| - 1]);
      assert ([d] + s)[..|s|] == [d] + s[..|s| - 1];
    }
  }

  predicate NoDigit(rest: string) {
    rest == "" || !IsDigit(rest[0])
  }

  lemma {:induction false} ParseDigitsOf(acc: nat, s: string, rest: string)
    requires (forall i | 0 <= i < |s| :: IsDigit(s[i])) && NoDigit(rest)
    ensures ParseDigits(acc, s + rest) == (Folded(acc, s), rest)
    decreases |s|
  {
    if s == "" {
      assert s + rest == rest;
    } else {
      assert (s + rest)[0] == s[0] && (s + rest)[1..] == s[1..] + rest;
      ParseDigitsOf(acc * 10 + DigitValue(s[0]), s[1..], rest);
      FoldedFront(acc, s[0], s[1..]);
      assert [s[0]] + s[1..] == s;
    }
  }

  /** What may follow a value. */
  predicate Delimited(rest: string) {
    rest == "" || rest[0] == ',' || rest[0] == ']' || rest[0] == '}'
    || rest[0] == ' ' || rest[0] == '\t' || rest[0] == '\n' || rest[0] == '\r'
  }

  /** The digits of a number, read the way parse_number reads them. */
  lemma DigitsRoundTrip(m: nat, rest: string)
    requires Delimited(rest)
    ensures var t := Digits(m) + rest;
            IsDigit(Peek(t)) && ParseUnsigned(t) == (m, rest)
  {
    var d := Digits(m);
    assert (d + rest)[0] == d[0];
    FoldedDigits(m);
    if m == 0 {
      assert ("0" + rest)[1..] == rest;
    } else {
      ParseDigitsOf(0, d, rest);
      hide ParseDigits, Folded;
    }
  }

  lemma NumberRoundTrip(n: int, rest: string)
    requires Delimited(rest)
    ensures var s := PrintNumber(n) + rest;
            (Peek(s) == '-' || IsDigit(Peek(s))) && ParseNumber(s) == Got(Number(n), rest)
  {
    hide Digits, ParseUnsigned;
    var m: nat := if n < 0 then -n else n;
    DigitsRoundTrip(m, rest);
    var s := PrintNumber(n) + rest;
    if n < 0 {
      assert s[0] == '-' && s[1..] == Digits(m) + rest;
    }
  }

  // ----- strings -----

  /** The three shapes of a printed character. */
  lemma EscapeShapes(c: char)
    requires 0 < c as int < 256
    ensures var e := EscapeChar(c);
            || (e == [c] && c != '\\' && c != '\"')
            || (|e| == 2 && e[0] == '\\' && ParseEscape(e[1..]) == Some(Piece([c], "")) && e[1] != 'u')
            || (e == ['\\', 'u', '0', '0', HexDigit(c as int / 16), HexDigit(c as int % 16)] && c as int < 32)
  {
  }

  lemma CharRoundTrip(c: char, rest: string)
    requires 0 < c as int < 256
    ensures ParseChars(EscapeChar(c) + rest) == Before([c], ParseChars(rest))
  {
    EscapeShapes(c);
    hide EscapeChar;
    var e := EscapeChar(c);
    var s := e + rest;
    assert s[0] == e[0];
    assert s[1..] == e[1..] + rest;
    if |e| == 1 {
    } else if |e| == 2 {
      assert s[1..][0] == e[1] == e[1..][0] && s[1..][1..] == rest;
      assert ParseEscape(s[1..]) == Some(Piece([c], rest));
    } else {
      HexEscape(c, s[1..], rest);
    }
  }

  lemma HexEscape(c: char, t: string, rest: string)
    requires 0 < c as int < 32 && t == ['u', '0', '0', HexDigit(c as int / 16), HexDigit(c as int % 16)] + rest
    ensures ParseEscape(t) == Some(Piece([c], rest))
  {
    assert t[0] == 'u' && t[5..] == rest && t[1..][0] == '0' && t[1..][1] == '0';
    assert t[1..][2] == HexDigit(c as int / 16) && t[1..][3] == HexDigit(c as int % 16);
    assert ParseHex4(t[1..]) == c as int;
  }

  lemma {:induction false} CharsRoundTrip(s: string, rest: string)
    requires CString(s)
    ensures ParseChars(Escaped(s) + (['\"'] + rest)) == Some(Piece(s, rest))
    decreases |s|
  {
    var end := ['\"'] + rest;
    if s == "" {
      assert Escaped(s) + end == end && end[1..] == rest;
    } else {
      hide EscapeChar, ParseChars;
      CharsRoundTrip(s[1..], rest);
      CharRoundTrip(s[0], Escaped(s[1..]) + end);
      Associative(EscapeChar(s[0]), Escaped(s[1..]), end);
      assert [s[0]] + s[1..] == s;
    }
  }

  lemma StringRoundTrip(s: string, rest: string)
    requires CString(s)
    ensures ParseString(Quoted(s) + rest) == Got(s, rest)
    ensures Quoted(s) + rest != "" && (Quoted(s) + rest)[0] == '\"'
  {
    hide ParseChars, Escaped;
    var t := Quoted(s) + rest;
    CharsRoundTrip(s, rest);
    assert t[1..] == Escaped(s) + (['\"'] + rest);
  }

  // ----- values -----

  predicate Blank(w: string) {
    forall i | 0 <= i < |w| :: w[i] as int <= 32
  }

  lemma {:induction false} SkipBlank(w: string, s: string)
    requires Blank(w)
    ensures Skip(w + s) == Skip(s)
    decreases |w|
  {
    if w == "" {
      assert w + s == s;
    } else {
      assert (w + s)[0] == w[0] && (w + s)[1..] == w[1..] + s;
      SkipBlank(w[1..], s);
    }
  }

  /** Text at which skipping stops at once. */
  predicate Solid(s: string) {
    s != "" && s[0] as int > 32
  }

  lemma FirstChar(v: Value, depth: nat, fmt: bool)
    requires Printable(v)
    ensures var p := Print(v, depth, fmt); Solid(p) && p[0] != ']' && p[0] != '}'
  {
    match v {
      case Number(n) =>
        assert n < 0 ==> PrintNumber(n)[0] == '-';
      case _ =>
    }
  }

  /** No printed value but the literals can be taken for one of them. */
  lemma NotALiteral(s: string)
    requires s != "" && s[0] != 'n' && s[0] != 'f' && s[0] != 't'
    ensures !Starts(s, "null") && !Starts(s, "false") && !Starts(s, "true")
  {
  }

  lemma LiteralRoundTrip(rest: string)
    ensures ParseValue("null" + rest) == Got(Null, rest)
    ensures ParseValue("false" + rest) == Got(False, rest)
    ensures ParseValue("true" + rest) == Got(True, rest)
  {
    var n, f, t := "null" + rest, "false" + rest, "true" + rest;
    assert n[..4] == "null" && n[4..] == rest;
    assert f[..5] == "false" && f[5..] == rest;
    assert t[..4] == "true" && t[4..] == rest;
    assert f[..4][0] == 'f' && t[..4][0] == 't' && (|t| >= 5 ==> t[..5][0] == 't');
  }

  lemma ParseValueNumber(s: string)
    requires Peek(s) == '-' || IsDigit(Peek(s))
    ensures ParseValue(s) == ParseNumber(s)
  {
    NotALiteral(s);
  }

  lemma ParseValueString(s: string, t: string, rest: string)
    requires Peek(s) == '"' && ParseString(s) == Got(t, rest)
    ensures ParseValue(s) == Got(Str(t), rest)
  {
    NotALiteral(s);
  }

  lemma SkipSolid(s: string)
    requires Solid(s)
    ensures Skip(s) == s
  {
  }

  lemma ParseValueArray(body: string, items: Items, rest: string)
    requires Solid(body) && body[0] != ']' && ParseItems(body) == Got(items, rest)
    ensures ParseValue(['['] + body) == Got(Array(items), rest)
  {
    var s := ['['] + body;
    NotALiteral(s);
    SkipSolid(body);
    assert s[1..] == body;
    hide Skip, ParseItems, ParseMembers, ParseString, ParseNumber, Starts;
  }

  lemma {:induction false} SkipTwice(s: string)
    ensures Skip(Skip(s)) == Skip(s)
    decreases |s|
  {
    if s != "" && s[0] as int <= 32 {
      SkipTwice(s[1..]);
    }
  }

  lemma ParseValueObject(text: string, ms: Members, rest: string)
    requires Peek(Skip(text)) == '\"' && ParseMembers(text) == Got(ms, rest)
    ensures ParseValue(['{'] + text) == Got(Object(ms), rest)
  {
    var s := ['{'] + text;
    NotALiteral(s);
    assert s[1..] == text;
    SkipTwice(text);
    assert ParseMembers(Skip(text)) == ParseMembers(text);
  }

  lemma ParseValueEmpty(w: string, rest: string)
    requires Blank(w)
    ensures ParseValue(['['] + (w + ([']'] + rest))) == Got(Array(NoItems), rest)
    ensures ParseValue(['{'] + (w + (['}'] + rest))) == Got(Object(NoMembers), rest)
  {
    var a, o := ['['] + (w + ([']'] + rest)), ['{'] + (w + (['}'] + rest));
    NotALiteral(a);
    NotALiteral(o);
    assert a[1..] == w + ([']'] + rest) && o[1..] == w + (['}'] + rest);
    SkipBlank(w, [']'] + rest);
    SkipBlank(w, ['}'] + rest);
    assert ([']'] + rest)[1..] == rest && (['}'] + rest)[1..] == rest;
  }

  /** One step of the two list loops, in the three shapes the printer produces. */
  lemma ParseLastItem(p: string, v: Value, rest: string)
    requires Solid(p) && ParseValue(p) == Got(v, [']'] + rest)
    ensures ParseItems(p) == Got(Item(v, NoItems), rest)
  {
    assert ([']'] + rest)[1..] == rest;
  }

  lemma ParseNextItem(p: string, v: Value, w: string, body: string, items: Items, rest: string)
    requires Solid(p) && Blank(w) && ParseValue(p) == Got(v, [','] + (w + body)) && ParseItems(body) == Got(items, rest)
    ensures ParseItems(p) == Got(Item(v, items), rest)
  {
    var more := [','] + (w + body);
    assert more[1..] == w + body;
    SkipBlank(w, body);
    assert ParseItems(w + body) == ParseItems(body);
  }

  /** The part of a member in front of its value. */
  lemma ParseMemberHead(w: string, name: string, w2: string, val: string, v: Value, more: string)
    requires CString(name) && Blank(w) && Blank(w2) && Solid(val) && ParseValue(val) == Got(v, more)
    ensures var s := w + (Quoted(name) + ([':'] + (w2 + val)));
            && Skip(s) == Quoted(name) + ([':'] + (w2 + val))
            && ParseString(Skip(s)) == Got(name, [':'] + (w2 + val))
            && Skip([':'] + (w2 + val)) == [':'] + (w2 + val)
            && ParseValue(Skip(([':'] + (w2 + val))[1..])) == Got(v, more)
  {
    hide Quoted, ParseString, ParseValue;
    var colon := [':'] + (w2 + val);
    StringRoundTrip(name, colon);
    SkipBlank(w, Quoted(name) + colon);
    SkipBlank(w2, val);
    assert colon[1..] == w2 + val;
  }

  lemma ParseLastMember(w: string, name: string, w2: string, val: string, v: Value, w3: string, rest: string)
    requires CString(name) && Blank(w) && Blank(w2) && Blank(w3) && Solid(val) && ParseValue(val) == Got(v, w3 + (['}'] + rest))
    ensures ParseMembers(w + (Quoted(name) + ([':'] + (w2 + val)))) == Got(Member(name, v, NoMembers), rest)
  {
    hide Quoted, ParseString, ParseValue;
    ParseMemberHead(w, name, w2, val, v, w3 + (['}'] + rest));
    SkipBlank(w3, ['}'] + rest);
    assert (['}'] + rest)[1..] == rest;
  }

  lemma ParseNextMember(w: string, name: string, w2: string, val: string, v: Value, body: string, ms: Members, rest: string)
    requires CString(name) && Blank(w) && Blank(w2) && Solid(val)
    requires ParseValue(val) == Got(v, [','] + body) && ParseMembers(body) == Got(ms, rest)
    ensures ParseMembers(w + (Quoted(name) + ([':'] + (w2 + val)))) == Got(Member(name, v, ms), rest)
  {
    hide Quoted, ParseString, ParseValue;
    ParseMemberHead(w, name, w2, val, v, [','] + body);
    assert ([','] + body)[1..] == body;
  }

  lemma TabsBlank(n: int)
    ensures Blank(Tabs(n)) && Blank(['\n'] + Tabs(n))
  {
  }

  /** The main result: parsing a print gives the tree and leaves exactly what followed. */
  lemma {:induction false} ValueRoundTrip(v: Value, depth: nat, fmt: bool, rest: string)
    requires Printable(v) && Delimited(rest)
    ensures ParseValue(Print(v, depth, fmt) + rest) == Got(v, rest)
    decreases v, 1
  {
    match v {
      case Array(items) => ArrayRoundTrip(v, depth, fmt, rest);
      case Object(ms) => ObjectRoundTrip(v, depth, fmt, rest);
      case _ => ScalarRoundTrip(v, depth, fmt, rest);
    }
  }

  lemma ScalarRoundTrip(v: Value, depth: nat, fmt: bool, rest: string)
    requires Printable(v) && Delimited(rest) && !v.Array? && !v.Object?
    ensures ParseValue(Print(v, depth, fmt) + rest) == Got(v, rest)
  {
    hide ParseValue, ParseNumber, ParseString, PrintNumber, Quoted;
    match v {
      case Number(n) =>
        NumberRoundTrip(n, rest);
        ParseValueNumber(PrintNumber(n) + rest);
      case Str(s) =>
        StringRoundTrip(s, rest);
        ParseValueString(Quoted(s) + rest, s, rest);
      case _ =>
        LiteralRoundTrip(rest);
    }
  }

  lemma {:induction false} ArrayRoundTrip(v: Value, depth: nat, fmt: bool, rest: string)
    requires Printable(v) && v.Array?
    ensures ParseValue(Print(v, depth, fmt) + rest) == Got(v, rest)
    decreases v, 0
  {
    hide ParseValue, ParseItems, PrintItems;
    var items := v.items;
    if items.NoItems? {
      ParseValueEmpty("", rest);
      assert "[]" + rest == ['['] + ("" + ([']'] + rest));
    } else {
      var body := PrintItems(items, depth + 1, fmt);
      ItemsRoundTrip(items, depth + 1, fmt, rest);
      Associative(['['], body + [']'], rest);
      Associative(body, [']'], rest);
      ParseValueArray(body + ([']'] + rest), items, rest);
    }
  }

  lemma {:induction false} ItemsRoundTrip(items: Items, depth: nat, fmt: bool, rest: string)
    requires PrintableItems(items) && items.Item?
    ensures var p := PrintItems(items, depth, fmt) + ([']'] + rest);
            Solid(p) && p[0] != ']' && ParseItems(p) == Got(items, rest)
    decreases items
  {
    hide ParseValue, ParseItems, Print;
    var Item(v, tail) := items;
    var p := Print(v, depth, fmt);
    FirstChar(v, depth, fmt);
    var end := [']'] + rest;
    if tail.NoItems? {
      ValueRoundTrip(v, depth, fmt, end);
      assert PrintItems(items, depth, fmt) + end == p + end;
      ParseLastItem(p + end, v, rest);
    } else {
      var w, body := If(fmt, [' ']), PrintItems(tail, depth, fmt);
      ItemsRoundTrip(tail, depth, fmt, rest);
      var more := [','] + (w + (body + end));
      ValueRoundTrip(v, depth, fmt, more);
      assert PrintItems(items, depth, fmt) + end == p + more by {
        Associative(p, [','] + (w + body), end);
        Associative([','], w + body, end);
        Associative(w, body, end);
      }
      ParseNextItem(p + more, v, w, body + end, tail, rest);
    }
  }

  lemma Nest(a: string, b: string, c: string, d: string, e: string, x: string)
    ensures (a + (b + (c + (d + e)))) + x == a + (b + (c + (d + (e + x))))
  {
    Associative(a, b + (c + (d + e)), x);
    Associative(b, c + (d + e), x);
    Associative(c, d + e, x);
    Associative(d, e, x);
  }

  lemma {:induction false} ObjectRoundTrip(v: Value, depth: nat, fmt: bool, rest: string)
    requires Printable(v) && v.Object?
    ensures ParseValue(Print(v, depth, fmt) + rest) == Got(v, rest)
    decreases v, 0
  {
    hide ParseValue, ParseMembers, PrintMembers;
    var ms := v.members;
    if ms.NoMembers? {
      var w := If(fmt, ['\n'] + Tabs(depth - 1));
      TabsBlank(depth - 1);
      ParseValueEmpty(w, rest);
      Associative(['{'], w + ['}'], rest);
      Associative(w, ['}'], rest);
    } else {
      var w, body, w3 := If(fmt, ['\n']), PrintMembers(ms, depth + 1, fmt), If(fmt, Tabs(depth));
      TabsBlank(depth);
      MembersRoundTrip(ms, depth + 1, fmt, w, w3, rest);
      Nest(['{'], w, body, w3, ['}'], rest);
      ParseValueObject(w + (body + (w3 + (['}'] + rest))), ms, rest);
    }
  }

  /** `w` is the blank in front of the list, `w3` the one in front of the closing brace. */
  lemma {:induction false} MembersRoundTrip(ms: Members, depth: nat, fmt: bool, w: string, w3: string, rest: string)
    requires PrintableMembers(ms) && ms.Member? && Blank(w) && Blank(w3) && (!fmt ==> w3 == "")
    ensures var p := w + (PrintMembers(ms, depth, fmt) + (w3 + (['}'] + rest)));
            Peek(Skip(p)) == '\"' && ParseMembers(p) == Got(ms, rest)
    decreases ms
  {
    hide ParseValue, ParseMembers, Print, Quoted, ParseString;
    var Member(name, v, tail) := ms;
    var t, w2, val := If(fmt, Tabs(depth)), If(fmt, ['\t']), Print(v, depth, fmt);
    var end := w3 + (['}'] + rest);
    TabsBlank(depth);
    FirstChar(v, depth, fmt);
    if tail.NoMembers? {
      var nl := If(fmt, ['\n']);
      Nest(t, Quoted(name), [':'], w2, val + nl, end);
      Associative(val, nl, end);
      Associative(nl, w3, ['}'] + rest);
      assert (nl + end)[0] == if fmt then '\n' else '}';
      Associative(w, t, Quoted(name) + ([':'] + (w2 + (val + (nl + end)))));
      ValueRoundTrip(v, depth, fmt, nl + end);
      ParseMemberHead(w + t, name, w2, val + (nl + end), v, nl + end);
      StringRoundTrip(name, [':'] + (w2 + (val + (nl + end))));
      ParseLastMember(w + t, name, w2, val + (nl + end), v, nl + w3, rest);
    } else {
      var nl, body := If(fmt, ['\n']), PrintMembers(tail, depth, fmt);
      var next := nl + (body + end);
      MembersRoundTrip(tail, depth, fmt, nl, w3, rest);
      Nest(t, Quoted(name), [':'], w2, val + ([','] + (nl + body)), end);
      Associative(val, [','] + (nl + body), end);
      Associative([','], nl + body, end);
      Associative(nl, body, end);
      Associative(w, t, Quoted(name) + ([':'] + (w2 + (val + ([','] + next)))));
      ValueRoundTrip(v, depth, fmt, [','] + next);
      ParseMemberHead(w + t, name, w2, val + ([','] + next), v, [','] + next);
      StringRoundTrip(name, [':'] + (w2 + (val + ([','] + next))));
      ParseNextMember(w + t, name, w2, val + ([','] + next), v, next, tail, rest);
    }
  }

  /** cJSON_Parse of cJSON_Print or cJSON_PrintUnformatted. */
  lemma PrintThenParse(v: Value, fmt: bool)
    requires Printable(v)
    ensures ParseValue(Skip(Print(v, 0, fmt))) == Got(v, "")
  {
    hide Print;
    var p := Print(v, 0, fmt);
    FirstChar(v, 0, fmt);
    ValueRoundTrip(v, 0, fmt, "");
    assert p + "" == p;
  }
}
