/** cJSON: value trees, the printer, the parser and the minifier as functions on text (RFC 8259).  A C string is the
    sequence of its characters without the terminating NUL; a character is an octet. */
module Json {
  import opened Bytes

  datatype Value =
    | Null | False | True
    | Number(n: int)
    | Str(s: string)
    | Array(items: Items)
    | Object(members: Members)

  /** The child chains. */
  datatype Items = NoItems | Item(head: Value, tail: Items)
  datatype Members = NoMembers | Member(name: string, value: Value, tail: Members)

  predicate CString(s: string) {
    forall i | 0 <= i < |s| :: 0 < s[i] as int < 256
  }

  /** 32-bit integers and NUL-free strings throughout. */
  predicate Printable(v: Value) {
    match v
    case Number(n) => -0x8000_0000 <= n < 0x8000_0000
    case Str(s) => CString(s)
    case Array(items) => PrintableItems(items)
    case Object(members) => PrintableMembers(members)
    case _ => true
  }

  predicate PrintableItems(items: Items) {
    items.Item? ==> Printable(items.head) && PrintableItems(items.tail)
  }

  predicate PrintableMembers(ms: Members) {
    ms.Member? ==> CString(ms.name) && Printable(ms.value) && PrintableMembers(ms.tail)
  }

  // ----- printing -----

  function Digit(d: nat): (c: char)
    requires d < 10
    ensures IsDigit(c) && DigitValue(c) == d
  {
    ('0' as int + d) as char
  }

  predicate IsDigit(c: char) {
    '0' <= c <= '9'
  }

  function DigitValue(c: char): (d: nat)
    requires IsDigit(c)
    ensures d < 10
  {
    c as int - '0' as int
  }

  function Digits(n: nat): (s: string)
    ensures |s| > 0 && forall i | 0 <= i < |s| :: IsDigit(s[i])
    ensures s[0] == '0' <==> n == 0
    ensures n == 0 ==> s == "0"
  {
    if n < 10 then [Digit(n)] else Digits(n / 10) + [Digit(n % 10)]
  }

  /** sprintf with %d. */
  function PrintNumber(n: int): string {
    if n < 0 then "-" + Digits(-n) else Digits(n)
  }

  function HexDigit(d: nat): (c: char)
    requires d < 16
    ensures HexValue(c) == Some(d)
  {
    if d < 10 then ('0' as int + d) as char else ('a' as int + d - 10) as char
  }

  /** The second pass of print_string_ptr for one character. */
  function EscapeChar(c: char): (e: string)
    requires 0 < c as int < 256
  {
    if c as int > 31 && c != '\"' && c != '\\' then [c]
    else if c == '\\' then ['\\', '\\']
    else if c == '\"' then ['\\', '\"']
    else if c == '\U{0008}' then ['\\', 'b']
    else if c == '\U{000C}' then ['\\', 'f']
    else if c == '\n' then ['\\', 'n']
    else if c == '\r' then ['\\', 'r']
    else if c == '\t' then ['\\', 't']
    else ['\\', 'u', '0', '0', HexDigit(c as int / 16), HexDigit(c as int % 16)]
  }

  function Escaped(s: string): string
    requires CString(s)
  {
    if s == "" then "" else EscapeChar(s[0]) + Escaped(s[1..])
  }

  function Quoted(s: string): string
    requires CString(s)
  {
    ['\"'] + (Escaped(s) + ['\"'])
  }

  function Tabs(n: int): (t: string)
    ensures |t| == if n < 0 then 0 else n
    ensures forall i | 0 <= i < |t| :: t[i] == '\t'
  {
    if n <= 0 then "" else ['\t'] + Tabs(n - 1)
  }

  function If(fmt: bool, s: string): string {
    if fmt then s else ""
  }

  function Print(v: Value, depth: nat, fmt: bool): string
    requires Printable(v)
    decreases v
  {
    match v
    case Null => "null"
    case False => "false"
    case True => "true"
    case Number(n) => PrintNumber(n)
    case Str(s) => Quoted(s)
    case Array(items) => if items.NoItems? then "[]" else ['['] + (PrintItems(items, depth + 1, fmt) + [']'])
    case Object(ms) =>
      if ms.NoMembers? then ['{'] + (If(fmt, ['\n'] + Tabs(depth - 1)) + ['}'])
      else ['{'] + (If(fmt, ['\n']) + (PrintMembers(ms, depth + 1, fmt) + (If(fmt, Tabs(depth)) + ['}'])))
  }

  function PrintItems(items: Items, depth: nat, fmt: bool): string
    requires PrintableItems(items) && items.Item?
    decreases items
  {
    Print(items.head, depth, fmt)
    + (if items.tail.NoItems? then "" else [','] + (If(fmt, [' ']) + PrintItems(items.tail, depth, fmt)))
  }

  function PrintMembers(ms: Members, depth: nat, fmt: bool): string
    requires PrintableMembers(ms) && ms.Member?
    decreases ms
  {
    If(fmt, Tabs(depth))
    + (Quoted(ms.name)
       + ([':']
          + (If(fmt, ['\t'])
             + (Print(ms.value, depth, fmt)
                + (if ms.tail.NoMembers? then If(fmt, ['\n'])
                   else [','] + (If(fmt, ['\n']) + PrintMembers(ms.tail, depth, fmt)))))))
  }

  // ----- parsing -----

  function Peek(s: string): char {
    if s == "" then '\0' else s[0]
  }

  /** skip: white space and control characters. */
  function Skip(s: string): (r: string)
    ensures |r| <= |s|
  {
    if s != "" && s[0] as int <= 32 then Skip(s[1..]) else s
  }

  predicate Starts(s: string, p: string) {
    |p| <= |s| && s[..|p|] == p
  }

  function HexValue(c: char): (v: Option<nat>)
    ensures v.Some? ==> v.value < 16
  {
    if '0' <= c <= '9' then Some(c as int - '0' as int)
    else if 'A' <= c <= 'F' then Some(10 + c as int - 'A' as int)
    else if 'a' <= c <= 'f' then Some(10 + c as int - 'a' as int)
    else None
  }

  /** parse_hex4: zero when one of the four is no hex digit. */
  function ParseHex4(s: string): (n: nat)
    requires |s| >= 4
    ensures n < 0x1_0000
  {
    var a, b, c, d := HexValue(s[0]), HexValue(s[1]), HexValue(s[2]), HexValue(s[3]);
    if a.None? || b.None? || c.None? || d.None? then 0
    else ((a.value * 16 + b.value) * 16 + c.value) * 16 + d.value
  }

  function Chr(n: nat): char
    requires n < 256
  {
    n as char
  }

  /** The transcoder of parse_string. */
  function Utf8(uc: nat): (s: string)
    requires uc < 0x11_0000
    ensures |s| <= 4
  {
    if uc < 0x80 then [Chr(uc)]
    else if uc < 0x800 then [Chr(0xC0 + uc / 64), Chr(0x80 + uc % 64)]
    else if uc < 0x1_0000 then [Chr(0xE0 + uc / 4096), Chr(0x80 + uc / 64 % 64), Chr(0x80 + uc % 64)]
    else [Chr(0xF0 + uc / 262144), Chr(0x80 + uc / 4096 % 64), Chr(0x80 + uc / 64 % 64), Chr(0x80 + uc % 64)]
  }

  datatype Piece = Piece(text: string, rest: string)

  /** One escape sequence, s starting behind the backslash.  No result means that the C code would step over the
      terminating NUL. */
  function ParseEscape(s: string): (p: Option<Piece>)
    ensures p.Some? ==> |p.value.rest| < |s|
  {
    if s == "" then None
    else if s[0] == 'b' then Some(Piece(['\U{0008}'], s[1..]))
    else if s[0] == 'f' then Some(Piece(['\U{000C}'], s[1..]))
    else if s[0] == 'n' then Some(Piece(['\n'], s[1..]))
    else if s[0] == 'r' then Some(Piece(['\r'], s[1..]))
    else if s[0] == 't' then Some(Piece(['\t'], s[1..]))
    else if s[0] != 'u' then Some(Piece([s[0]], s[1..]))
    else if |s| < 5 then None
    else
      var uc := ParseHex4(s[1..]);
      if 0xDC00 <= uc <= 0xDFFF || uc == 0 then Some(Piece("", s[5..]))
      else if 0xD800 <= uc <= 0xDBFF then
        if |s| < 7 || s[5] != '\\' || s[6] != 'u' then Some(Piece("", s[5..]))
        else if |s| < 11 then None
        else
          var uc2 := ParseHex4(s[7..]);
          if !(0xDC00 <= uc2 <= 0xDFFF) then Some(Piece("", s[11..]))
          else Some(Piece(Utf8(0x1_0000 + uc % 0x400 * 0x400 + uc2 % 0x400), s[11..]))
      else Some(Piece(Utf8(uc), s[5..]))
  }

  /** The second pass of parse_string, s starting behind the opening quote; a missing closing quote is accepted. */
  function ParseChars(s: string): (p: Option<Piece>)
    ensures p.Some? ==> |p.value.rest| <= |s|
    decreases |s|
  {
    if s == "" then Some(Piece("", ""))
    else if s[0] == '\"' then Some(Piece("", s[1..]))
    else if s[0] != '\\' then Before([s[0]], ParseChars(s[1..]))
    else
      var e := ParseEscape(s[1..]);
      if e.None? then None else Before(e.value.text, ParseChars(e.value.rest))
  }

  function Before(text: string, p: Option<Piece>): Option<Piece> {
    if p.Some? then Some(Piece(text + p.value.text, p.value.rest)) else None
  }

  datatype Parsed<+T> = Fail | Got(value: T, rest: string)

  function ParseString(s: string): (r: Parsed<string>)
    ensures r.Got? ==> |r.rest| < |s|
  {
    if Peek(s) != '\"' then Fail
    else
      var p := ParseChars(s[1..]);
      if p.None? then Fail else Got(p.value.text, p.value.rest)
  }

  function ParseDigits(acc: nat, s: string): (nat, string)
    decreases |s|
  {
    if s != "" && IsDigit(s[0]) then ParseDigits(acc * 10 + DigitValue(s[0]), s[1..]) else (acc, s)
  }

  lemma {:induction false} ParseDigitsShrinks(acc: nat, s: string)
    ensures |ParseDigits(acc, s).1| <= |s|
    ensures s != "" && IsDigit(s[0]) ==> |ParseDigits(acc, s).1| < |s|
    decreases |s|
  {
    if s != "" && IsDigit(s[0]) {
      ParseDigitsShrinks(acc * 10 + DigitValue(s[0]), s[1..]);
    }
  }

  /** The digits of parse_number: an optional zero, then a run that starts with another digit. */
  function ParseUnsigned(s: string): (p: (nat, string))
    ensures |p.1| <= |s| && (s != "" && IsDigit(s[0]) ==> |p.1| < |s|)
  {
    var s2 := if Peek(s) == '0' then s[1..] else s;
    ParseDigitsShrinks(0, s2);
    if '1' <= Peek(s2) <= '9' then ParseDigits(0, s2) else (0, s2)
  }

  /** parse_number on integers; a fraction or an exponent is outside this model. */
  function ParseNumber(s: string): (r: Parsed<Value>)
    requires Peek(s) == '-' || IsDigit(Peek(s))
    ensures r.Got? ==> |r.rest| < |s|
  {
    var negative := s[0] == '-';
    var (n, rest) := ParseUnsigned(if negative then s[1..] else s);
    if Peek(rest) == '.' || Peek(rest) == 'e' || Peek(rest) == 'E' then Fail
    else Got(Number(if negative then -(n as int) else n), rest)
  }

  function ParseValue(s: string): (r: Parsed<Value>)
    ensures r.Got? ==> |r.rest| < |s|
    decreases |s|, 1
  {
    if Starts(s, "null") then Got(Null, s[4..])
    else if Starts(s, "false") then Got(False, s[5..])
    else if Starts(s, "true") then Got(True, s[4..])
    else if Peek(s) == '\"' then
      var t := ParseString(s);
      if t.Fail? then Fail else Got(Str(t.value), t.rest)
    else if Peek(s) == '-' || IsDigit(Peek(s)) then ParseNumber(s)
    else if Peek(s) == '[' then
      var inner := Skip(s[1..]);
      if Peek(inner) == ']' then Got(Array(NoItems), inner[1..])
      else
        var items := ParseItems(inner);
        if items.Fail? then Fail else Got(Array(items.value), items.rest)
    else if Peek(s) == '{' then
      var inner := Skip(s[1..]);
      if Peek(inner) == '}' then Got(Object(NoMembers), inner[1..])
      else
        var ms := ParseMembers(inner);
        if ms.Fail? then Fail else Got(Object(ms.value), ms.rest)
    else Fail
  }

  /** The loop of parse_array: elements up to and including the closing bracket. */
  function ParseItems(s: string): (r: Parsed<Items>)
    ensures r.Got? ==> |r.rest| < |s|
    decreases |s|, 2
  {
    var v := ParseValue(Skip(s));
    if v.Fail? then Fail
    else
      var more := Skip(v.rest);
      if Peek(more) == ',' then
        var items := ParseItems(more[1..]);
        if items.Fail? then Fail else Got(Item(v.value, items.value), items.rest)
      else if Peek(more) == ']' then Got(Item(v.value, NoItems), more[1..])
      else Fail
  }

  /** The loop of parse_object. */
  function ParseMembers(s: string): (r: Parsed<Members>)
    ensures r.Got? ==> |r.rest| < |s|
    decreases |s|, 2
  {
    var name := ParseString(Skip(s));
    if name.Fail? then Fail
    else
      var colon := Skip(name.rest);
      if Peek(colon) != ':' then Fail
      else
        var v := ParseValue(Skip(colon[1..]));
        if v.Fail? then Fail
        else
          var more := Skip(v.rest);
          if Peek(more) == ',' then
            var ms := ParseMembers(more[1..]);
            if ms.Fail? then Fail else Got(Member(name.value, v.value, ms.value), ms.rest)
          else if Peek(more) == '}' then Got(Member(name.value, v.value, NoMembers), more[1..])
          else Fail
  }
}
