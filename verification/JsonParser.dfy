/** The parser as it walks the text: index loops for white space, digits and the two child chains, against the
    parsing functions. */
module JsonParser {
  import opened Json
  import JsonRoundTrip

  /** A result and the index behind it. */
  datatype Walked<+T> = Bad | Ended(value: T, end: nat)

  /** The walk from i agrees with what the function makes of the text from there. */
  predicate Agrees<T(==)>(w: Walked<T>, text: string, p: Parsed<T>) {
    if p.Fail? then w.Bad? else w.Ended? && w.end <= |text| && w.value == p.value && text[w.end..] == p.rest
  }

  /** skip */
  method SkipAt(text: string, i: nat) returns (j: nat)
    requires i <= |text|
    ensures i <= j <= |text| && text[j..] == Skip(text[i..])
  {
    j := i;
    while j < |text| && text[j] as int <= 32
      invariant i <= j <= |text| && Skip(text[j..]) == Skip(text[i..])
    {
      assert text[j..][1..] == text[j + 1..];
      j := j + 1;
    }
  }

  /** The digits of parse_number: an optional zero, and a run that starts with another digit. */
  method DigitsAt(text: string, i: nat) returns (n: nat, j: nat)
    requires i <= |text|
    ensures i <= j <= |text| && ParseUnsigned(text[i..]) == (n, text[j..])
  {
    j, n := i, 0;
    if j < |text| && text[j] == '0' {
      assert text[i..][1..] == text[j + 1..];
      j := j + 1;
    }
    ghost var start := text[j..];
    if j < |text| && '1' <= text[j] <= '9' {
      while j < |text| && IsDigit(text[j])
        invariant i <= j <= |text| && ParseDigits(n, text[j..]) == ParseDigits(0, start)
      {
        assert text[j..][1..] == text[j + 1..];
        n := n * 10 + DigitValue(text[j]);
        j := j + 1;
      }
    }
  }

  /** parse_number on an integer. */
  method NumberAt(text: string, i: nat) returns (w: Walked<Value>)
    requires i < |text| && (text[i] == '-' || IsDigit(text[i]))
    ensures Agrees(w, text, ParseNumber(text[i..]))
  {
    hide ParseUnsigned;
    var j := i;
    var negative := text[j] == '-';
    if negative {
      assert text[i..][1..] == text[i + 1..];
      j := j + 1;
    }
    var n: nat;
    n, j := DigitsAt(text, j);
    if j < |text| && (text[j] == '.' || text[j] == 'e' || text[j] == 'E') {
      return Bad;
    }
    w := Ended(Number(if negative then -(n as int) else n), j);
  }

  /** The children so far in front of those still to come. */
  function Chain(done: seq<Value>, rest: Items): Items {
    if done == [] then rest else Item(done[0], Chain(done[1..], rest))
  }

  lemma {:induction false} ChainAppend(done: seq<Value>, v: Value, rest: Items)
    ensures Chain(done + [v], rest) == Chain(done, Item(v, rest))
  {
    if done == [] {
      assert ([] + [v])[1..] == [];
    } else {
      assert (done + [v])[1..] == done[1..] + [v];
      ChainAppend(done[1..], v, rest);
    }
  }

  function Linked(done: seq<Value>, p: Parsed<Items>): Parsed<Items> {
    if p.Fail? then Fail else Got(Chain(done, p.value), p.rest)
  }

  /** What the loop of parse_array makes of the text behind a child and its white space. */
  function ItemsTail(s: string): Parsed<Items> {
    if Peek(s) == ',' then ParseItems(s[1..]) else if Peek(s) == ']' then Got(NoItems, s[1..]) else Fail
  }

  lemma ParseItemsIs(s: string)
    ensures var v := ParseValue(Skip(s));
            ParseItems(s) == if v.Fail? then Fail else Linked([v.value], ItemsTail(Skip(v.rest)))
  {
    var v := ParseValue(Skip(s));
    if v.Got? {
      var t := ItemsTail(Skip(v.rest));
      hide ParseValue;
      assert t.Got? ==> Chain([v.value], t.value) == Item(v.value, t.value);
    }
  }

  datatype Named = Named(name: string, value: Value)

  function MemberChain(done: seq<Named>, rest: Members): Members {
    if done == [] then rest else Member(done[0].name, done[0].value, MemberChain(done[1..], rest))
  }

  lemma {:induction false} MemberChainAppend(done: seq<Named>, m: Named, rest: Members)
    ensures MemberChain(done + [m], rest) == MemberChain(done, Member(m.name, m.value, rest))
  {
    if done == [] {
      assert ([] + [m])[1..] == [];
    } else {
      assert (done + [m])[1..] == done[1..] + [m];
      MemberChainAppend(done[1..], m, rest);
    }
  }

  function MembersLinked(done: seq<Named>, p: Parsed<Members>): Parsed<Members> {
    if p.Fail? then Fail else Got(MemberChain(done, p.value), p.rest)
  }

  function MembersTail(s: string): Parsed<Members> {
    if Peek(s) == ',' then ParseMembers(s[1..]) else if Peek(s) == '}' then Got(NoMembers, s[1..]) else Fail
  }

  /** One "name": value. */
  function ParseNamed(s: string): (r: Parsed<Named>)
    ensures r.Got? ==> |r.rest| < |s|
  {
    var name := ParseString(Skip(s));
    if name.Fail? then Fail
    else
      var colon := Skip(name.rest);
      if Peek(colon) != ':' then Fail
      else
        var v := ParseValue(Skip(colon[1..]));
        if v.Fail? then Fail else Got(Named(name.value, v.value), v.rest)
  }

  lemma ParseMembersIs(s: string)
    ensures var m := ParseNamed(s);
            ParseMembers(s) == if m.Fail? then Fail else MembersLinked([m.value], MembersTail(Skip(m.rest)))
  {
    var m := ParseNamed(s);
    if m.Got? {
      var t := MembersTail(Skip(m.rest));
      hide ParseValue, ParseString;
      assert t.Got? ==> MemberChain([m.value], t.value) == Member(m.value.name, m.value.value, t.value);
    }
  }

  lemma LinkedAppend(done: seq<Value>, v: Value, p: Parsed<Items>)
    ensures Linked(done + [v], p) == Linked(done, Linked([v], p))
    ensures Linked([], p) == p
  {
    if p.Got? {
      ChainAppend(done, v, p.value);
      assert Chain([v], p.value) == Item(v, p.value);
    }
  }

  lemma MembersLinkedAppend(done: seq<Named>, m: Named, p: Parsed<Members>)
    ensures MembersLinked(done + [m], p) == MembersLinked(done, MembersLinked([m], p))
    ensures MembersLinked([], p) == p
  {
    if p.Got? {
      MemberChainAppend(done, m, p.value);
      assert MemberChain([m], p.value) == Member(m.name, m.value, p.value);
    }
  }

  /** parse_array behind the bracket and its white space: children are linked one behind the other. */
  method ItemsAt(text: string, i: nat) returns (w: Walked<Items>)
    requires i <= |text|
    ensures Agrees(w, text, ParseItems(text[i..]))
    decreases |text| - i, 2
  {
    hide ParseValue, ParseItems, Skip, Chain;
    var done: seq<Value> := [];
    var j := SkipAt(text, i);
    ParseItemsIs(text[i..]);
    var v := ValueAt(text, j);
    if v.Bad? {
      return Bad;
    }
    done := [v.value];
    j := SkipAt(text, v.end);
    while j < |text| && text[j] == ','
      invariant i < j <= |text|
      invariant ParseItems(text[i..]) == Linked(done, ItemsTail(text[j..]))
      decreases |text| - j
    {
      assert text[j..][1..] == text[j + 1..];
      ParseItemsIs(text[j + 1..]);
      var k := SkipAt(text, j + 1);
      v := ValueAt(text, k);
      if v.Bad? {
        return Bad;
      }
      k := SkipAt(text, v.end);
      LinkedAppend(done, v.value, ItemsTail(text[k..]));
      done := done + [v.value];
      j := k;
    }
    if j < |text| && text[j] == ']' {
      assert text[j..][1..] == text[j + 1..];
      return Ended(Chain(done, NoItems), j + 1);
    }
    w := Bad;
  }

  method NamedAt(text: string, i: nat) returns (w: Walked<Named>)
    requires i <= |text|
    ensures Agrees(w, text, ParseNamed(text[i..]))
    ensures w.Ended? ==> w.end > i
    decreases |text| - i, 2
  {
    hide ParseValue, ParseString, Skip;
    var j := SkipAt(text, i);
    var name := ParseString(text[j..]);
    if name.Fail? {
      return Bad;
    }
    var k := |text| - |name.rest|;
    Suffix(text, j, k, name.rest);
    k := SkipAt(text, k);
    if k == |text| || text[k] != ':' {
      return Bad;
    }
    assert text[k..][1..] == text[k + 1..];
    k := SkipAt(text, k + 1);
    var v := ValueAt(text, k);
    if v.Bad? {
      return Bad;
    }
    w := Ended(Named(name.value, v.value), v.end);
  }

  /** parse_object behind the brace. */
  method MembersAt(text: string, i: nat) returns (w: Walked<Members>)
    requires i <= |text|
    ensures Agrees(w, text, ParseMembers(text[i..]))
    decreases |text| - i, 3
  {
    hide ParseNamed, ParseMembers, Skip, MemberChain;
    var done: seq<Named> := [];
    ParseMembersIs(text[i..]);
    var m := NamedAt(text, i);
    if m.Bad? {
      return Bad;
    }
    done := [m.value];
    var j := SkipAt(text, m.end);
    while j < |text| && text[j] == ','
      invariant i < j <= |text|
      invariant ParseMembers(text[i..]) == MembersLinked(done, MembersTail(text[j..]))
      decreases |text| - j
    {
      assert text[j..][1..] == text[j + 1..];
      ParseMembersIs(text[j + 1..]);
      m := NamedAt(text, j + 1);
      if m.Bad? {
        return Bad;
      }
      var k := SkipAt(text, m.end);
      MembersLinkedAppend(done, m.value, MembersTail(text[k..]));
      done := done + [m.value];
      j := k;
    }
    if j < |text| && text[j] == '}' {
      assert text[j..][1..] == text[j + 1..];
      return Ended(MemberChain(done, NoMembers), j + 1);
    }
    w := Bad;
  }

  /** What parse_string leaves is a suffix of the text. */
  lemma Suffix(text: string, j: nat, k: int, rest: string)
    requires j <= |text| && ParseString(text[j..]).Got? && rest == ParseString(text[j..]).rest && k == |text| - |rest|
    ensures j < k <= |text| && text[k..] == rest
  {
    var s := text[j..];
    CharsSuffix(s[1..]);
    assert s[1..] == text[j + 1..];
    var n := |s[1..]| - |rest|;
    assert text[j + 1..][n..] == text[j + 1 + n..];
  }

  lemma {:induction false} CharsSuffix(s: string)
    requires ParseChars(s).Some?
    ensures var rest := ParseChars(s).value.rest; |rest| <= |s| && s[|s| - |rest|..] == rest
    decreases |s|
  {
    if s == "" || s[0] == '\"' {
    } else if s[0] != '\\' {
      CharsSuffix(s[1..]);
    } else {
      var e := ParseEscape(s[1..]).value.rest;
      EscapeSuffix(s[1..]);
      CharsSuffix(e);
    }
  }

  lemma EscapeSuffix(s: string)
    requires ParseEscape(s).Some?
    ensures var rest := ParseEscape(s).value.rest; s[|s| - |rest|..] == rest
  {
    hide Utf8, ParseHex4;
  }

  /** parse_array */
  method ArrayAt(text: string, i: nat) returns (w: Walked<Value>)
    requires i < |text| && text[i] == '['
    ensures Agrees(w, text, ParseValue(text[i..])) && (w.Ended? ==> w.end > i)
    decreases |text| - i, 0
  {
    ArrayBranch(text[i..]);
    hide ParseValue, ParseItems, Skip;
    assert text[i..][1..] == text[i + 1..];
    var j := SkipAt(text, i + 1);
    if j < |text| && text[j] == ']' {
      assert text[j..][1..] == text[j + 1..];
      return Ended(Array(NoItems), j + 1);
    }
    var items := ItemsAt(text, j);
    if items.Bad? {
      return Bad;
    }
    ShorterRest(text, i, items.end);
    w := Ended(Array(items.value), items.end);
  }

  lemma ArrayBranch(s: string)
    requires Peek(s) == '['
    ensures var inner := Skip(s[1..]);
            ParseValue(s) == if Peek(inner) == ']' then Got(Array(NoItems), inner[1..])
                             else if ParseItems(inner).Fail? then Fail
                             else Got(Array(ParseItems(inner).value), ParseItems(inner).rest)
  {
    hide ParseItems, Skip;
    JsonRoundTrip.NotALiteral(s);
  }

  /** parse_object */
  method ObjectAt(text: string, i: nat) returns (w: Walked<Value>)
    requires i < |text| && text[i] == '{'
    ensures Agrees(w, text, ParseValue(text[i..])) && (w.Ended? ==> w.end > i)
    decreases |text| - i, 0
  {
    ObjectBranch(text[i..]);
    hide ParseValue, ParseMembers, Skip;
    assert text[i..][1..] == text[i + 1..];
    var j := SkipAt(text, i + 1);
    if j < |text| && text[j] == '}' {
      assert text[j..][1..] == text[j + 1..];
      return Ended(Object(NoMembers), j + 1);
    }
    var ms := MembersAt(text, j);
    if ms.Bad? {
      return Bad;
    }
    ShorterRest(text, i, ms.end);
    w := Ended(Object(ms.value), ms.end);
  }

  lemma ObjectBranch(s: string)
    requires Peek(s) == '{'
    ensures var inner := Skip(s[1..]);
            ParseValue(s) == if Peek(inner) == '}' then Got(Object(NoMembers), inner[1..])
                             else if ParseMembers(inner).Fail? then Fail
                             else Got(Object(ParseMembers(inner).value), ParseMembers(inner).rest)
  {
    hide ParseMembers, Skip;
    JsonRoundTrip.NotALiteral(s);
  }

  /** A shorter rest starts further on. */
  lemma ShorterRest(text: string, i: nat, end: nat)
    requires i <= |text| && end <= |text| && |text[end..]| < |text[i..]|
    ensures end > i
  {
  }

  /** parse_value */
  method ValueAt(text: string, i: nat) returns (w: Walked<Value>)
    requires i <= |text|
    ensures Agrees(w, text, ParseValue(text[i..]))
    ensures w.Ended? ==> w.end > i
    decreases |text| - i, 1
  {
    var s := text[i..];
    hide ParseItems, ParseMembers, ParseString, ParseNumber, Skip;
    if Starts(s, "null") {
      assert s[4..] == text[i + 4..];
      return Ended(Null, i + 4);
    } else if Starts(s, "false") {
      assert s[5..] == text[i + 5..];
      return Ended(False, i + 5);
    } else if Starts(s, "true") {
      assert s[4..] == text[i + 4..];
      return Ended(True, i + 4);
    } else if Peek(s) == '\"' {
      var t := ParseString(s);
      if t.Fail? {
        return Bad;
      }
      Suffix(text, i, |text| - |t.rest|, t.rest);
      return Ended(Str(t.value), |text| - |t.rest|);
    } else if Peek(s) == '-' || IsDigit(Peek(s)) {
      w := NumberAt(text, i);
    } else if Peek(s) == '[' {
      w := ArrayAt(text, i);
    } else if Peek(s) == '{' {
      w := ObjectAt(text, i);
    } else {
      w := Bad;
    }
  }

  /** cJSON_Parse: text behind the value is not looked at. */
  method Parse(text: string) returns (w: Walked<Value>)
    ensures Agrees(w, text, ParseValue(Skip(text)))
  {
    hide ParseValue, Skip;
    assert text[0..] == text;
    var j := SkipAt(text, 0);
    w := ValueAt(text, j);
  }

  /** On either print of a tree the walk ends at the end of the text, with an equal tree. */
  method ParsePrinted(v: Value, fmt: bool, text: string) returns (w: Walked<Value>)
    requires Printable(v) && text == Print(v, 0, fmt)
    ensures w == Ended(v, |text|)
  {
    hide ParseValue, Skip, Print;
    JsonRoundTrip.PrintThenParse(v, fmt);
    w := Parse(text);
  }
}
