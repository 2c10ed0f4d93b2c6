/** print_value: the printer's recursion over buffers, each child printed into a buffer of its own and copied from there
    as a C string. */
module JsonPrinter {
  import opened Bytes
  import opened Json
  import opened JsonBuffers
  import JsonParser
  import JsonStrings

  predicate NoNul(s: string) {
    '\0' !in s
  }

  // ----- no print contains a NUL, so strlen finds its end -----

  lemma {:induction false} EscapedNoNul(s: string)
    requires CString(s)
    ensures NoNul(Escaped(s))
  {
    if s != "" {
      EscapedNoNul(s[1..]);
    }
  }

  lemma {:induction false} PrintNoNul(v: Value, depth: nat, fmt: bool)
    requires Printable(v)
    ensures NoNul(Print(v, depth, fmt))
    decreases v
  {
    hide Escaped, PrintItems, PrintMembers;
    match v {
      case Str(s) => EscapedNoNul(s);
      case Array(items) => if items.Item? { ItemsNoNul(items, depth + 1, fmt); }
      case Object(ms) => if ms.Member? { MembersNoNul(ms, depth + 1, fmt); }
      case _ =>
    }
  }

  lemma {:induction false} ItemsNoNul(items: Items, depth: nat, fmt: bool)
    requires PrintableItems(items) && items.Item?
    ensures NoNul(PrintItems(items, depth, fmt))
    decreases items
  {
    hide Print;
    PrintNoNul(items.head, depth, fmt);
    if items.tail.Item? {
      ItemsNoNul(items.tail, depth, fmt);
    }
  }

  lemma {:induction false} MembersNoNul(ms: Members, depth: nat, fmt: bool)
    requires PrintableMembers(ms) && ms.Member?
    ensures NoNul(PrintMembers(ms, depth, fmt))
    decreases ms
  {
    hide Print, Escaped;
    EscapedNoNul(ms.name);
    PrintNoNul(ms.value, depth, fmt);
    if ms.tail.Member? {
      MembersNoNul(ms.tail, depth, fmt);
    }
  }

  // ----- buffers -----

  /** The buffer holds this C string. */
  ghost predicate Holds(out: array<char>, text: string)
    reads out
  {
    NoNul(text) && Written(out, text + ['\0'])
  }

  /** strlen and strcpy: the C string in the buffer. */
  method CText(out: array<char>, ghost text: string) returns (s: string)
    requires Holds(out, text)
    ensures s == text
  {
    var n := 0;
    assert out[|text|] == (text + ['\0'])[|text|];
    while out[n] != '\0'
      invariant n <= |text| && out[..n] == text[..n]
      decreases |text| - n
    {
      assert out[n] == (text + ['\0'])[n];
      n := n + 1;
    }
    assert n == |text|;
    s := out[..n];
  }

  method Copy(text: string) returns (out: array<char>)
    requires NoNul(text)
    ensures fresh(out) && out.Length == |text| + 1 && Holds(out, text)
  {
    out := new char[|text| + 1];
    forall i | 0 <= i <= |text| {
      out[i] := if i < |text| then text[i] else '\0';
    }
  }

  lemma {:induction false} DigitsShort(n: nat, k: nat)
    requires k > 0 && n < Pow10(k)
    ensures |Digits(n)| <= k
  {
    if n >= 10 {
      DigitsShort(n / 10, k - 1);
    }
  }

  function Pow10(k: nat): nat {
    if k == 0 then 1 else 10 * Pow10(k - 1)
  }

  /** print_number for an integer: 21 characters are enough. */
  method PrintInt(n: int) returns (out: array<char>)
    requires -0x8000_0000 <= n < 0x8000_0000
    ensures fresh(out) && out.Length == 21 && Holds(out, PrintNumber(n))
  {
    assert Pow10(5) == 100000;
    assert Pow10(10) == 10000000000;
    DigitsShort(if n < 0 then -n else n, 10);
    out := new char[21];
    var text := PrintNumber(n) + ['\0'];
    forall i | 0 <= i < |text| {
      out[i] := text[i];
    }
  }

  /** print_value */
  method PrintValue(v: Value, depth: nat, fmt: bool) returns (out: array<char>)
    requires Printable(v)
    ensures fresh(out) && Holds(out, Print(v, depth, fmt))
    decreases v, 1
  {
    hide PrintItems, PrintMembers, Joined, JoinedMembers, Entries, MemberEntries, Written, NoNul, PrintNumber, Quoted;
    PrintNoNul(v, depth, fmt);
    match v {
      case Null => out := Copy("null");
      case False => out := Copy("false");
      case True => out := Copy("true");
      case Number(n) => out := PrintInt(n);
      case Str(s) =>
        out := JsonStrings.PrintStringPtr(s);
        WholeWritten(out, Quoted(s) + ['\0']);
      case Array(items) =>
        var entries := PrintEach(items, depth + 1, fmt);
        out := PrintArray(entries, fmt);
        ArrayText(items, depth, fmt);
      case Object(ms) =>
        if ms.NoMembers? {
          out := PrintEmptyObject(depth, fmt);
        } else {
          var entries := PrintEachMember(ms, depth + 1, fmt);
          EntriesThere(ms, depth + 1, fmt);
          out := PrintObject(entries, depth, fmt);
          JoinedMembersIsPrint(ms, depth + 1, fmt);
        }
    }
  }

  lemma WholeWritten(out: array<char>, text: string)
    requires out[..] == text
    ensures Written(out, text)
  {
  }

  lemma NoEntries(depth: nat, fmt: bool)
    ensures forall e: seq<string> :: e + Entries(NoItems, depth, fmt) == e
    ensures forall e: seq<Entry> :: e + MemberEntries(NoMembers, depth, fmt) == e
    ensures forall items | PrintableItems(items) :: [] + Entries(items, depth, fmt) == Entries(items, depth, fmt)
    ensures forall ms | PrintableMembers(ms) :: [] + MemberEntries(ms, depth, fmt) == MemberEntries(ms, depth, fmt)
  {
    hide Print;
  }

  lemma NextEntry(done: seq<string>, items: Items, depth: nat, fmt: bool)
    requires PrintableItems(items) && items.Item?
    ensures done + Entries(items, depth, fmt)
         == done + [Print(items.head, depth, fmt)] + Entries(items.tail, depth, fmt)
  {
    hide Print;
    Associative(done, [Print(items.head, depth, fmt)], Entries(items.tail, depth, fmt));
  }

  lemma NextMember(done: seq<Entry>, ms: Members, depth: nat, fmt: bool)
    requires PrintableMembers(ms) && ms.Member?
    ensures done + MemberEntries(ms, depth, fmt)
         == done + [Entry(Quoted(ms.name), Print(ms.value, depth, fmt))] + MemberEntries(ms.tail, depth, fmt)
  {
    hide Print, Quoted;
    Associative(done, [Entry(Quoted(ms.name), Print(ms.value, depth, fmt))], MemberEntries(ms.tail, depth, fmt));
  }

  /** The loop of print_array that prints the children. */
  method PrintEach(items: Items, depth: nat, fmt: bool) returns (entries: seq<string>)
    requires PrintableItems(items)
    ensures entries == Entries(items, depth, fmt)
    decreases items, 0
  {
    hide Entries, Print, Holds;
    var child := items;
    entries := [];
    NoEntries(depth, fmt);
    while child.Item?
      invariant (child == items || child < items) && PrintableItems(child)
      invariant entries + Entries(child, depth, fmt) == Entries(items, depth, fmt)
      decreases child
    {
      var out := PrintValue(child.head, depth, fmt);
      var text := CText(out, Print(child.head, depth, fmt));
      NextEntry(entries, child, depth, fmt);
      entries := entries + [text];
      child := child.tail;
    }
  }

  /** The loop of print_object that prints the names and values. */
  method PrintEachMember(ms: Members, depth: nat, fmt: bool) returns (entries: seq<Entry>)
    requires PrintableMembers(ms)
    ensures entries == MemberEntries(ms, depth, fmt)
    decreases ms, 0
  {
    hide MemberEntries, Print, Holds, Quoted;
    var child := ms;
    entries := [];
    NoEntries(depth, fmt);
    while child.Member?
      invariant (child == ms || child < ms) && PrintableMembers(child)
      invariant entries + MemberEntries(child, depth, fmt) == MemberEntries(ms, depth, fmt)
      decreases child
    {
      var name := PrintName(child.name);
      var out := PrintValue(child.value, depth, fmt);
      var text := CText(out, Print(child.value, depth, fmt));
      NextMember(entries, child, depth, fmt);
      entries := entries + [Entry(name, text)];
      child := child.tail;
    }
  }

  method PrintName(name: string) returns (text: string)
    requires CString(name)
    ensures text == Quoted(name)
  {
    var out := JsonStrings.PrintStringPtr(name);
    EscapedNoNul(name);
    WholeWritten(out, Quoted(name) + ['\0']);
    text := CText(out, Quoted(name));
  }

  /** cJSON_Print or cJSON_PrintUnformatted, and cJSON_Parse on the buffer that came out. */
  method PrintAndParse(v: Value, fmt: bool) returns (w: JsonParser.Walked<Value>)
    requires Printable(v)
    ensures w == JsonParser.Ended(v, |Print(v, 0, fmt)|)
  {
    var out := PrintValue(v, 0, fmt);
    var text := CText(out, Print(v, 0, fmt));
    hide *;
    w := JsonParser.ParsePrinted(v, fmt, text);
  }
}
