/** print_array and print_object: the buffer is sized from the printed children, and filled without overrunning it. */
module JsonBuffers {
  import opened Bytes
  import opened Json

  /** The printed children of an array. */
  function Entries(items: Items, depth: nat, fmt: bool): seq<string>
    requires PrintableItems(items)
  {
    if items.NoItems? then [] else [Print(items.head, depth, fmt)] + Entries(items.tail, depth, fmt)
  }

  datatype Entry = Entry(name: string, value: string)

  /** The quoted names and printed values of an object. */
  function MemberEntries(ms: Members, depth: nat, fmt: bool): seq<Entry>
    requires PrintableMembers(ms)
  {
    if ms.NoMembers? then []
    else [Entry(Quoted(ms.name), Print(ms.value, depth, fmt))] + MemberEntries(ms.tail, depth, fmt)
  }

  /** What the composing loop of print_array still has to write. */
  function Joined(entries: seq<string>, fmt: bool): string {
    if entries == [] then ""
    else if |entries| == 1 then entries[0]
    else entries[0] + ([','] + (If(fmt, [' ']) + Joined(entries[1..], fmt)))
  }

  lemma {:induction false} JoinedIsPrint(items: Items, depth: nat, fmt: bool)
    requires PrintableItems(items) && items.Item?
    ensures Joined(Entries(items, depth, fmt), fmt) == PrintItems(items, depth, fmt)
    decreases items
  {
    hide Print;
    var e := Entries(items, depth, fmt);
    assert e[1..] == Entries(items.tail, depth, fmt);
    if items.tail.NoItems? {
      assert e[0] + "" == e[0];
    } else {
      JoinedIsPrint(items.tail, depth, fmt);
    }
  }

  function Lengths(entries: seq<string>, fmt: bool): nat {
    if entries == [] then 0 else |entries[0]| + 2 + (if fmt then 1 else 0) + Lengths(entries[1..], fmt)
  }

  lemma {:induction false} JoinedFits(entries: seq<string>, fmt: bool)
    ensures |Joined(entries, fmt)| <= Lengths(entries, fmt)
  {
    if |entries| > 1 {
      JoinedFits(entries[1..], fmt);
    }
  }

  lemma LengthsNext(entries: seq<string>, i: nat, fmt: bool)
    requires i < |entries|
    ensures Lengths(entries[i..], fmt) == |entries[i]| + 2 + (if fmt then 1 else 0) + Lengths(entries[i + 1..], fmt)
  {
    assert entries[i..][1..] == entries[i + 1..];
  }

  /** strcpy without the NUL. */
  method PutAll(out: array<char>, at: nat, s: string, ghost done: string)
    requires Written(out, done) && |done| == at && at + |s| <= out.Length
    modifies out
    ensures Written(out, done + s)
  {
    forall i | 0 <= i < |s| {
      out[at + i] := s[i];
    }
  }

  /** Writes c when formatting. */
  method PutIf(out: array<char>, at: nat, fmt: bool, c: char, ghost done: string) returns (next: nat)
    requires Written(out, done) && |done| == at && at + (if fmt then 1 else 0) <= out.Length
    modifies out
    ensures Written(out, done + If(fmt, [c])) && next == at + |If(fmt, [c])|
  {
    next := at;
    if fmt {
      out[at] := c;
      next := at + 1;
    } else {
      assert done + "" == done;
    }
  }

  /** for (j = 0; j < n; j++) *ptr++ = '\t'; */
  method PutTabs(out: array<char>, at: nat, fmt: bool, n: nat, ghost done: string) returns (next: nat)
    requires Written(out, done) && |done| == at && at + (if fmt then n else 0) <= out.Length
    modifies out
    ensures Written(out, done + If(fmt, Tabs(n))) && next == at + |If(fmt, Tabs(n))|
  {
    next := at;
    if fmt {
      forall i | 0 <= i < n {
        out[at + i] := '\t';
      }
      next := at + n;
    } else {
      assert done + "" == done;
    }
  }

  /** print_array on the printed children. */
  method PrintArray(entries: seq<string>, fmt: bool) returns (out: array<char>)
    ensures fresh(out)
    ensures out.Length == if entries == [] then 3 else 5 + Lengths(entries, fmt)
    ensures Written(out, ['['] + (Joined(entries, fmt) + [']']) + ['\0'])
  {
    if |entries| == 0 {
      out := new char[3];
      PutAll(out, 0, "[]\0", "");
      assert "" + "[]\0" == ['['] + (Joined(entries, fmt) + [']']) + ['\0'];
      return;
    }
    var len := 5;
    for i := 0 to |entries|
      invariant len + Lengths(entries[i..], fmt) == 5 + Lengths(entries, fmt)
    {
      LengthsNext(entries, i, fmt);
      len := len + |entries[i]| + 2 + if fmt then 1 else 0;
    }
    out := new char[len];
    JoinedFits(entries, fmt);
    Put(out, 0, '[', "");
    assert "" + ['['] == ['['];
    var at := ComposeArray(out, entries, fmt);
    ghost var text := ['['] + Joined(entries, fmt);
    Put(out, at, ']', text);
    Put(out, at + 1, '\0', text + [']']);
    Associative(['['], Joined(entries, fmt), [']']);
  }

  /** The composing loop. */
  method ComposeArray(out: array<char>, entries: seq<string>, fmt: bool) returns (at: nat)
    requires entries != [] && Written(out, ['[']) && 1 + |Joined(entries, fmt)| <= out.Length
    modifies out
    ensures at == 1 + |Joined(entries, fmt)| && Written(out, ['['] + Joined(entries, fmt))
  {
    hide Joined;
    at := 1;
    ghost var done := ['['];
    assert entries[0..] == entries;
    for i := 0 to |entries|
      invariant |done| == at && Written(out, done)
      invariant done + Joined(entries[i..], fmt) == ['['] + Joined(entries, fmt)
    {
      at, done := ComposeOne(out, at, entries, i, fmt, done, ['['] + Joined(entries, fmt));
    }
    NothingJoined(entries[|entries|..], fmt);
    assert done + "" == done;
  }

  lemma NothingJoined(entries: seq<string>, fmt: bool)
    requires entries == []
    ensures Joined(entries, fmt) == ""
  {
  }

  method ComposeOne(out: array<char>, at: nat, entries: seq<string>, i: nat, fmt: bool,
                    ghost done: string, ghost goal: string)
    returns (next: nat, ghost text: string)
    requires i < |entries| && Written(out, done) && |done| == at
    requires done + Joined(entries[i..], fmt) == goal && |goal| <= out.Length
    modifies out
    ensures |text| == next && Written(out, text) && text + Joined(entries[i + 1..], fmt) == goal
  {
    ghost var rest := Joined(entries[i + 1..], fmt);
    assert entries[i..][1..] == entries[i + 1..];
    hide Written;
    if i == |entries| - 1 {
      assert done + entries[i] == goal;
      PutAll(out, at, entries[i], done);
      next, text := at + |entries[i]|, done + entries[i];
      assert text + "" == text;
      return;
    }
    ghost var t1 := done + entries[i];
    ghost var t2 := t1 + [','];
    ghost var t3 := t2 + If(fmt, [' ']);
    Associative(done, entries[i], [','] + (If(fmt, [' ']) + rest));
    Associative(t1, [','], If(fmt, [' ']) + rest);
    Associative(t2, If(fmt, [' ']), rest);
    assert t3 + rest == goal;
    hide Joined;
    PutAll(out, at, entries[i], done);
    Put(out, at + |entries[i]|, ',', t1);
    next := PutIf(out, at + |entries[i]| + 1, fmt, ' ', t2);
    text := t3;
  }

  // ----- objects -----

  function JoinedMembers(entries: seq<Entry>, depth: nat, fmt: bool): string {
    if entries == [] then ""
    else
      If(fmt, Tabs(depth))
      + (entries[0].name
         + ([':']
            + (If(fmt, ['\t'])
               + (entries[0].value
                  + (if |entries| == 1 then If(fmt, ['\n'])
                     else [','] + (If(fmt, ['\n']) + JoinedMembers(entries[1..], depth, fmt)))))))
  }

  lemma {:induction false} JoinedMembersIsPrint(ms: Members, depth: nat, fmt: bool)
    requires PrintableMembers(ms) && ms.Member?
    ensures JoinedMembers(MemberEntries(ms, depth, fmt), depth, fmt) == PrintMembers(ms, depth, fmt)
    decreases ms
  {
    hide Print, Quoted;
    var e := MemberEntries(ms, depth, fmt);
    assert e[1..] == MemberEntries(ms.tail, depth, fmt);
    if ms.tail.Member? {
      JoinedMembersIsPrint(ms.tail, depth, fmt);
    }
  }

  function MemberLengths(entries: seq<Entry>, depth: nat, fmt: bool): nat {
    if entries == [] then 0
    else |entries[0].value| + |entries[0].name| + 2 + (if fmt then 2 + depth else 0) + MemberLengths(entries[1..], depth, fmt)
  }

  lemma {:induction false} JoinedMembersFits(entries: seq<Entry>, depth: nat, fmt: bool)
    ensures |JoinedMembers(entries, depth, fmt)| <= MemberLengths(entries, depth, fmt)
  {
    if |entries| > 0 {
      JoinedMembersFits(entries[1..], depth, fmt);
    }
  }

  lemma MemberLengthsNext(entries: seq<Entry>, i: nat, depth: nat, fmt: bool)
    requires i < |entries|
    ensures MemberLengths(entries[i..], depth, fmt)
         == |entries[i].value| + |entries[i].name| + 2 + (if fmt then 2 + depth else 0) + MemberLengths(entries[i + 1..], depth, fmt)
  {
    assert entries[i..][1..] == entries[i + 1..];
  }

  /** The text of an object with these printed members, one level further in. */
  function ObjectText(entries: seq<Entry>, depth: nat, fmt: bool): string
    requires depth > 0
  {
    ['{'] + (If(fmt, ['\n']) + (JoinedMembers(entries, depth, fmt) + (If(fmt, Tabs(depth - 1)) + ['}'])))
  }

  /** print_object on the quoted names and printed values. */
  method PrintObject(entries: seq<Entry>, depth0: nat, fmt: bool) returns (out: array<char>)
    requires entries != []
    ensures fresh(out)
    ensures out.Length == 7 + (if fmt then depth0 + 1 else 0) + MemberLengths(entries, depth0 + 1, fmt)
    ensures Written(out, ObjectText(entries, depth0 + 1, fmt) + ['\0'])
  {
    var depth := depth0 + 1;
    var len := 7;
    if fmt {
      len := len + depth;
    }
    ghost var base := len;
    for i := 0 to |entries|
      invariant len + MemberLengths(entries[i..], depth, fmt) == base + MemberLengths(entries, depth, fmt)
    {
      MemberLengthsNext(entries, i, depth, fmt);
      len := len + |entries[i].value| + |entries[i].name| + 2 + if fmt then 2 + depth else 0;
    }
    out := new char[len];
    JoinedMembersFits(entries, depth, fmt);
    hide JoinedMembers, MemberLengths, Written;
    NothingYet(out);
    Put(out, 0, '{', "");
    ghost var t0: string := ['{'];
    assert "" + t0 == t0;
    var at := PutIf(out, 1, fmt, '\n', t0);
    ghost var t1 := t0 + If(fmt, ['\n']);
    at := ComposeObject(out, at, entries, depth, fmt, t1);
    ghost var t2 := t1 + JoinedMembers(entries, depth, fmt);
    at := PutTabs(out, at, fmt, depth - 1, t2);
    ghost var t3 := t2 + If(fmt, Tabs(depth - 1));
    Put(out, at, '}', t3);
    Put(out, at + 1, '\0', t3 + ['}']);
    ObjectPieces(entries, depth, fmt);
  }

  lemma NothingYet(a: array<char>)
    ensures Written(a, "")
  {
  }

  lemma ObjectPieces(entries: seq<Entry>, depth: nat, fmt: bool)
    requires depth > 0
    ensures ((['{'] + If(fmt, ['\n'])) + JoinedMembers(entries, depth, fmt)) + If(fmt, Tabs(depth - 1)) + ['}']
         == ObjectText(entries, depth, fmt)
  {
    hide JoinedMembers;
    var a: string, b, c, d, e := ['{'], If(fmt, ['\n']), JoinedMembers(entries, depth, fmt), If(fmt, Tabs(depth - 1)), ['}'];
    Associative(a + b + c, d, e);
    Associative(a + b, c, d + e);
    Associative(a, b, c + (d + e));
  }

  /** The composing loop. */
  method ComposeObject(out: array<char>, at0: nat, entries: seq<Entry>, depth: nat, fmt: bool, ghost done0: string) returns (at: nat)
    requires Written(out, done0) && |done0| == at0 && at0 + |JoinedMembers(entries, depth, fmt)| <= out.Length
    modifies out
    ensures at == at0 + |JoinedMembers(entries, depth, fmt)| && Written(out, done0 + JoinedMembers(entries, depth, fmt))
  {
    hide JoinedMembers, Written;
    at := at0;
    ghost var done, goal := done0, done0 + JoinedMembers(entries, depth, fmt);
    assert entries[0..] == entries;
    for i := 0 to |entries|
      invariant |done| == at && Written(out, done)
      invariant done + JoinedMembers(entries[i..], depth, fmt) == goal
    {
      at, done := ComposeMember(out, at, entries, i, depth, fmt, done, goal);
    }
    NoMembersJoined(entries[|entries|..], depth, fmt);
    assert done + "" == done;
  }

  lemma NoMembersJoined(entries: seq<Entry>, depth: nat, fmt: bool)
    requires entries == []
    ensures JoinedMembers(entries, depth, fmt) == ""
  {
  }

  /** One member: tabs, name, colon, tab, value, comma, line feed. */
  method ComposeMember(out: array<char>, at: nat, entries: seq<Entry>, i: nat, depth: nat, fmt: bool,
                       ghost done: string, ghost goal: string)
    returns (next: nat, ghost text: string)
    requires i < |entries| && Written(out, done) && |done| == at
    requires done + JoinedMembers(entries[i..], depth, fmt) == goal && |goal| <= out.Length
    modifies out
    ensures |text| == next && Written(out, text) && text + JoinedMembers(entries[i + 1..], depth, fmt) == goal
  {
    var e, last := entries[i], i == |entries| - 1;
    ghost var comma := if last then "" else [','];
    ghost var t1 := done + If(fmt, Tabs(depth));
    ghost var t2 := t1 + e.name;
    ghost var t3 := t2 + [':'];
    ghost var t4 := t3 + If(fmt, ['\t']);
    ghost var t5 := t4 + e.value;
    ghost var t6 := t5 + comma;
    text := t6 + If(fmt, ['\n']);
    MemberPieces(entries, i, depth, fmt, done);
    hide JoinedMembers, Written, Tabs;
    next := PutTabs(out, at, fmt, depth, done);
    PutAll(out, next, e.name, t1);
    Put(out, next + |e.name|, ':', t2);
    next := PutIf(out, next + |e.name| + 1, fmt, '\t', t3);
    PutAll(out, next, e.value, t4);
    next := next + |e.value|;
    next := PutIf(out, next, !last, ',', t5);
    next := PutIf(out, next, fmt, '\n', t6);
  }

  lemma MemberPieces(entries: seq<Entry>, i: nat, depth: nat, fmt: bool, done: string)
    requires i < |entries|
    ensures var e := entries[i];
            var comma := if i == |entries| - 1 then "" else [','];
            done + JoinedMembers(entries[i..], depth, fmt)
            == done + If(fmt, Tabs(depth)) + e.name + [':'] + If(fmt, ['\t']) + e.value + comma + If(fmt, ['\n'])
               + JoinedMembers(entries[i + 1..], depth, fmt)
  {
    var e := entries[i];
    var rest := JoinedMembers(entries[i + 1..], depth, fmt);
    var comma := if i == |entries| - 1 then "" else [','];
    assert entries[i..][1..] == entries[i + 1..];
    var tail := comma + (If(fmt, ['\n']) + rest);
    var a, c, d: string := If(fmt, Tabs(depth)), [':'], If(fmt, ['\t']);
    assert JoinedMembers(entries[i..], depth, fmt) == a + (e.name + (c + (d + (e.value + tail)))) by {
      if i == |entries| - 1 {
        assert tail == If(fmt, ['\n']);
      }
    }
    hide JoinedMembers, Tabs;
    Associative(done, a, e.name + (c + (d + (e.value + tail))));
    Associative(done + a, e.name, c + (d + (e.value + tail)));
    Associative(done + a + e.name, c, d + (e.value + tail));
    Associative(done + a + e.name + c, d, e.value + tail);
    Associative(done + a + e.name + c + d, e.value, tail);
    Associative(done + a + e.name + c + d + e.value, comma, If(fmt, ['\n']) + rest);
    Associative(done + a + e.name + c + d + e.value + comma, If(fmt, ['\n']), rest);
  }

  // ----- the buffers hold the prints -----

  lemma EntriesThere(ms: Members, depth: nat, fmt: bool)
    requires PrintableMembers(ms) && ms.Member?
    ensures MemberEntries(ms, depth, fmt) != []
  {
  }

  lemma ArrayText(items: Items, depth: nat, fmt: bool)
    requires PrintableItems(items)
    ensures ['['] + (Joined(Entries(items, depth + 1, fmt), fmt) + [']']) == Print(Array(items), depth, fmt)
  {
    if items.NoItems? {
    } else {
      JoinedIsPrint(items, depth + 1, fmt);
      hide Joined, Entries, PrintItems;
    }
  }

  /** The empty object: formatted, it has a line feed and one tab less than its depth. */
  method PrintEmptyObject(depth: nat, fmt: bool) returns (out: array<char>)
    ensures fresh(out)
    ensures out.Length == if fmt then depth + 4 else 3
    ensures Written(out, Print(Object(NoMembers), depth, fmt) + ['\0'])
  {
    out := new char[if fmt then depth + 4 else 3];
    Put(out, 0, '{', "");
    ghost var t0: string := ['{'];
    assert "" + t0 == t0;
    var at := PutIf(out, 1, fmt, '\n', t0);
    ghost var t1 := t0 + If(fmt, ['\n']);
    var tabs := if depth > 0 then depth - 1 else 0;
    at := PutTabs(out, at, fmt, tabs, t1);
    ghost var t2 := t1 + If(fmt, Tabs(tabs));
    Put(out, at, '}', t2);
    Put(out, at + 1, '\0', t2 + ['}']);
    assert t2 + ['}'] == Print(Object(NoMembers), depth, fmt);
  }
}
