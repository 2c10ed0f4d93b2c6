/** cJSON_Minify: in place, and what it makes of printed text. */
module JsonMinify {
  import opened Bytes
  import opened Json
  import JsonRoundTrip

  predicate White(c: char) {
    c == ' ' || c == '\t' || c == '\r' || c == '\n'
  }

  /** A //-comment ends in front of the line feed. */
  function SkipLine(s: string): (r: string)
    ensures |r| <= |s| && (s != "" && s[0] != '\n' ==> |r| < |s|)
  {
    if s != "" && s[0] != '\n' then SkipLine(s[1..]) else s
  }

  /** Behind the next closing of a block comment; none when there is no such thing before the end. */
  function SkipBlock(s: string): (r: Option<string>)
    ensures r.Some? ==> |r.value| < |s|
  {
    if s == "" then None
    else if s[0] == '*' && Peek(s[1..]) == '/' then Some(s[2..])
    else SkipBlock(s[1..])
  }

  /** The rest of a string literal, copied with its closing quote; none when it does not end. */
  function CopyString(s: string): (p: Option<Piece>)
    ensures p.Some? ==> |p.value.rest| < |s|
    decreases |s|
  {
    if s == "" then None
    else if s[0] == '\"' then Some(Piece(['\"'], s[1..]))
    else if s[0] != '\\' then Before([s[0]], CopyString(s[1..]))
    else if |s| < 2 then None
    else Before(s[..2], CopyString(s[2..]))
  }

  function Glue(t: string, o: Option<string>): Option<string> {
    if o.Some? then Some(t + o.value) else None
  }

  /** The minified text; none when the C code would run past the end, in an unfinished comment or string. */
  function MinifyText(s: string): Option<string>
    decreases |s|
  {
    if s == "" then Some("")
    else if White(s[0]) then MinifyText(s[1..])
    else if s[0] == '/' && Peek(s[1..]) == '/' then MinifyText(SkipLine(s))
    else if s[0] == '/' && Peek(s[1..]) == '*' then
      var rest := SkipBlock(s);
      if rest.None? then None else MinifyText(rest.value)
    else if s[0] == '\"' then
      var p := CopyString(s[1..]);
      if p.None? then None else Glue(['\"'] + p.value.text, MinifyText(p.value.rest))
    else Glue([s[0]], MinifyText(s[1..]))
  }

  lemma GlueGlue(a: string, b: string, o: Option<string>)
    ensures Glue(a, Glue(b, o)) == Glue(a + b, o)
    ensures Glue("", o) == o
  {
    if o.Some? {
      Associative(a, b, o.value);
      assert "" + o.value == o.value;
    }
  }

  // ----- printed text -----

  /** p turns into q, whatever follows it. */
  ghost predicate Becomes(p: string, q: string) {
    forall rest: string :: MinifyText(p + rest) == Glue(q, MinifyText(rest))
  }

  lemma Joined(p1: string, q1: string, p2: string, q2: string)
    requires Becomes(p1, q1) && Becomes(p2, q2)
    ensures Becomes(p1 + p2, q1 + q2)
  {
    hide MinifyText;
    forall rest: string ensures MinifyText((p1 + p2) + rest) == Glue(q1 + q2, MinifyText(rest)) {
      Associative(p1, p2, rest);
      GlueGlue(q1, q2, MinifyText(rest));
    }
  }

  predicate Bare(c: char) {
    !White(c) && c != '/' && c != '\"'
  }

  lemma {:induction false} BareBecomes(s: string)
    requires forall i | 0 <= i < |s| :: Bare(s[i])
    ensures Becomes(s, s)
    decreases |s|
  {
    if s == "" {
      forall rest: string ensures MinifyText(s + rest) == Glue(s, MinifyText(rest)) {
        GlueGlue("", "", MinifyText(rest));
        assert s + rest == rest;
      }
    } else {
      OneBare(s[0]);
      BareBecomes(s[1..]);
      Joined([s[0]], [s[0]], s[1..], s[1..]);
      assert [s[0]] + s[1..] == s;
    }
  }

  lemma OneBare(c: char)
    requires Bare(c)
    ensures Becomes([c], [c])
  {
    forall rest: string ensures MinifyText([c] + rest) == Glue([c], MinifyText(rest)) {
      assert ([c] + rest)[1..] == rest;
    }
  }

  lemma {:induction false} WhiteBecomes(w: string)
    requires forall i | 0 <= i < |w| :: White(w[i])
    ensures Becomes(w, "")
    decreases |w|
  {
    if w != "" {
      WhiteBecomes(w[1..]);
    }
    forall rest: string ensures MinifyText(w + rest) == Glue("", MinifyText(rest)) {
      GlueGlue("", "", MinifyText(rest));
      if w == "" {
        assert w + rest == rest;
      } else {
        assert (w + rest)[1..] == w[1..] + rest;
      }
    }
  }

  lemma CopyChar(c: char, rest: string)
    requires 0 < c as int < 256
    ensures CopyString(EscapeChar(c) + rest) == Before(EscapeChar(c), CopyString(rest))
  {
    JsonRoundTrip.EscapeShapes(c);
    hide EscapeChar;
    var e := EscapeChar(c);
    var s := e + rest;
    if |e| == 1 {
      assert s[0] == c && s[1..] == rest;
    } else if |e| == 2 {
      assert s[0] == '\\' && s[..2] == e && s[2..] == rest;
    } else {
      CopyHexEscape(e, rest);
    }
  }

  lemma CopyHexEscape(e: string, rest: string)
    requires |e| == 6 && e[0] == '\\' && forall i | 2 <= i < 6 :: e[i] != '\\' && e[i] != '\"'
    ensures CopyString(e + rest) == Before(e, CopyString(rest))
  {
    var s := e + rest;
    assert s[0] == '\\' && s[..2] == e[..2] && s[2..] == e[2..] + rest;
    CopyHex(e[2..], rest);
    BeforeBefore(e[..2], e[2..], CopyString(rest));
    assert e[..2] + e[2..] == e;
  }

  lemma {:induction false} CopyHex(h: string, rest: string)
    requires forall i | 0 <= i < |h| :: h[i] != '\\' && h[i] != '\"'
    ensures CopyString(h + rest) == Before(h, CopyString(rest))
    decreases |h|
  {
    if h == "" {
      assert h + rest == rest;
      BeforeBefore("", "", CopyString(rest));
    } else {
      assert (h + rest)[0] == h[0] && (h + rest)[1..] == h[1..] + rest;
      CopyHex(h[1..], rest);
      BeforeBefore([h[0]], h[1..], CopyString(rest));
      assert [h[0]] + h[1..] == h;
    }
  }

  lemma BeforeBefore(a: string, b: string, p: Option<Piece>)
    ensures Before(a, Before(b, p)) == Before(a + b, p)
    ensures Before("", p) == p
  {
    if p.Some? {
      Associative(a, b, p.value.text);
      assert "" + p.value.text == p.value.text;
    }
  }

  lemma {:induction false} CopyEscaped(s: string, rest: string)
    requires CString(s)
    ensures CopyString(Escaped(s) + (['\"'] + rest)) == Some(Piece(Escaped(s) + ['\"'], rest))
    decreases |s|
  {
    hide EscapeChar;
    var end := ['\"'] + rest;
    if s == "" {
      assert Escaped(s) + end == end && end[1..] == rest && Escaped(s) + ['\"'] == ['\"'];
    } else {
      hide CopyString;
      CopyEscaped(s[1..], rest);
      CopyChar(s[0], Escaped(s[1..]) + end);
      Associative(EscapeChar(s[0]), Escaped(s[1..]), end);
      Associative(EscapeChar(s[0]), Escaped(s[1..]), ['\"']);
    }
  }

  lemma StringBranch(s: string, p: Piece)
    requires s != "" && s[0] == '\"' && CopyString(s[1..]) == Some(p)
    ensures MinifyText(s) == Glue(['\"'] + p.text, MinifyText(p.rest))
  {
    hide CopyString;
  }

  lemma QuotedBecomes(s: string)
    requires CString(s)
    ensures Becomes(Quoted(s), Quoted(s))
  {
    hide CopyString, Escaped, MinifyText;
    forall rest: string ensures MinifyText(Quoted(s) + rest) == Glue(Quoted(s), MinifyText(rest)) {
      CopyEscaped(s, rest);
      var t := Quoted(s) + rest;
      assert t[0] == '\"' && t[1..] == Escaped(s) + (['\"'] + rest);
      StringBranch(t, Piece(Escaped(s) + ['\"'], rest));
    }
  }

  lemma IfBecomes(fmt: bool, w: string)
    requires forall i | 0 <= i < |w| :: White(w[i])
    ensures Becomes(If(fmt, w), "")
  {
    WhiteBecomes(If(fmt, w));
  }

  lemma NumberBecomes(n: int)
    ensures Becomes(PrintNumber(n), PrintNumber(n))
  {
    var p := PrintNumber(n);
    assert forall i | 0 <= i < |p| :: p[i] == '-' || IsDigit(p[i]);
    BareBecomes(p);
  }

  /** Formatting is exactly what the minifier takes away. */
  lemma {:induction false} MinifiedPrint(v: Value, depth: nat, fmt: bool)
    requires Printable(v)
    ensures Becomes(Print(v, depth, fmt), Print(v, depth, false))
    decreases v, 1
  {
    hide Becomes, PrintItems, PrintMembers, Quoted, PrintNumber;
    match v {
      case Number(n) => NumberBecomes(n);
      case Str(s) => QuotedBecomes(s);
      case Array(items) =>
        BareBecomes("[");
        BareBecomes("]");
        if items.NoItems? {
          BareBecomes("[]");
        } else {
          MinifiedItems(items, depth + 1, fmt);
          var p, q := PrintItems(items, depth + 1, fmt), PrintItems(items, depth + 1, false);
          Joined(p, q, "]", "]");
          Joined("[", "[", p + "]", q + "]");
        }
      case Object(ms) => MinifiedObject(v, depth, fmt);
      case _ => BareBecomes(Print(v, depth, fmt));
    }
  }

  lemma {:induction false} MinifiedItems(items: Items, depth: nat, fmt: bool)
    requires PrintableItems(items) && items.Item?
    ensures Becomes(PrintItems(items, depth, fmt), PrintItems(items, depth, false))
    decreases items
  {
    hide Becomes, Print;
    var p, q := Print(items.head, depth, fmt), Print(items.head, depth, false);
    MinifiedPrint(items.head, depth, fmt);
    if items.tail.NoItems? {
      assert p + "" == p && q + "" == q;
    } else {
      var p2, q2 := PrintItems(items.tail, depth, fmt), PrintItems(items.tail, depth, false);
      MinifiedItems(items.tail, depth, fmt);
      IfBecomes(fmt, " ");
      BareBecomes(",");
      Joined(If(fmt, " "), "", p2, q2);
      Joined(",", ",", If(fmt, " ") + p2, "" + q2);
      Joined(p, q, "," + (If(fmt, " ") + p2), "," + ("" + q2));
    }
  }

  lemma {:induction false} MinifiedObject(v: Value, depth: nat, fmt: bool)
    requires Printable(v) && v.Object?
    ensures Becomes(Print(v, depth, fmt), Print(v, depth, false))
    decreases v, 0
  {
    hide Becomes, PrintMembers;
    BareBecomes("{");
    BareBecomes("}");
    if v.members.NoMembers? {
      var w := ['\n'] + Tabs(depth - 1);
      IfBecomes(fmt, w);
      Joined(If(fmt, w), "", "}", "}");
      Joined("{", "{", If(fmt, w) + "}", "" + "}");
    } else {
      var p, q := PrintMembers(v.members, depth + 1, fmt), PrintMembers(v.members, depth + 1, false);
      MinifiedMembers(v.members, depth + 1, fmt);
      IfBecomes(fmt, ['\n']);
      IfBecomes(fmt, Tabs(depth));
      Joined(If(fmt, Tabs(depth)), "", "}", "}");
      Joined(p, q, If(fmt, Tabs(depth)) + "}", "" + "}");
      Joined(If(fmt, ['\n']), "", p + (If(fmt, Tabs(depth)) + "}"), q + ("" + "}"));
      Joined("{", "{", If(fmt, ['\n']) + (p + (If(fmt, Tabs(depth)) + "}")), "" + (q + ("" + "}")));
    }
  }

  lemma {:induction false} MinifiedMembers(ms: Members, depth: nat, fmt: bool)
    requires PrintableMembers(ms) && ms.Member?
    ensures Becomes(PrintMembers(ms, depth, fmt), PrintMembers(ms, depth, false))
    decreases ms
  {
    hide Becomes, Print, Quoted;
    var p, q := Print(ms.value, depth, fmt), Print(ms.value, depth, false);
    var t, w, n := If(fmt, Tabs(depth)), If(fmt, ['\t']), Quoted(ms.name);
    var nl := If(fmt, ['\n']);
    IfBecomes(fmt, Tabs(depth));
    IfBecomes(fmt, ['\t']);
    IfBecomes(fmt, ['\n']);
    QuotedBecomes(ms.name);
    BareBecomes(":");
    BareBecomes(",");
    MinifiedPrint(ms.value, depth, fmt);
    var e, f := nl, "";
    if ms.tail.Member? {
      var p2, q2 := PrintMembers(ms.tail, depth, fmt), PrintMembers(ms.tail, depth, false);
      MinifiedMembers(ms.tail, depth, fmt);
      Joined(nl, "", p2, q2);
      Joined(",", ",", nl + p2, "" + q2);
      e, f := "," + (nl + p2), "," + ("" + q2);
    }
    Joined(p, q, e, f);
    Joined(w, "", p + e, q + f);
    Joined(":", ":", w + (p + e), "" + (q + f));
    Joined(n, n, ":" + (w + (p + e)), ":" + ("" + (q + f)));
    Joined(t, "", n + (":" + (w + (p + e))), n + (":" + ("" + (q + f))));
  }

  /** cJSON_Minify of either print is cJSON_PrintUnformatted. */
  lemma MinifyOfPrint(v: Value, fmt: bool)
    requires Printable(v)
    ensures MinifyText(Print(v, 0, fmt)) == Some(Print(v, 0, false))
  {
    hide Print;
    MinifiedPrint(v, 0, fmt);
    var p, q := Print(v, 0, fmt), Print(v, 0, false);
    assert MinifyText(p + "") == Glue(q, MinifyText(""));
    assert p + "" == p && q + "" == q;
  }

  // ----- in place -----

  /** The C string s ends at index |s| of the array, and from index `at` on it is still all there. */
  ghost predicate Unread(a: array<char>, s: string, tail: string, at: nat)
    reads a
  {
    && at <= |s| < a.Length == |s| + |tail| && tail[0] == '\0'
    && (forall i | at <= i < |s| :: a[i] == s[i])
    && (forall i | |s| <= i < a.Length :: a[i] == tail[i - |s|])
    && forall i | 0 <= i < |s| :: s[i] != '\0'
  }

  lemma Ahead(a: array<char>, s: string, tail: string, at: nat)
    requires Unread(a, s, tail, at)
    ensures at <= |s| < a.Length && (a[at] == '\0' <==> at == |s|)
    ensures at < |s| ==> a[at] == s[at] == s[at..][0] && s[at..][1..] == s[at + 1..]
    ensures at < |s| ==> Peek(s[at..][1..]) == a[at + 1] && Unread(a, s, tail, at + 1)
  {
  }

  /** One character moved down: *into++=*json++. */
  method CopyOne(json: array<char>, into: nat, at: nat, ghost s: string, ghost tail: string, ghost out: string)
    requires Unread(json, s, tail, at) && Written(json, out) && |out| == into <= at < |s|
    modifies json
    ensures Written(json, out + [s[at]]) && Unread(json, s, tail, at + 1)
  {
    json[into] := json[at];
  }

  /** One character of a string literal, with its backslash if it has one. */
  method CopyCharacter(json: array<char>, into: nat, at: nat, ghost s: string, ghost tail: string, ghost out: string)
    returns (copied: nat, ghost piece: string)
    requires Unread(json, s, tail, at) && Written(json, out) && |out| == into <= at < |s|
    requires s[at] != '\"' && CopyString(s[at..]).Some?
    modifies json
    ensures 0 < copied == |piece| && at + copied <= |s|
    ensures CopyString(s[at..]) == Before(piece, CopyString(s[at + copied..]))
    ensures Written(json, out + piece) && Unread(json, s, tail, at + copied)
  {
    Ahead(json, s, tail, at);
    copied, piece := 1, [s[at]];
    if json[at] == '\\' {
      Ahead(json, s, tail, at + 1);
      assert s[at..][..2] == [s[at], s[at + 1]] && s[at..][2..] == s[at + 2..];
      hide CopyString, Unread, Written;
      copied, piece := 2, [s[at], s[at + 1]];
      CopyOne(json, into, at, s, tail, out);
      CopyOne(json, into + 1, at + 1, s, tail, out + [s[at]]);
      assert (out + [s[at]]) + [s[at + 1]] == out + piece;
    } else {
      CopyOne(json, into, at, s, tail, out);
    }
  }

  lemma InLiteral(a: array<char>, s: string, tail: string, at: nat)
    requires Unread(a, s, tail, at) && CopyString(s[at..]).Some?
    ensures at < |s| < a.Length && a[at] == s[at] != '\0'
  {
  }

  /** In the middle of a string literal whose text so far has been written behind `out`. */
  ghost predicate Copying(a: array<char>, s: string, tail: string, at: nat, out: string, text: string, goal: Option<Piece>)
    reads a
  {
    && Unread(a, s, tail, at) && Written(a, out + text) && |out| + |text| <= at < |s| < a.Length
    && a[at] == s[at] != '\0'
    && goal.Some? && goal == Before(text, CopyString(s[at..]))
  }

  method CopyNext(json: array<char>, at0: nat, ghost s: string, ghost tail: string, into: nat,
                  ghost out: string, ghost text0: string, ghost goal: Option<Piece>)
    returns (copied: nat, ghost text: string)
    requires Copying(json, s, tail, at0, out, text0, goal) && into == |out| + |text0| && json[at0] != '\"'
    modifies json
    ensures copied > 0 && |text| == |text0| + copied
    ensures Copying(json, s, tail, at0 + copied, out, text, goal)
    ensures at0 + copied < |s| < json.Length && json[at0 + copied] == s[at0 + copied] != '\0'
  {
    hide CopyString, Unread, Written;
    ghost var piece;
    copied, piece := CopyCharacter(json, into, at0, s, tail, out + text0);
    text := text0 + piece;
    Associative(out, text0, piece);
    BeforeBefore(text0, piece, CopyString(s[at0 + copied..]));
    InLiteral(json, s, tail, at0 + copied);
  }

  lemma StartCopying(a: array<char>, s: string, tail: string, at: nat, out: string)
    requires Unread(a, s, tail, at) && Written(a, out) && |out| <= at && CopyString(s[at..]).Some?
    ensures Copying(a, s, tail, at, out, "", CopyString(s[at..]))
  {
    BeforeBefore("", "", CopyString(s[at..]));
    assert out + "" == out;
  }

  /** The inner loop of the string branch, up to the closing quote. */
  method CopyBody(json: array<char>, into0: nat, at0: nat, ghost s: string, ghost tail: string,
                  ghost out: string, ghost goal: Option<Piece>)
    returns (copied: nat, ghost text: string)
    requires Copying(json, s, tail, at0, out, "", goal) && into0 == |out|
    modifies json
    ensures copied == |text| && Copying(json, s, tail, at0 + copied, out, text, goal)
    ensures json[at0 + copied] == '\"'
  {
    hide CopyString, Unread, Written;
    copied, text := 0, "";
    while json[at0 + copied] != '\0' && json[at0 + copied] != '\"'
      invariant copied == |text| && Copying(json, s, tail, at0 + copied, out, text, goal)
      decreases |s| - at0 - copied
    {
      var n: nat;
      n, text := CopyNext(json, at0 + copied, s, tail, into0 + copied, out, text, goal);
      copied := copied + n;
    }
  }

  /** The string branch: from an opening quote at `at` to behind the closing one. */
  method CopyLiteral(json: array<char>, into0: nat, at0: nat, ghost s: string, ghost tail: string, ghost out: string)
    returns (into: nat, at: nat)
    requires Unread(json, s, tail, at0) && Written(json, out) && |out| == into0 <= at0 < |s|
    requires s[at0] == '\"' && CopyString(s[at0 + 1..]).Some?
    modifies json
    ensures into <= at <= |s| && at0 < at
    ensures var p := CopyString(s[at0 + 1..]).value;
            s[at..] == p.rest && Written(json, out + (['\"'] + p.text)) && into == |out| + 1 + |p.text|
    ensures Unread(json, s, tail, at)
  {
    CopyOne(json, into0, at0, s, tail, out);
    hide Unread, Written;
    var copied: nat;
    ghost var text;
    ghost var goal := CopyString(s[at0 + 1..]);
    StartCopying(json, s, tail, at0 + 1, out + ['\"']);
    copied, text := CopyBody(json, into0 + 1, at0 + 1, s, tail, out + ['\"'], goal);
    into, at := into0 + 1 + copied, at0 + 1 + copied;
    assert s[at..][1..] == s[at + 1..];
    CopyOne(json, into, at, s, tail, (out + ['\"']) + text);
    into, at := into + 1, at + 1;
    Associative(out, ['\"'], text + ['\"']);
    Associative(out + ['\"'], text, ['\"']);
  }

  /** cJSON_Minify: the write index never passes the read index, so one buffer serves both. */
  method Minify(json: array<char>, ghost s: string, ghost tail: string) returns (into: nat)
    requires Unread(json, s, tail, 0) && MinifyText(s).Some?
    modifies json
    ensures into <= |s| < json.Length && json[..into] == MinifyText(s).value && json[into] == '\0'
    ensures json[|s| + 1..] == tail[1..]
  {
    var at := 0;
    into := 0;
    ghost var goal, out := MinifyText(s), "";
    GlueGlue("", "", goal);
    assert s[0..] == s;
    Ahead(json, s, tail, at);
    while json[at] != '\0'
      invariant into == |out| <= at <= |s| < json.Length && Unread(json, s, tail, at) && Written(json, out)
      invariant (json[at] == '\0' <==> at == |s|)
      invariant goal == Glue(out, MinifyText(s[at..])) && goal.Some?
      decreases |s| - at
    {
      into, at, out := MinifyOne(json, into, at, s, tail, out);
      Ahead(json, s, tail, at);
    }
    json[into] := '\0';
    assert out + "" == out;
    assert json[..into] == out;
  }

  /** One turn of the loop. */
  method MinifyOne(json: array<char>, into0: nat, at0: nat, ghost s: string, ghost tail: string, ghost out0: string)
    returns (into: nat, at: nat, ghost out: string)
    requires Unread(json, s, tail, at0) && Written(json, out0) && |out0| == into0 <= at0 < |s| && MinifyText(s[at0..]).Some?
    modifies json
    ensures into == |out| <= at <= |s| && at0 < at
    ensures Unread(json, s, tail, at) && Written(json, out)
    ensures Glue(out0, MinifyText(s[at0..])) == Glue(out, MinifyText(s[at..]))
  {
    Ahead(json, s, tail, at0);
    into, at, out := into0, at0, out0;
    if json[at] == ' ' || json[at] == '\t' || json[at] == '\r' || json[at] == '\n' {
      at := at + 1;
    } else if json[at] == '/' && json[at + 1] == '/' {
      at := PastLine(json, at, s, tail);
    } else if json[at] == '/' && json[at + 1] == '*' {
      at := PastBlock(json, at, s, tail);
    } else if json[at] == '\"' {
      ghost var p := CopyString(s[at + 1..]).value;
      out := out0 + (['\"'] + p.text);
      StringBranch(s[at..], p);
      hide MinifyText, CopyString, Unread, Written;
      into, at := CopyLiteral(json, into, at, s, tail, out0);
      GlueGlue(out0, ['\"'] + p.text, MinifyText(s[at..]));
    } else {
      GlueGlue(out0, [s[at]], MinifyText(s[at + 1..]));
      hide MinifyText, Unread, Written;
      CopyOne(json, into, at, s, tail, out0);
      out := out0 + [s[at]];
      into, at := into + 1, at + 1;
    }
  }

  method PastLine(json: array<char>, at0: nat, ghost s: string, ghost tail: string) returns (at: nat)
    requires Unread(json, s, tail, at0) && at0 < |s| && s[at0] != '\n'
    ensures at0 < at <= |s| && Unread(json, s, tail, at) && s[at..] == SkipLine(s[at0..])
  {
    at := at0;
    while json[at] != '\0' && json[at] != '\n'
      invariant at0 <= at <= |s| && Unread(json, s, tail, at)
      invariant SkipLine(s[at..]) == SkipLine(s[at0..])
      invariant at == at0 ==> json[at] == s[at0]
      decreases |s| - at
    {
      Ahead(json, s, tail, at);
      at := at + 1;
    }
    Ahead(json, s, tail, at);
  }

  method PastBlock(json: array<char>, at0: nat, ghost s: string, ghost tail: string) returns (at: nat)
    requires Unread(json, s, tail, at0) && at0 < |s| && SkipBlock(s[at0..]).Some?
    ensures at0 < at <= |s| && Unread(json, s, tail, at) && s[at..] == SkipBlock(s[at0..]).value
  {
    at := at0;
    Ahead(json, s, tail, at);
    while json[at] != '\0' && !(json[at] == '*' && json[at + 1] == '/')
      invariant at0 <= at <= |s| && Unread(json, s, tail, at)
      invariant SkipBlock(s[at..]) == SkipBlock(s[at0..])
      decreases |s| - at
    {
      Ahead(json, s, tail, at);
      at := at + 1;
    }
    Ahead(json, s, tail, at);
    Ahead(json, s, tail, at + 1);
    assert s[at..][2..] == s[at + 2..];
    at := at + 2;
  }
}
