/** cJSON_Minify on texts with comments: what is left is the text without its spaces, and parses to the same tree. */
module JsonComments {
  import opened Bytes
  import opened Json
  import opened JsonStrings
  import opened JsonGrammar
  import JsonMinify
  import JsonParser

  // ----- spaces -----

  lemma {:induction false} LineSkipped(s: string, rest: string)
    requires '\n' !in s
    ensures JsonMinify.SkipLine(s + (['\n'] + rest)) == ['\n'] + rest
    decreases |s|
  {
    if s == "" {
      assert s + (['\n'] + rest) == ['\n'] + rest;
    } else {
      assert (s + (['\n'] + rest))[1..] == s[1..] + (['\n'] + rest);
      LineSkipped(s[1..], rest);
    }
  }

  /** No closing of a block comment in here. */
  predicate NoClosing(b: string) {
    forall i | 0 <= i < |b| - 1 :: !(b[i] == '*' && b[i + 1] == '/')
  }

  lemma {:induction false} BlockSkipped(s: string, rest: string)
    requires NoClosing(s)
    ensures JsonMinify.SkipBlock(s + (['*', '/'] + rest)) == Some(rest)
    decreases |s|
  {
    var t := s + (['*', '/'] + rest);
    if s == "" {
      assert t[0] == '*' && t[1..][0] == '/' && t[2..] == rest;
    } else {
      assert t[1..] == s[1..] + (['*', '/'] + rest);
      assert NoClosing(s[1..]) by {
        assert forall i | 0 <= i < |s| - 1 :: s[1..][i] == s[i + 1];
      }
      assert |s| > 1 ==> t[1] == s[1];
      assert |s| == 1 ==> t[1] == '*';
      BlockSkipped(s[1..], rest);
    }
  }

  lemma BlankGoes(c: char, rest: string)
    requires White([c])
    ensures JsonMinify.MinifyText([c] + rest) == JsonMinify.MinifyText(rest)
  {
    assert [c][0] == c;
    assert ([c] + rest)[1..] == rest;
  }

  lemma LineGoes(body: string, rest: string)
    requires '\n' !in body
    ensures JsonMinify.MinifyText(['/', '/'] + (body + ['\n']) + rest) == JsonMinify.MinifyText(rest)
  {
    var s := ['/', '/'] + (body + ['\n']) + rest;
    assert s == (['/', '/'] + body) + (['\n'] + rest);
    LineSkipped(['/', '/'] + body, rest);
    assert s[0] == '/' && s[1..][0] == '/';
    BlankGoes('\n', rest);
    hide JsonMinify.SkipLine, JsonMinify.SkipBlock, JsonMinify.CopyString;
  }

  lemma BlockGoes(body: string, rest: string)
    requires NoClosing(['*'] + body)
    ensures JsonMinify.MinifyText(['/', '*'] + (body + ['*', '/']) + rest) == JsonMinify.MinifyText(rest)
  {
    var s := ['/', '*'] + (body + ['*', '/']) + rest;
    var b := ['/'] + (['*'] + body);
    assert NoClosing(b) by {
      assert forall i | 1 <= i < |b| :: b[i] == (['*'] + body)[i - 1];
    }
    assert s == b + (['*', '/'] + rest);
    BlockSkipped(b, rest);
    assert s[0] == '/' && s[1..][0] == '*';
    hide JsonMinify.SkipLine, JsonMinify.SkipBlock, JsonMinify.CopyString;
  }

  lemma SpaceGoes(w: Space)
    requires ProperSpace(w)
    ensures JsonMinify.Becomes(SpaceText(w), "")
  {
    forall rest: string ensures JsonMinify.MinifyText(SpaceText(w) + rest) == JsonMinify.Glue("", JsonMinify.MinifyText(rest)) {
      JsonMinify.GlueGlue("", "", JsonMinify.MinifyText(rest));
      hide JsonMinify.MinifyText;
      match w {
        case Blank(c) => BlankGoes(c, rest);
        case Line(body) => LineGoes(body, rest);
        case Block(body) => BlockGoes(body, rest);
      }
    }
  }

  lemma {:induction false} SpacesGo(ws: seq<Space>)
    requires ProperSpaces(ws)
    ensures JsonMinify.Becomes(Spaced(ws), "")
  {
    if ws == [] {
      JsonMinify.BareBecomes("");
    } else {
      hide JsonMinify.Becomes;
      SpaceGoes(ws[0]);
      SpacesGo(ws[1..]);
      JsonMinify.Joined(SpaceText(ws[0]), "", Spaced(ws[1..]), "");
      assert "" + "" == "";
    }
  }

  // ----- strings -----

  lemma HexCopied(h: string, n: nat, rest: string)
    requires Spells(h, n)
    ensures JsonMinify.CopyString(['\\', 'u'] + h + rest) == Before(['\\', 'u'] + h, JsonMinify.CopyString(rest))
  {
    var e := ['\\', 'u'] + h;
    assert forall i | 2 <= i < 6 :: e[i] == h[i - 2];
    JsonMinify.CopyHexEscape(e, rest);
  }

  lemma LetterCopied(l: Letter, rest: string)
    requires ProperLetter(l)
    ensures JsonMinify.CopyString(LetterText(l) + rest) == Before(LetterText(l), JsonMinify.CopyString(rest))
  {
    match l {
      case Plain(c) =>
        assert ([c] + rest)[1..] == rest;
      case Short(letter) =>
        var e := ['\\', letter];
        assert (e + rest)[..2] == e && (e + rest)[2..] == rest;
      case Hex(cp, h) =>
        hide JsonMinify.CopyString, Spells;
        HexCopied(h, cp, rest);
      case Pair(cp, hi, lo) =>
        hide JsonMinify.CopyString, Spells;
        var a, b := ['\\', 'u'] + hi, ['\\', 'u'] + lo;
        HexCopied(lo, 0xDC00 + (cp - 0x1_0000) % 0x400, rest);
        HexCopied(hi, 0xD800 + (cp - 0x1_0000) / 0x400, b + rest);
        JsonMinify.BeforeBefore(a, b, JsonMinify.CopyString(rest));
        assert LetterText(l) == a + b;
        Associative(a, b, rest);
    }
  }

  lemma {:induction false} LettersCopied(ls: seq<Letter>, rest: string)
    requires ProperLetters(ls)
    ensures JsonMinify.CopyString(LettersText(ls) + (['\"'] + rest)) == Some(Piece(LettersText(ls) + ['\"'], rest))
    decreases |ls|
  {
    var end := ['\"'] + rest;
    if ls == [] {
      assert LettersText(ls) + end == end && end[1..] == rest && LettersText(ls) + ['\"'] == ['\"'];
    } else {
      hide JsonMinify.CopyString, LetterText, ProperLetter;
      LettersCopied(ls[1..], rest);
      LetterCopied(ls[0], LettersText(ls[1..]) + end);
      Associative(LetterText(ls[0]), LettersText(ls[1..]), end);
      Associative(LetterText(ls[0]), LettersText(ls[1..]), ['\"']);
    }
  }

  lemma NameStays(ls: seq<Letter>)
    requires ProperLetters(ls)
    ensures JsonMinify.Becomes(NameText(ls), NameText(ls))
  {
    hide JsonMinify.CopyString, LettersText, JsonMinify.MinifyText;
    forall rest: string
      ensures JsonMinify.MinifyText(NameText(ls) + rest) == JsonMinify.Glue(NameText(ls), JsonMinify.MinifyText(rest))
    {
      LettersCopied(ls, rest);
      var t := NameText(ls) + rest;
      assert t[0] == '\"' && t[1..] == LettersText(ls) + (['\"'] + rest);
      JsonMinify.StringBranch(t, Piece(LettersText(ls) + ['\"'], rest));
    }
  }

  // ----- texts -----

  /** The text without its spaces. */
  function Bared(t: Text): Text {
    match t
    case EmptyArray(_) => EmptyArray([])
    case EmptyObject(_) => EmptyObject([])
    case Elements(e) => Elements(BaredElements(e))
    case Fields(f) => Fields(BaredFields(f))
    case _ => t
  }

  function BaredElements(e: ElementTexts): ElementTexts {
    if e.LastElement? then LastElement([], Bared(e.t), []) else NextElement([], Bared(e.t), [], BaredElements(e.tail))
  }

  function BaredFields(f: FieldTexts): FieldTexts {
    if f.LastField? then LastField([], f.name, [], [], Bared(f.t), [])
    else NextField([], f.name, [], [], Bared(f.t), [], BaredFields(f.tail))
  }

  lemma {:induction false} BaredStandsFor(t: Text)
    requires Proper(t)
    ensures Proper(Bared(t)) && Plainly(Bared(t)) && Tree(Bared(t)) == Tree(t)
  {
    match t {
      case Elements(e) => BaredElementsStandFor(e);
      case Fields(f) => BaredFieldsStandFor(f);
      case _ =>
    }
  }

  lemma {:induction false} BaredElementsStandFor(e: ElementTexts)
    requires ProperElements(e)
    ensures ProperElements(BaredElements(e)) && PlainElements(BaredElements(e))
    ensures ElementTrees(BaredElements(e)) == ElementTrees(e)
  {
    BaredStandsFor(e.t);
    if e.NextElement? {
      BaredElementsStandFor(e.tail);
    }
  }

  lemma {:induction false} BaredFieldsStandFor(f: FieldTexts)
    requires ProperFields(f)
    ensures ProperFields(BaredFields(f)) && PlainFields(BaredFields(f)) && FieldTrees(BaredFields(f)) == FieldTrees(f)
  {
    BaredStandsFor(f.t);
    if f.NextField? {
      BaredFieldsStandFor(f.tail);
    }
  }

  /** The minifier takes exactly the spaces away, comments included, wherever the text stands. */
  lemma {:induction false} Minified(t: Text)
    requires Proper(t)
    ensures JsonMinify.Becomes(Spelled(t), Spelled(Bared(t)))
    decreases t, 1
  {
    hide JsonMinify.Becomes, ElementsSpelled, FieldsSpelled, NameText, Spaced, PrintNumber;
    match t {
      case Integer(n) => JsonMinify.NumberBecomes(n);
      case String(ls) => NameStays(ls);
      case EmptyArray(w) =>
        SpacesGo(w);
        SpacesGo([]);
        EmptyMinified('[', w, ']');
      case EmptyObject(w) =>
        SpacesGo(w);
        SpacesGo([]);
        EmptyMinified('{', w, '}');
      case Elements(e) =>
        MinifiedElements(e);
        JsonMinify.OneBare('[');
        JsonMinify.Joined(['['], ['['], ElementsSpelled(e), ElementsSpelled(BaredElements(e)));
      case Fields(f) =>
        MinifiedFields(f);
        JsonMinify.OneBare('{');
        JsonMinify.Joined(['{'], ['{'], FieldsSpelled(f), FieldsSpelled(BaredFields(f)));
      case _ => JsonMinify.BareBecomes(Spelled(t));
    }
  }

  lemma EmptyMinified(open: char, w: seq<Space>, close: char)
    requires ProperSpaces(w) && JsonMinify.Bare(open) && JsonMinify.Bare(close)
    ensures JsonMinify.Becomes([open] + (Spaced(w) + [close]), [open] + (Spaced([]) + [close]))
  {
    hide JsonMinify.Becomes;
    SpacesGo(w);
    JsonMinify.OneBare(open);
    JsonMinify.OneBare(close);
    JsonMinify.Joined(Spaced(w), "", [close], [close]);
    JsonMinify.Joined([open], [open], Spaced(w) + [close], "" + [close]);
  }

  lemma BaredParts(e: ElementTexts)
    ensures ElementsSpelled(e) == Spaced(e.before) + (Spelled(e.t) + (Spaced(e.after) + ElementEnd(e)))
    ensures var b := BaredElements(e);
            && ElementsSpelled(b) == "" + (Spelled(Bared(e.t)) + ("" + ElementEnd(b)))
            && ElementEnd(b) == if e.LastElement? then [']'] else [','] + ElementsSpelled(BaredElements(e.tail))
  {
  }

  lemma {:induction false} MinifiedElements(e: ElementTexts)
    requires ProperElements(e)
    ensures JsonMinify.Becomes(ElementsSpelled(e), ElementsSpelled(BaredElements(e)))
    decreases e, 0
  {
    BaredParts(e);
    Minified(e.t);
    SpacesGo(e.before);
    SpacesGo(e.after);
    JsonMinify.OneBare(',');
    JsonMinify.OneBare(']');
    hide JsonMinify.Becomes, Spelled, ElementsSpelled, Spaced;
    var p, q := ElementEnd(e), ElementEnd(BaredElements(e));
    if e.NextElement? {
      MinifiedElements(e.tail);
      JsonMinify.Joined([','], [','], ElementsSpelled(e.tail), ElementsSpelled(BaredElements(e.tail)));
    }
    hide ElementEnd;
    JsonMinify.Joined(Spaced(e.after), "", p, q);
    JsonMinify.Joined(Spelled(e.t), Spelled(Bared(e.t)), Spaced(e.after) + p, "" + q);
    JsonMinify.Joined(Spaced(e.before), "", Spelled(e.t) + (Spaced(e.after) + p), Spelled(Bared(e.t)) + ("" + q));
  }

  lemma BaredFieldParts(f: FieldTexts)
    ensures FieldsSpelled(f) == Spaced(f.before) + (NameText(f.name) + (Spaced(f.colon) + ([':'] + (Spaced(f.behind)
                                + (Spelled(f.t) + (Spaced(f.after) + FieldEnd(f)))))))
    ensures var b := BaredFields(f);
            && FieldsSpelled(b) == "" + (NameText(f.name) + ("" + ([':'] + ("" + (Spelled(Bared(f.t)) + ("" + FieldEnd(b)))))))
            && FieldEnd(b) == if f.LastField? then ['}'] else [','] + FieldsSpelled(BaredFields(f.tail))
  {
  }

  lemma {:induction false} MinifiedFields(f: FieldTexts)
    requires ProperFields(f)
    ensures JsonMinify.Becomes(FieldsSpelled(f), FieldsSpelled(BaredFields(f)))
    decreases f, 0
  {
    BaredFieldParts(f);
    Minified(f.t);
    NameStays(f.name);
    SpacesGo(f.before);
    SpacesGo(f.colon);
    SpacesGo(f.behind);
    SpacesGo(f.after);
    JsonMinify.OneBare(',');
    JsonMinify.OneBare(':');
    JsonMinify.OneBare('}');
    hide JsonMinify.Becomes, Spelled, FieldsSpelled, Spaced, NameText;
    var p, q := FieldEnd(f), FieldEnd(BaredFields(f));
    if f.NextField? {
      MinifiedFields(f.tail);
      JsonMinify.Joined([','], [','], FieldsSpelled(f.tail), FieldsSpelled(BaredFields(f.tail)));
    }
    hide FieldEnd;
    var v, w, n := Spelled(f.t), Spelled(Bared(f.t)), NameText(f.name);
    JsonMinify.Joined(Spaced(f.after), "", p, q);
    p, q := Spaced(f.after) + p, "" + q;
    JsonMinify.Joined(v, w, p, q);
    p, q := v + p, w + q;
    JsonMinify.Joined(Spaced(f.behind), "", p, q);
    p, q := Spaced(f.behind) + p, "" + q;
    JsonMinify.Joined([':'], [':'], p, q);
    p, q := [':'] + p, [':'] + q;
    JsonMinify.Joined(Spaced(f.colon), "", p, q);
    p, q := Spaced(f.colon) + p, "" + q;
    JsonMinify.Joined(n, n, p, q);
    JsonMinify.Joined(Spaced(f.before), "", n + p, n + q);
  }

  /** Minifying a commented text and parsing what is left gives the tree that the text stands for. */
  lemma MinifyThenParse(before: seq<Space>, t: Text, after: seq<Space>)
    requires ProperSpaces(before) && Proper(t) && ProperSpaces(after)
    ensures JsonMinify.MinifyText(Spaced(before) + (Spelled(t) + Spaced(after))) == Some(Spelled(Bared(t)))
    ensures ParseValue(Skip(Spelled(Bared(t)))) == Got(Tree(t), "")
  {
    var p, q := Spelled(t), Spelled(Bared(t));
    BaredStandsFor(t);
    ParsesText([], Bared(t), []);
    assert Spaced([]) + (q + Spaced([])) == q;
    Minified(t);
    SpacesGo(before);
    SpacesGo(after);
    JsonMinify.Joined(p, q, Spaced(after), "");
    JsonMinify.Joined(Spaced(before), "", p + Spaced(after), q + "");
    var all := Spaced(before) + (p + Spaced(after));
    assert JsonMinify.MinifyText(all + "") == JsonMinify.Glue("" + (q + ""), JsonMinify.MinifyText(""));
    assert all + "" == all && "" + (q + "") == q && q + "" == q;
  }

  /** cJSON_Minify in the buffer of a commented text, and cJSON_Parse on what it leaves there. */
  method MinifyAndParse(json: array<char>, ghost before: seq<Space>, ghost t: Text, ghost after: seq<Space>, ghost tail: string)
    returns (w: JsonParser.Walked<Value>)
    requires ProperSpaces(before) && Proper(t) && ProperSpaces(after)
    requires JsonMinify.Unread(json, Spaced(before) + (Spelled(t) + Spaced(after)), tail, 0)
    modifies json
    ensures w == JsonParser.Ended(Tree(t), |Spelled(Bared(t))|)
  {
    hide Spelled, Bared, Tree, Spaced, ProperSpaces, Proper, JsonMinify.MinifyText, JsonMinify.Unread, ParseValue, Skip;
    MinifyThenParse(before, t, after);
    var into := JsonMinify.Minify(json, Spaced(before) + (Spelled(t) + Spaced(after)), tail);
    w := JsonParser.Parse(json[..into]);
  }
}
