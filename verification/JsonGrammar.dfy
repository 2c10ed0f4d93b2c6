/** The parser on every text of the grammar of RFC 8259, with any white space between the tokens and any escape in the
    strings, and the minifier on such texts with comments as well.  Numbers are integers. */
module JsonGrammar {
  import opened Bytes
  import opened Json
  import opened JsonRoundTrip
  import opened JsonStrings

  /** Section 2: the four blanks. */
  predicate White(w: string) {
    forall i | 0 <= i < |w| :: w[i] == ' ' || w[i] == '\t' || w[i] == '\n' || w[i] == '\r'
  }

  /** What may stand between two tokens; the minifier knows comments too. */
  datatype Space = Blank(c: char) | Line(body: string) | Block(body: string)

  /** A line comment ends at its line feed, a block comment at the first closing behind its slash. */
  predicate ProperSpace(w: Space) {
    match w
    case Blank(c) => White([c])
    case Line(body) => '\n' !in body
    case Block(body) => var b := ['*'] + body; forall i | 0 <= i < |b| - 1 :: !(b[i] == '*' && b[i + 1] == '/')
  }

  predicate ProperSpaces(ws: seq<Space>) {
    forall i | 0 <= i < |ws| :: ProperSpace(ws[i])
  }

  predicate Blanks(ws: seq<Space>) {
    ProperSpaces(ws) && forall i | 0 <= i < |ws| :: ws[i].Blank?
  }

  function SpaceText(w: Space): string {
    match w
    case Blank(c) => [c]
    case Line(body) => ['/', '/'] + (body + ['\n'])
    case Block(body) => ['/', '*'] + (body + ['*', '/'])
  }

  function Spaced(ws: seq<Space>): string {
    if ws == [] then "" else SpaceText(ws[0]) + Spaced(ws[1..])
  }

  lemma {:induction false} BlanksWhite(ws: seq<Space>)
    requires Blanks(ws)
    ensures White(Spaced(ws))
  {
    if ws != [] {
      BlanksWhite(ws[1..]);
      assert ProperSpace(ws[0]);
    }
  }

  /** Section 7: what the two-character escapes stand for. */
  function Escape(letter: char): (c: Option<char>) {
    match letter
    case '\"' => Some('\"')
    case '\\' => Some('\\')
    case '/' => Some('/')
    case 'b' => Some(8 as char)
    case 'f' => Some(12 as char)
    case 'n' => Some(10 as char)
    case 'r' => Some(13 as char)
    case 't' => Some(9 as char)
    case _ => None
  }

  /** A character of a string: as it is, behind a backslash, or by its code point in hex digits of either case, a
      supplementary one as a surrogate pair. */
  datatype Letter =
    | Plain(c: char)
    | Short(letter: char)
    | Hex(cp: nat, h: string)
    | Pair(cp: nat, hi: string, lo: string)

  predicate ProperLetter(l: Letter) {
    match l
    case Plain(c) => c != '\"' && c != '\\' && c != '\0'
    case Short(letter) => Escape(letter).Some?
    case Hex(cp, h) => 0 < cp < 0x1_0000 && !Surrogate(cp) && Spells(h, cp)
    case Pair(cp, hi, lo) =>
      0x1_0000 <= cp < 0x11_0000
      && Spells(hi, 0xD800 + (cp - 0x1_0000) / 0x400) && Spells(lo, 0xDC00 + (cp - 0x1_0000) % 0x400)
  }

  function LetterText(l: Letter): string {
    match l
    case Plain(c) => [c]
    case Short(letter) => ['\\', letter]
    case Hex(_, h) => ['\\', 'u'] + h
    case Pair(_, hi, lo) => ['\\', 'u'] + (hi + (['\\', 'u'] + lo))
  }

  /** The octets it stands for. */
  function LetterValue(l: Letter): string
    requires ProperLetter(l)
  {
    match l
    case Plain(c) => [c]
    case Short(letter) => [Escape(letter).value]
    case Hex(cp, _) => Utf8(cp)
    case Pair(cp, _, _) => Utf8(cp)
  }

  predicate ProperLetters(ls: seq<Letter>) {
    forall i | 0 <= i < |ls| :: ProperLetter(ls[i])
  }

  function LettersText(ls: seq<Letter>): string {
    if ls == [] then "" else LetterText(ls[0]) + LettersText(ls[1..])
  }

  function LettersValue(ls: seq<Letter>): string
    requires ProperLetters(ls)
  {
    if ls == [] then "" else LetterValue(ls[0]) + LettersValue(ls[1..])
  }

  /** A text with its spaces: those inside an empty array or object, and those around every element, name and value. */
  datatype Text =
    | NullText | FalseText | TrueText
    | Integer(n: int)
    | String(letters: seq<Letter>)
    | EmptyArray(w: seq<Space>)
    | EmptyObject(w: seq<Space>)
    | Elements(e: ElementTexts)
    | Fields(f: FieldTexts)
  datatype ElementTexts =
    | LastElement(before: seq<Space>, t: Text, after: seq<Space>)
    | NextElement(before: seq<Space>, t: Text, after: seq<Space>, tail: ElementTexts)
  datatype FieldTexts =
    | LastField(before: seq<Space>, name: seq<Letter>, colon: seq<Space>, behind: seq<Space>, t: Text, after: seq<Space>)
    | NextField(before: seq<Space>, name: seq<Letter>, colon: seq<Space>, behind: seq<Space>, t: Text, after: seq<Space>,
                tail: FieldTexts)

  predicate Proper(t: Text) {
    match t
    case Integer(n) => -0x8000_0000 <= n < 0x8000_0000
    case String(ls) => ProperLetters(ls)
    case EmptyArray(w) => ProperSpaces(w)
    case EmptyObject(w) => ProperSpaces(w)
    case Elements(e) => ProperElements(e)
    case Fields(f) => ProperFields(f)
    case _ => true
  }

  predicate ProperElements(e: ElementTexts) {
    ProperSpaces(e.before) && Proper(e.t) && ProperSpaces(e.after) && (e.NextElement? ==> ProperElements(e.tail))
  }

  predicate ProperFields(f: FieldTexts) {
    && ProperSpaces(f.before) && ProperLetters(f.name) && ProperSpaces(f.colon) && ProperSpaces(f.behind) && Proper(f.t)
    && ProperSpaces(f.after)
    && (f.NextField? ==> ProperFields(f.tail))
  }

  /** Without comments. */
  predicate Plainly(t: Text) {
    match t
    case EmptyArray(w) => Blanks(w)
    case EmptyObject(w) => Blanks(w)
    case Elements(e) => PlainElements(e)
    case Fields(f) => PlainFields(f)
    case _ => true
  }

  predicate PlainElements(e: ElementTexts) {
    Blanks(e.before) && Plainly(e.t) && Blanks(e.after) && (e.NextElement? ==> PlainElements(e.tail))
  }

  predicate PlainFields(f: FieldTexts) {
    && Blanks(f.before) && Blanks(f.colon) && Blanks(f.behind) && Plainly(f.t) && Blanks(f.after)
    && (f.NextField? ==> PlainFields(f.tail))
  }

  function NameText(ls: seq<Letter>): string {
    ['\"'] + (LettersText(ls) + ['\"'])
  }

  function Spelled(t: Text): string {
    match t
    case NullText => "null"
    case FalseText => "false"
    case TrueText => "true"
    case Integer(n) => PrintNumber(n)
    case String(ls) => NameText(ls)
    case EmptyArray(w) => ['['] + (Spaced(w) + [']'])
    case EmptyObject(w) => ['{'] + (Spaced(w) + ['}'])
    case Elements(e) => ['['] + ElementsSpelled(e)
    case Fields(f) => ['{'] + FieldsSpelled(f)
  }

  function ElementsSpelled(e: ElementTexts): string {
    Spaced(e.before) + (Spelled(e.t) + (Spaced(e.after) + (if e.LastElement? then [']'] else [','] + ElementsSpelled(e.tail))))
  }

  function FieldsSpelled(f: FieldTexts): string {
    Spaced(f.before) + (NameText(f.name) + (Spaced(f.colon) + ([':'] + (Spaced(f.behind) + (Spelled(f.t) + (Spaced(f.after)
      + (if f.LastField? then ['}'] else [','] + FieldsSpelled(f.tail))))))))
  }

  /** The value that the text stands for. */
  function Tree(t: Text): Value
    requires Proper(t)
  {
    match t
    case NullText => Null
    case FalseText => False
    case TrueText => True
    case Integer(n) => Number(n)
    case String(ls) => Str(LettersValue(ls))
    case EmptyArray(_) => Array(NoItems)
    case EmptyObject(_) => Object(NoMembers)
    case Elements(e) => Array(ElementTrees(e))
    case Fields(f) => Object(FieldTrees(f))
  }

  function ElementTrees(e: ElementTexts): Items
    requires ProperElements(e)
  {
    Item(Tree(e.t), if e.LastElement? then NoItems else ElementTrees(e.tail))
  }

  function FieldTrees(f: FieldTexts): Members
    requires ProperFields(f)
  {
    Member(LettersValue(f.name), Tree(f.t), if f.LastField? then NoMembers else FieldTrees(f.tail))
  }

  // ----- strings -----

  lemma ShortParses(letter: char, rest: string)
    requires Escape(letter).Some?
    ensures ParseEscape([letter] + rest) == Some(Piece([Escape(letter).value], rest))
  {
    assert ([letter] + rest)[1..] == rest;
  }

  lemma PlainParses(c: char, rest: string)
    requires c != '\"' && c != '\\'
    ensures ParseChars([c] + rest) == Before([c], ParseChars(rest))
  {
    assert ([c] + rest)[1..] == rest;
  }

  lemma EscapeParses(text: string, value: string, rest: string)
    requires ParseEscape(text) == Some(Piece(value, rest))
    ensures ParseChars(['\\'] + text) == Before(value, ParseChars(rest))
  {
    assert (['\\'] + text)[1..] == text;
  }

  lemma ShortLetter(letter: char, rest: string)
    requires Escape(letter).Some?
    ensures ParseChars(['\\', letter] + rest) == Before([Escape(letter).value], ParseChars(rest))
  {
    hide ParseEscape, Escape, ParseChars;
    ShortParses(letter, rest);
    EscapeParses([letter] + rest, [Escape(letter).value], rest);
    assert ['\\', letter] + rest == ['\\'] + ([letter] + rest);
  }

  lemma HexLetter(cp: nat, h: string, rest: string)
    requires 0 < cp < 0x1_0000 && !Surrogate(cp) && Spells(h, cp)
    ensures ParseChars((['\\', 'u'] + h) + rest) == Before(Utf8(cp), ParseChars(rest))
  {
    hide ParseEscape, ParseChars, Spells, Utf8;
    HexParses(cp, h, rest);
    EscapeParses(['u'] + (h + rest), Utf8(cp), rest);
    assert (['\\', 'u'] + h) + rest == ['\\'] + (['u'] + (h + rest));
  }

  lemma PairLetter(cp: nat, hi: string, lo: string, rest: string)
    requires 0x1_0000 <= cp < 0x11_0000
    requires Spells(hi, 0xD800 + (cp - 0x1_0000) / 0x400) && Spells(lo, 0xDC00 + (cp - 0x1_0000) % 0x400)
    ensures ParseChars((['\\', 'u'] + (hi + (['\\', 'u'] + lo))) + rest) == Before(Utf8(cp), ParseChars(rest))
  {
    hide ParseEscape, ParseChars, Spells, Utf8;
    PairParses(cp, hi, lo, rest);
    EscapeParses(['u'] + (hi + (['\\', 'u'] + (lo + rest))), Utf8(cp), rest);
    assert (['\\', 'u'] + (hi + (['\\', 'u'] + lo))) + rest == ['\\'] + (['u'] + (hi + (['\\', 'u'] + (lo + rest))));
  }

  lemma LetterParses(l: Letter, rest: string)
    requires ProperLetter(l)
    ensures ParseChars(LetterText(l) + rest) == Before(LetterValue(l), ParseChars(rest))
  {
    hide ParseChars, Escape, Utf8, Spells;
    match l {
      case Plain(c) => PlainParses(c, rest);
      case Short(letter) => ShortLetter(letter, rest);
      case Hex(cp, h) => HexLetter(cp, h, rest);
      case Pair(cp, hi, lo) => PairLetter(cp, hi, lo, rest);
    }
  }

  /** Every spelling of a string is read as what it stands for. */
  lemma {:induction false} LettersParse(ls: seq<Letter>, rest: string)
    requires ProperLetters(ls)
    ensures ParseChars(LettersText(ls) + (['\"'] + rest)) == Some(Piece(LettersValue(ls), rest))
    decreases |ls|
  {
    var end := ['\"'] + rest;
    if ls == [] {
      assert LettersText(ls) + end == end && end[1..] == rest;
    } else {
      hide LetterText, LetterValue, ParseChars, ProperLetter;
      LettersParse(ls[1..], rest);
      LetterParses(ls[0], LettersText(ls[1..]) + end);
      Associative(LetterText(ls[0]), LettersText(ls[1..]), end);
    }
  }

  lemma NameParses(ls: seq<Letter>, rest: string)
    requires ProperLetters(ls)
    ensures ParseString(NameText(ls) + rest) == Got(LettersValue(ls), rest)
    ensures Solid(NameText(ls) + rest) && (NameText(ls) + rest)[0] == '\"'
  {
    hide ParseChars, LettersText;
    var t := NameText(ls) + rest;
    LettersParse(ls, rest);
    assert t[1..] == LettersText(ls) + (['\"'] + rest);
  }

  // ----- values -----

  lemma FirstOfText(t: Text)
    requires Proper(t)
    ensures var p := Spelled(t); Solid(p) && p[0] != ']' && p[0] != '}'
  {
    match t {
      case Integer(n) =>
        assert n < 0 ==> PrintNumber(n)[0] == '-';
      case _ =>
    }
  }

  lemma SkipWhite(w: string, s: string)
    requires White(w) && Solid(s)
    ensures Skip(w + s) == s
  {
    SkipBlank(w, s);
  }

  /** What follows a value in such a text ends a number. */
  lemma Delimits(w: string, s: string)
    requires White(w) && Delimited(s)
    ensures Delimited(w + s)
  {
    if w == "" {
      assert w + s == s;
    }
  }

  /** One step of the loop of parse_array. */
  lemma ItemsStep(before: string, p: string, v: Value, after: string, more: string)
    requires White(before) && White(after) && Solid(p) && Solid(more) && ParseValue(p) == Got(v, after + more)
    ensures ParseItems(before + p) ==
              if more[0] == ',' then
                (if ParseItems(more[1..]).Fail? then Fail
                 else Got(Item(v, ParseItems(more[1..]).value), ParseItems(more[1..]).rest))
              else if more[0] == ']' then Got(Item(v, NoItems), more[1..])
              else Fail
  {
    SkipWhite(before, p);
    SkipWhite(after, more);
  }

  /** One step of the loop of parse_object. */
  lemma MembersStep(before: string, name: seq<Letter>, colon: string, behind: string, p: string, v: Value, after: string,
                    more: string)
    requires White(before) && ProperLetters(name) && White(colon) && White(behind) && White(after) && Solid(p) && Solid(more)
    requires ParseValue(p) == Got(v, after + more)
    ensures ParseMembers(before + (NameText(name) + (colon + ([':'] + (behind + p))))) ==
              if more[0] == ',' then
                (if ParseMembers(more[1..]).Fail? then Fail
                 else Got(Member(LettersValue(name), v, ParseMembers(more[1..]).value), ParseMembers(more[1..]).rest))
              else if more[0] == '}' then Got(Member(LettersValue(name), v, NoMembers), more[1..])
              else Fail
  {
    hide NameText, ParseString, ParseValue;
    var c := [':'] + (behind + p);
    NameParses(name, colon + c);
    SkipWhite(before, NameText(name) + (colon + c));
    SkipWhite(colon, c);
    assert c[1..] == behind + p;
    SkipWhite(behind, p);
    SkipWhite(after, more);
  }

  /** Every text of the grammar is parsed to what it stands for, up to what follows it. */
  lemma {:induction false} TextParses(t: Text, rest: string)
    requires Proper(t) && Plainly(t) && Delimited(rest)
    ensures ParseValue(Spelled(t) + rest) == Got(Tree(t), rest)
    decreases t, 1
  {
    match t {
      case Elements(e) =>
        ElementsParse(e, rest);
        StartsArray(e, rest);
      case Fields(f) =>
        FieldsParse(f, rest);
        StartsObject(f, rest);
      case _ => ScalarParses(t, rest);
    }
  }

  lemma ScalarParses(t: Text, rest: string)
    requires Proper(t) && Plainly(t) && Delimited(rest) && !t.Elements? && !t.Fields?
    ensures ParseValue(Spelled(t) + rest) == Got(Tree(t), rest)
  {
    hide ParseValue, ParseNumber, ParseString, PrintNumber, NameText, LettersValue;
    match t {
      case Integer(n) =>
        NumberRoundTrip(n, rest);
        ParseValueNumber(PrintNumber(n) + rest);
      case String(ls) =>
        NameParses(ls, rest);
        ParseValueString(NameText(ls) + rest, LettersValue(ls), rest);
      case EmptyArray(w) =>
        BlanksWhite(w);
        ParseValueEmpty(Spaced(w), rest);
        Associative(['['], Spaced(w) + [']'], rest);
        Associative(Spaced(w), [']'], rest);
      case EmptyObject(w) =>
        BlanksWhite(w);
        ParseValueEmpty(Spaced(w), rest);
        Associative(['{'], Spaced(w) + ['}'], rest);
        Associative(Spaced(w), ['}'], rest);
      case _ =>
        LiteralRoundTrip(rest);
    }
  }

  /** An element, its parts at hand. */
  lemma ElementStep(a: string, p: string, v: Value, d: string, end: string, rest: string)
    requires White(a) && White(d) && Solid(p) && Solid(end)
    requires ParseValue(p + (d + (end + rest))) == Got(v, d + (end + rest))
    ensures ParseItems((a + (p + (d + end))) + rest) ==
              if end[0] == ',' then
                (if ParseItems(end[1..] + rest).Fail? then Fail
                 else Got(Item(v, ParseItems(end[1..] + rest).value), ParseItems(end[1..] + rest).rest))
              else if end[0] == ']' then Got(Item(v, NoItems), end[1..] + rest)
              else Fail
  {
    hide ParseValue, ParseItems;
    var more := end + rest;
    assert more[0] == end[0] && more[1..] == end[1..] + rest;
    Nest4(a, p, d, end, rest);
    FirstStays(p, d + more);
    ItemsStep(a, p + (d + more), v, d, more);
  }

  function ElementEnd(e: ElementTexts): string {
    if e.LastElement? then [']'] else [','] + ElementsSpelled(e.tail)
  }

  lemma ElementParts(e: ElementTexts, rest: string)
    ensures ElementsSpelled(e) == Spaced(e.before) + (Spelled(e.t) + (Spaced(e.after) + ElementEnd(e)))
    ensures var end := ElementEnd(e);
            && Solid(end) && end[0] == (if e.LastElement? then ']' else ',') && Delimited(end + rest)
            && end[1..] == if e.LastElement? then "" else ElementsSpelled(e.tail)
  {
  }

  lemma ElementFacts(e: ElementTexts)
    requires ProperElements(e) && PlainElements(e)
    ensures Proper(e.t) && Plainly(e.t) && (e.NextElement? ==> ProperElements(e.tail) && PlainElements(e.tail))
    ensures ElementTrees(e) == Item(Tree(e.t), if e.LastElement? then NoItems else ElementTrees(e.tail))
  {
    hide Tree;
  }

  lemma ElementThen(e: ElementTexts, rest: string)
    requires ProperElements(e) && PlainElements(e)
    requires ParseValue(Spelled(e.t) + (Spaced(e.after) + (ElementEnd(e) + rest)))
             == Got(Tree(e.t), Spaced(e.after) + (ElementEnd(e) + rest))
    requires e.NextElement? ==> ParseItems(ElementsSpelled(e.tail) + rest) == Got(ElementTrees(e.tail), rest)
    ensures ParseItems(ElementsSpelled(e) + rest) == Got(ElementTrees(e), rest)
  {
    FirstOfText(e.t);
    BlanksWhite(e.before);
    BlanksWhite(e.after);
    ElementParts(e, rest);
    ElementFacts(e);
    assert "" + rest == rest;
    hide *;
    ElementStep(Spaced(e.before), Spelled(e.t), Tree(e.t), Spaced(e.after), ElementEnd(e), rest);
  }

  lemma {:induction false} ElementsParse(e: ElementTexts, rest: string)
    requires ProperElements(e) && PlainElements(e)
    ensures ParseItems(ElementsSpelled(e) + rest) == Got(ElementTrees(e), rest)
    decreases e, 0
  {
    BlanksWhite(e.after);
    ElementParts(e, rest);
    ElementFacts(e);
    hide *;
    Delimits(Spaced(e.after), ElementEnd(e) + rest);
    TextParses(e.t, Spaced(e.after) + (ElementEnd(e) + rest));
    if e.NextElement? {
      ElementsParse(e.tail, rest);
    }
    ElementThen(e, rest);
  }

  lemma Nest4(a: string, b: string, c: string, d: string, x: string)
    ensures (a + (b + (c + d))) + x == a + (b + (c + (d + x)))
  {
    Associative(a, b + (c + d), x);
    Associative(b, c + d, x);
    Associative(c, d, x);
  }

  lemma FieldWhite(f: FieldTexts)
    requires PlainFields(f)
    ensures White(Spaced(f.before)) && White(Spaced(f.colon)) && White(Spaced(f.behind)) && White(Spaced(f.after))
  {
    BlanksWhite(f.before);
    BlanksWhite(f.colon);
    BlanksWhite(f.behind);
    BlanksWhite(f.after);
  }

  lemma Nest7(a: string, n: string, c: string, b: string, p: string, d: string, e: string, x: string)
    ensures (a + (n + (c + ([':'] + (b + (p + (d + e))))))) + x == a + (n + (c + ([':'] + (b + (p + (d + (e + x)))))))
  {
    Nest4(b, p, d, e, x);
    Nest4(n, c, [':'], b + (p + (d + e)), x);
    Associative(a, n + (c + ([':'] + (b + (p + (d + e))))), x);
  }

  /** A field, its parts at hand. */
  lemma FieldStep(a: string, name: seq<Letter>, c: string, b: string, p: string, v: Value, d: string, end: string, rest: string)
    requires White(a) && ProperLetters(name) && White(c) && White(b) && White(d) && Solid(p) && Solid(end)
    requires ParseValue(p + (d + (end + rest))) == Got(v, d + (end + rest))
    ensures ParseMembers((a + (NameText(name) + (c + ([':'] + (b + (p + (d + end))))))) + rest) ==
              if end[0] == ',' then
                (if ParseMembers(end[1..] + rest).Fail? then Fail
                 else Got(Member(LettersValue(name), v, ParseMembers(end[1..] + rest).value), ParseMembers(end[1..] + rest).rest))
              else if end[0] == '}' then Got(Member(LettersValue(name), v, NoMembers), end[1..] + rest)
              else Fail
  {
    hide ParseValue, ParseMembers, NameText, LettersValue;
    var more := end + rest;
    assert more[0] == end[0] && more[1..] == end[1..] + rest;
    Nest7(a, NameText(name), c, b, p, d, end, rest);
    FirstStays(p, d + more);
    MembersStep(a, name, c, b, p + (d + more), v, d, more);
  }

  function FieldEnd(f: FieldTexts): string {
    if f.LastField? then ['}'] else [','] + FieldsSpelled(f.tail)
  }

  lemma FieldParts(f: FieldTexts, rest: string)
    ensures FieldsSpelled(f) == Spaced(f.before) + (NameText(f.name) + (Spaced(f.colon) + ([':'] + (Spaced(f.behind)
                                + (Spelled(f.t) + (Spaced(f.after) + FieldEnd(f)))))))
    ensures var end := FieldEnd(f);
            && Solid(end) && end[0] == (if f.LastField? then '}' else ',') && Delimited(end + rest)
            && end[1..] == if f.LastField? then "" else FieldsSpelled(f.tail)
  {
  }

  lemma FieldFacts(f: FieldTexts)
    requires ProperFields(f) && PlainFields(f)
    ensures ProperLetters(f.name) && Proper(f.t) && Plainly(f.t) && (f.NextField? ==> ProperFields(f.tail) && PlainFields(f.tail))
    ensures FieldTrees(f) == Member(LettersValue(f.name), Tree(f.t), if f.LastField? then NoMembers else FieldTrees(f.tail))
  {
    hide Tree, LettersValue;
  }

  /** A field whose value has been parsed, and behind it the rest of the list. */
  lemma FieldThen(f: FieldTexts, rest: string)
    requires ProperFields(f) && PlainFields(f)
    requires ParseValue(Spelled(f.t) + (Spaced(f.after) + (FieldEnd(f) + rest)))
             == Got(Tree(f.t), Spaced(f.after) + (FieldEnd(f) + rest))
    requires f.NextField? ==> ParseMembers(FieldsSpelled(f.tail) + rest) == Got(FieldTrees(f.tail), rest)
    ensures ParseMembers(FieldsSpelled(f) + rest) == Got(FieldTrees(f), rest)
  {
    FirstOfText(f.t);
    FieldWhite(f);
    FieldParts(f, rest);
    FieldFacts(f);
    assert "" + rest == rest;
    hide *;
    FieldStep(Spaced(f.before), f.name, Spaced(f.colon), Spaced(f.behind), Spelled(f.t), Tree(f.t), Spaced(f.after),
              FieldEnd(f), rest);
  }

  lemma {:induction false} FieldsParse(f: FieldTexts, rest: string)
    requires ProperFields(f) && PlainFields(f)
    ensures ParseMembers(FieldsSpelled(f) + rest) == Got(FieldTrees(f), rest)
    decreases f, 0
  {
    FieldWhite(f);
    FieldParts(f, rest);
    FieldFacts(f);
    hide *;
    Delimits(Spaced(f.after), FieldEnd(f) + rest);
    TextParses(f.t, Spaced(f.after) + (FieldEnd(f) + rest));
    if f.NextField? {
      FieldsParse(f.tail, rest);
    }
    FieldThen(f, rest);
  }

  lemma SpelledList(e: ElementTexts, f: FieldTexts)
    ensures Spelled(Elements(e)) == ['['] + ElementsSpelled(e)
    ensures Spelled(Fields(f)) == ['{'] + FieldsSpelled(f)
  {
  }

  lemma StartsArray(e: ElementTexts, rest: string)
    requires ProperElements(e) && PlainElements(e) && ParseItems(ElementsSpelled(e) + rest) == Got(ElementTrees(e), rest)
    ensures ParseValue(Spelled(Elements(e)) + rest) == Got(Array(ElementTrees(e)), rest)
  {
    FirstOfText(e.t);
    BlanksWhite(e.before);
    var tail := Spaced(e.after) + (if e.LastElement? then [']'] else [','] + ElementsSpelled(e.tail));
    assert ElementsSpelled(e) == Spaced(e.before) + (Spelled(e.t) + tail);
    SpelledList(e, LastField([], [], [], [], e.t, []));
    hide *;
    var body := Spelled(e.t) + (tail + rest);
    Associative(Spelled(e.t), tail, rest);
    Associative(Spaced(e.before), Spelled(e.t) + tail, rest);
    FirstStays(Spelled(e.t), tail + rest);
    SkipWhite(Spaced(e.before), body);
    SkipTwice(Spaced(e.before) + body);
    SameItems(Spaced(e.before) + body);
    ParseArrayText(Spaced(e.before) + body, ElementTrees(e), rest);
    Associative(['['], ElementsSpelled(e), rest);
  }

  lemma FirstStays(p: string, more: string)
    requires Solid(p)
    ensures Solid(p + more) && (p + more)[0] == p[0]
  {
  }

  lemma SameItems(s: string)
    ensures ParseItems(Skip(s)) == ParseItems(s)
  {
    SkipTwice(s);
  }

  lemma ParseArrayText(text: string, items: Items, rest: string)
    requires var body := Skip(text); Solid(body) && body[0] != ']' && ParseItems(body) == Got(items, rest)
    ensures ParseValue(['['] + text) == Got(Array(items), rest)
  {
    var s := ['['] + text;
    NotALiteral(s);
    assert s[1..] == text;
    hide Skip, ParseItems, ParseMembers, ParseString, ParseNumber, Starts;
  }

  lemma StartsObject(f: FieldTexts, rest: string)
    requires ProperFields(f) && PlainFields(f) && ParseMembers(FieldsSpelled(f) + rest) == Got(FieldTrees(f), rest)
    ensures ParseValue(Spelled(Fields(f)) + rest) == Got(Object(FieldTrees(f)), rest)
  {
    BlanksWhite(f.before);
    var tail := Spaced(f.colon) + ([':'] + (Spaced(f.behind) + (Spelled(f.t) + (Spaced(f.after)
      + (if f.LastField? then ['}'] else [','] + FieldsSpelled(f.tail))))));
    assert FieldsSpelled(f) == Spaced(f.before) + (NameText(f.name) + tail);
    SpelledList(LastElement([], f.t, []), f);
    hide NameText, Spelled, FieldsSpelled, FieldTrees, ParseValue, ParseMembers, Skip;
    NameParses(f.name, tail + rest);
    Associative(Spaced(f.before), NameText(f.name) + tail, rest);
    Associative(NameText(f.name), tail, rest);
    SkipWhite(Spaced(f.before), NameText(f.name) + (tail + rest));
    ParseValueObject(FieldsSpelled(f) + rest, FieldTrees(f), rest);
    Associative(['{'], FieldsSpelled(f), rest);
  }

  /** cJSON_Parse of a text with blanks around it. */
  lemma ParsesText(before: seq<Space>, t: Text, after: seq<Space>)
    requires Blanks(before) && Proper(t) && Plainly(t) && Blanks(after)
    ensures ParseValue(Skip(Spaced(before) + (Spelled(t) + Spaced(after)))) == Got(Tree(t), Spaced(after))
  {
    hide Spelled, Tree;
    FirstOfText(t);
    BlanksWhite(before);
    BlanksWhite(after);
    SkipWhite(Spaced(before), Spelled(t) + Spaced(after));
    TextParses(t, Spaced(after));
  }

  /** The hex digits are those of either case. */
  lemma HexTable(c: char, i: nat)
    requires i < 16
    ensures HexValue(c) == Some(i) <==> c == "0123456789abcdef"[i] || c == "0123456789ABCDEF"[i]
  {
  }

  /** The printer uses the two-character escapes but that of the slash, hex digits for the other control characters, and
      leaves everything else as it is. */
  lemma PrintedChar(c: char)
    requires 0 < c as int < 256
    ensures forall letter | letter != '/' && Escape(letter) == Some(c) :: EscapeChar(c) == ['\\', letter]
    ensures (forall letter | letter != '/' :: Escape(letter) != Some(c)) ==>
              if c as int >= 32 then EscapeChar(c) == [c]
              else |EscapeChar(c)| == 6 && EscapeChar(c)[..2] == ['\\', 'u'] && Spells(EscapeChar(c)[2..], c as int)
  {
    assert Escape('b') == Some(8 as char) && Escape('f') == Some(12 as char) && Escape('n') == Some(10 as char);
    assert Escape('r') == Some(13 as char) && Escape('t') == Some(9 as char);
    assert Escape('\"') == Some('\"') && Escape('\\') == Some('\\');
  }

  lemma QuotedLetter(c: char)
    requires 32 <= c as int < 127 && c != '\"' && c != '\\'
    ensures Quoted([c]) == ['\"', c, '\"']
  {
    assert [c][1..] == "" && Escaped([c]) == [c];
  }

  /** Printed members, one at a time. */
  lemma MemberLine(name: string, v: Value, tail: Members, depth: nat, fmt: bool)
    requires PrintableMembers(Member(name, v, tail))
    ensures PrintMembers(Member(name, v, tail), depth, fmt) ==
              If(fmt, Tabs(depth)) + Quoted(name) + ":" + If(fmt, "\t") + Print(v, depth, fmt)
              + (if tail.NoMembers? then If(fmt, "\n") else "," + If(fmt, "\n") + PrintMembers(tail, depth, fmt))
  {
    hide Quoted, Tabs, Print;
  }

  lemma ObjectLines(ms: Members, depth: nat)
    requires ms.Member? && PrintableMembers(ms)
    ensures Print(Object(ms), depth, true) == "{\n" + PrintMembers(ms, depth + 1, true) + Tabs(depth) + "}"
  {
    hide PrintMembers, Tabs;
  }

  lemma FewTabs()
    ensures Tabs(0) == "" && Tabs(1) == "\t" && Tabs(2) == "\t\t"
  {
  }

  lemma LastLine(name: string, v: Value, depth: nat, t: string, n: string, p: string)
    requires CString(name) && Printable(v) && t == Tabs(depth) && n == Quoted(name) && p == Print(v, depth, true)
    ensures PrintMembers(Member(name, v, NoMembers), depth, true) == t + n + ":\t" + p + "\n"
  {
    MemberLine(name, v, NoMembers, depth, true);
    hide PrintMembers, Quoted, Tabs, Print;
  }

  /** The layout of a formatted print: a member a line, indented by its depth, and a tab behind the colon. */
  lemma MemberLayout()
    ensures Print(Object(Member("c", Null, NoMembers)), 1, true) == "{\n" + "\t\t\"c\":\tnull\n" + "\t}"
  {
    ObjectLines(Member("c", Null, NoMembers), 1);
    QuotedLetter('c');
    FewTabs();
    assert Print(Null, 2, true) == "null";
    LastLine("c", Null, 2, "\t\t", "\"c\"", "null");
    hide Print, PrintMembers, Quoted, Tabs;
  }

  /** Elements stand on one line. */
  lemma ElementLayout()
    ensures Print(Array(Item(Number(-1), Item(True, NoItems))), 0, true) == "[-1, true]"
    ensures Print(Object(NoMembers), 0, true) == "{\n}"
  {
    assert Digits(1) == "1" && PrintNumber(-1) == "-1";
    assert PrintItems(Item(True, NoItems), 1, true) == "true";
  }

  /** Where no value begins, none is found. */
  lemma NoValue(s: string)
    requires s == "" || s[0] !in {'\"', '-', '[', '{', 'n', 'f', 't'}
    requires s == "" || !('0' <= s[0] <= '9')
    ensures ParseValue(s).Fail?
  {
  }
}
