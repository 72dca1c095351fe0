// The lexical grammar of JOAN: a text is a list of tokens as they may be spelled, with white space and
// comments between them, in which no token runs into what follows it. The scanner accepts exactly these
// texts, and reads exactly these tokens.
module LexicalGrammar {
  import opened Prelude
  import opened Tokens
  import opened Layout

  // ---------- comments ----------

  // What stands in a block comment: characters and further comments.
  datatype Content = Nothing | Char(first: char, rest: Content) | Inner(inner: Content, rest: Content)

  function ContentText(c: Content): string {
    match c
    case Nothing => ""
    case Char(first, rest) => [first] + ContentText(rest)
    case Inner(inner, rest) => "/*" + ContentText(inner) + "*/" + ContentText(rest)
  }

  predicate IsMark(a: char, b: char) {
    (a == '/' && b == '*') || (a == '*' && b == '/')
  }

  /** No character forms a comment mark with the next one. */
  predicate Unmarked(c: Content) {
    match c
    case Nothing => true
    case Char(first, rest) => !IsMark(first, (ContentText(rest) + "*/")[0]) && Unmarked(rest)
    case Inner(inner, rest) => Unmarked(inner) && Unmarked(rest)
  }

  datatype Filler = Space(blank: char) | Line(text: string) | Block(content: Content)

  function FillerText(f: Filler): string {
    match f
    case Space(c) => [c]
    case Line(text) => "//" + text + "\n"
    case Block(content) => "/*" + ContentText(content) + "*/"
  }

  /** White space, a comment up to the end of its line, or a comment up to its own end mark. */
  predicate IsFiller(f: Filler) {
    match f
    case Space(c) => IsWhitespace(c)
    case Line(text) => '\n' !in text
    case Block(content) => Unmarked(content)
  }

  function GapText(gap: seq<Filler>): string {
    if gap == [] then "" else FillerText(gap[0]) + GapText(gap[1..])
  }

  predicate IsGap(gap: seq<Filler>) {
    forall i :: 0 <= i < |gap| ==> IsFiller(gap[i])
  }

  // ---------- tokens ----------

  /** Integers may be written with leading zeros; everything else is spelled in one way. */
  predicate Spells(spelling: string, t: Token) {
    if t.IntegerToken? then spelling != [] && AllDigits(spelling) && DigitsValue(spelling) == Number(t.value)
    else Spellable(t) && spelling == Spell(t)
  }

  function Number(n: i64): int {
    n
  }

  /** What must not follow a token directly, because it would become part of it. */
  predicate Separate(t: Token, rest: string) {
    rest == [] ||
    match t
    case IntegerToken(_) => !IsDigit(rest[0])
    case TextToken(_) => true
    case Dash => rest[0] != '>'
    case Assign | Exclamation | LessThan | GreaterThan => rest[0] != '='
    case Slash => rest[0] != '/' && rest[0] != '*'
    case _ => IsWordy(t) ==> !IsWordChar(rest[0])
  }

  // ---------- texts ----------

  // A token, as it is spelled, and what stands before it.
  datatype Item = Item(gap: seq<Filler>, spelling: string, token: Token)

  // The end of a text: a last line comment need not end.
  datatype End = End(gap: seq<Filler>, comment: Option<string>)

  function EndText(end: End): string {
    GapText(end.gap) + (match end.comment case None => "" case Some(text) => "//" + text)
  }

  predicate IsEnd(end: End) {
    IsGap(end.gap) && (end.comment.Some? ==> '\n' !in end.comment.value)
  }

  function SourceText(items: seq<Item>, end: End): string {
    if items == [] then EndText(end) else GapText(items[0].gap) + (items[0].spelling + SourceText(items[1..], end))
  }

  predicate IsSource(items: seq<Item>, end: End) {
    if items == [] then IsEnd(end)
    else
      && IsGap(items[0].gap) && Spells(items[0].spelling, items[0].token)
      && Separate(items[0].token, SourceText(items[1..], end))
      && IsSource(items[1..], end)
  }

  function TokensOf(items: seq<Item>): (ts: seq<Token>)
    ensures |ts| == |items| && forall i :: 0 <= i < |ts| ==> ts[i] == items[i].token
  {
    seq(|items|, i requires 0 <= i < |items| => items[i].token)
  }

  /** The text is written with these items and this end. */
  predicate IsWritten(s: string, items: seq<Item>, end: End) {
    IsSource(items, end) && SourceText(items, end) == s
  }

  // ---------- block comments ----------

  /** A comment ends at its own end mark, whatever is nested in it. */
  lemma {:induction false} BlockEnds(c: Content, s: string, depth: nat)
    requires Unmarked(c) && depth > 0
    ensures AfterBlock(ContentText(c) + "*/" + s, depth) == if depth == 1 then Some(s) else AfterBlock(s, depth - 1)
    decreases c
  {
    var whole := ContentText(c) + "*/" + s;
    match c
    case Nothing =>
      assert whole[0] == '*' && whole[1] == '/' && whole[2..] == s;
    case Char(first, rest) =>
      BlockEnds(rest, s, depth);
      AfterChar(first, ContentText(rest), s);
      assert whole == [first] + (ContentText(rest) + "*/" + s);
    case Inner(inner, rest) =>
      var after := ContentText(rest) + "*/" + s;
      BlockEnds(inner, after, depth + 1);
      BlockEnds(rest, s, depth);
      InnerText(ContentText(inner), ContentText(rest), s);
  }

  lemma InnerText(inner: string, rest: string, s: string)
    ensures var whole := "/*" + inner + "*/" + rest + "*/" + s;
            && whole[0] == '/' && whole[1] == '*' && whole[2..] == inner + "*/" + (rest + "*/" + s)
  {
    var whole := "/*" + inner + "*/" + rest + "*/" + s;
    assert whole == "/*" + (inner + "*/" + (rest + "*/" + s));
  }

  /** Wherever the scanner finds the end of a comment, proper content stands before it. */
  lemma {:induction false} BlockContent(s: string, depth: nat) returns (c: Content, after: string)
    requires depth > 0 && AfterBlock(s, depth).Some?
    ensures Unmarked(c) && s == ContentText(c) + "*/" + after
    ensures if depth == 1 then AfterBlock(s, depth) == Some(after) else AfterBlock(s, depth) == AfterBlock(after, depth - 1)
    decreases |s|
  {
    if |s| > 1 && s[0] == '/' && s[1] == '*' {
      var inner, next := BlockContent(s[2..], depth + 1);
      var rest, last := BlockContent(next, depth);
      c, after := Inner(inner, rest), last;
      AfterInner(ContentText(inner), ContentText(rest), after);
      FirstTwo(s);
    } else if |s| > 1 && s[0] == '*' && s[1] == '/' {
      c, after := Nothing, s[2..];
      FirstTwo(s);
      assert ContentText(c) + "*/" == "*/";
    } else {
      var rest, last := BlockContent(s[1..], depth);
      c, after := Char(s[0], rest), last;
      AfterChar(s[0], ContentText(rest), last);
      assert s == [s[0]] + s[1..];
    }
  }

  lemma FirstTwo(s: string)
    requires |s| > 1
    ensures s == [s[0], s[1]] + s[2..]
  {
  }

  lemma AfterInner(inner: string, rest: string, after: string)
    ensures "/*" + (inner + "*/" + (rest + "*/" + after)) == "/*" + inner + "*/" + rest + "*/" + after
  {
  }

  lemma AfterChar(first: char, rest: string, after: string)
    ensures [first] + (rest + "*/" + after) == [first] + rest + "*/" + after
    ensures (rest + "*/" + after)[0] == (rest + "*/")[0]
  {
  }

  // ---------- line comments ----------

  lemma {:induction false} LineEnds(text: string, s: string)
    requires '\n' !in text
    ensures AfterLine(text + "\n" + s) == "\n" + s
    ensures AfterLine(text) == ""
  {
    if text == [] {
      assert text + "\n" + s == "\n" + s;
    } else {
      assert (text + "\n" + s)[1..] == text[1..] + "\n" + s;
      LineEnds(text[1..], s);
    }
  }

  lemma {:induction false} LineContent(s: string) returns (text: string)
    ensures '\n' !in text && s == text + AfterLine(s)
    ensures AfterLine(s) == "" || AfterLine(s)[0] == '\n'
  {
    if s == [] || s[0] == '\n' {
      text := "";
    } else {
      var rest := LineContent(s[1..]);
      text := [s[0]] + rest;
      AnotherChar(s, rest, AfterLine(s[1..]));
    }
  }

  lemma AnotherChar(s: string, rest: string, after: string)
    requires s != [] && s[1..] == rest + after
    ensures s == [s[0]] + rest + after
  {
    assert s == [s[0]] + s[1..];
  }

  // ---------- gaps ----------

  lemma LineIsSkipped(text: string, s: string)
    requires '\n' !in text
    ensures Scan("//" + text + "\n" + s) == Scan(s)
  {
    hide ScanToken, AfterBlock, AfterLine;
    var whole, body := "//" + text + "\n" + s, text + "\n" + s;
    assert whole == "//" + body;
    assert whole[0] == '/' && whole[1] == '/' && whole[2..] == body;
    LineEnds(text, s);
    BreakIsSkipped(s);
  }

  lemma BreakIsSkipped(s: string)
    ensures Scan("\n" + s) == Scan(s)
  {
    hide ScanToken, AfterBlock, AfterLine;
    assert ("\n" + s)[1..] == s;
  }

  lemma BlockIsSkipped(content: Content, s: string)
    requires Unmarked(content)
    ensures Scan("/*" + ContentText(content) + "*/" + s) == Scan(s)
  {
    hide ScanToken, AfterBlock, AfterLine, ContentText;
    var whole, body := "/*" + ContentText(content) + "*/" + s, ContentText(content) + "*/" + s;
    assert whole == "/*" + body;
    assert whole[0] == '/' && whole[1] == '*' && whole[2..] == body;
    BlockEnds(content, s, 1);
  }

  /** A comment or a blank makes no difference. */
  lemma FillerIsSkipped(f: Filler, s: string)
    requires IsFiller(f)
    ensures Scan(FillerText(f) + s) == Scan(s)
  {
    hide ScanToken, AfterBlock, AfterLine, ContentText;
    match f
    case Space(c) =>
      var whole := [c] + s;
      assert whole[0] == c && whole[1..] == s;
    case Line(text) => LineIsSkipped(text, s);
    case Block(content) => BlockIsSkipped(content, s);
  }

  lemma {:induction false} GapIsSkipped(gap: seq<Filler>, s: string)
    requires IsGap(gap)
    ensures Scan(GapText(gap) + s) == Scan(s)
  {
    if gap == [] {
      assert GapText(gap) + s == s;
    } else {
      GapIsSkipped(gap[1..], s);
      FillerIsSkipped(gap[0], GapText(gap[1..]) + s);
      assert GapText(gap) + s == FillerText(gap[0]) + (GapText(gap[1..]) + s);
    }
  }

  lemma EndIsSkipped(end: End)
    requires IsEnd(end)
    ensures Scan(EndText(end)) == Some([])
  {
    match end.comment
    case None =>
      GapIsSkipped(end.gap, "");
    case Some(text) =>
      GapIsSkipped(end.gap, "//" + text);
      var s := "//" + text;
      assert s[0] == '/' && s[1] == '/' && s[2..] == text;
      LineEnds(text, "");
  }

  // ---------- spellings are scanned ----------

  lemma IntegerIsScanned(spelling: string, n: i64, rest: string)
    requires Spells(spelling, IntegerToken(n)) && Separate(IntegerToken(n), rest)
    ensures ScanToken(spelling + rest) == Scanned(IntegerToken(n), rest) && PlainStart(spelling + rest)
  {
    DigitPrefixStops(spelling, rest);
    var text := spelling + rest;
    assert text[0] == spelling[0] && IsDigit(text[0]);
    assert text[|spelling|..] == rest;
  }

  lemma SymbolIsScanned(t: Token, rest: string)
    requires IsSymbol(t) && Separate(t, rest)
    ensures ScanToken(Spell(t) + rest) == Scanned(t, rest) && PlainStart(Spell(t) + rest)
  {
    hide Spell, ScanSymbol, Separate;
    SymbolStarts(t);
    var text := Spell(t) + rest;
    assert text[|Spell(t)|..] == rest;
    assert text[0] == Spell(t)[0];
    if |Spell(t)| == 2 {
      assert text[1] == Spell(t)[1];
    } else if rest != [] {
      assert text[1] == rest[0];
    }
    SymbolAt(t, text);
    SlashStands(t, rest);
  }

  lemma SlashStands(t: Token, rest: string)
    requires IsSymbol(t) && Separate(t, rest)
    ensures Spell(t)[0] == '/' ==> |Spell(t)| == 1 && (rest != [] ==> rest[0] != '/' && rest[0] != '*')
  {
  }

  lemma SymbolAt(t: Token, text: string)
    requires IsSymbol(t) && Spell(t) != [] && |Spell(t)| <= |text|
    requires text[0] == Spell(t)[0] && (|Spell(t)| == 2 ==> text[1] == Spell(t)[1])
    requires |Spell(t)| == 1 ==> Separate(t, text[1..])
    ensures ScanSymbol(text) == Scanned(t, text[|Spell(t)|..])
  {
    assert |text| > 1 ==> text[1..][0] == text[1];
  }

  lemma WordStopsAt(t: Token, rest: string)
    requires IsWordy(t) && !t.IntegerToken? && Separate(t, rest)
    ensures !StartsWordy(rest)
  {
  }

  lemma SpellingHasText(spelling: string, t: Token)
    requires Spells(spelling, t)
    ensures spelling != []
  {
    if !t.IntegerToken? {
      hide Spell;
      SpellingStarts(t);
    }
  }

  lemma SpellingIsScanned(spelling: string, t: Token, rest: string)
    requires spelling != [] && Spells(spelling, t) && Separate(t, rest)
    ensures ScanToken(spelling + rest) == Scanned(t, rest) && PlainStart(spelling + rest)
  {
    hide ScanToken, Spell, Separate;
    if t.IntegerToken? {
      IntegerIsScanned(spelling, t.value, rest);
    } else if IsWordy(t) {
      WordStopsAt(t, rest);
      WordReadsBack(t, rest);
      WordStarts(t);
      assert (spelling + rest)[0] == spelling[0];
      WordCharIsPlain(spelling + rest);
    } else if t.TextToken? {
      LiteralReadsBack(t.text, rest);
      LiteralSpelling(t.text);
      assert (spelling + rest)[0] == '\"';
      WordCharIsPlain(spelling + rest);
    } else {
      SymbolIsScanned(t, rest);
    }
  }

  lemma PlainIsScanned(s: string)
    requires PlainStart(s) && ScanToken(s).Scanned?
    ensures Scan(s) == match Scan(ScanToken(s).rest)
                       case None => None
                       case Some(tokens) => Some([ScanToken(s).token] + tokens)
  {
    hide ScanToken, AfterBlock, AfterLine;
  }

  /** Every text of the grammar is scanned, and gives the tokens it is written with. */
  lemma {:induction false} SourceIsScanned(items: seq<Item>, end: End)
    requires IsSource(items, end)
    ensures Scan(SourceText(items, end)) == Some(TokensOf(items))
    decreases |items|
  {
    hide ScanToken, Spells, Separate, PlainStart, Scan, IsGap;
    if items == [] {
      EndIsSkipped(end);
    } else {
      var first, rest := items[0], SourceText(items[1..], end);
      SourceIsScanned(items[1..], end);
      SpellingHasText(first.spelling, first.token);
      SpellingIsScanned(first.spelling, first.token, rest);
      GapIsSkipped(first.gap, first.spelling + rest);
      PlainIsScanned(first.spelling + rest);
      assert TokensOf(items) == [first.token] + TokensOf(items[1..]);
    }
  }

  // ---------- what is scanned is spelled ----------

  lemma {:induction false} LiteralIsSpelled(s: string)
    requires ScanLiteral(s).Literal?
    ensures s == EscapeAll(ScanLiteral(s).decoded) + ['\"'] + ScanLiteral(s).rest
    decreases |s|
  {
    hide Unescape, EscapeAll;
    if s[0] == '\"' {
      assert s == ['\"'] + s[1..];
      NoEscapes();
    } else if s[0] == '\\' {
      LiteralIsSpelled(s[2..]);
      FirstTwo(s);
      EscapeIsSpelled(s[1]);
      EscapedFirst(s, 2, [Unescape(s[1]).value], ScanLiteral(s[2..]).decoded, ScanLiteral(s[2..]).rest);
    } else {
      LiteralIsSpelled(s[1..]);
      assert s == [s[0]] + s[1..];
      EscapedFirst(s, 1, [s[0]], ScanLiteral(s[1..]).decoded, ScanLiteral(s[1..]).rest);
    }
  }

  lemma NoEscapes()
    ensures EscapeAll("") == ""
  {
  }

  lemma EscapeIsSpelled(c: char)
    requires Unescape(c).Some?
    ensures Escape(Unescape(c).value) == ['\\', c]
  {
  }

  lemma EscapedFirst(s: string, n: nat, c: string, decoded: string, rest: string)
    requires |c| == 1 && 1 <= n <= |s| && s[..n] == Escape(c[0]) && s[n..] == EscapeAll(decoded) + ['\"'] + rest
    ensures s == EscapeAll(c + decoded) + ['\"'] + rest
  {
    assert s == s[..n] + s[n..];
    assert (c + decoded)[0] == c[0] && (c + decoded)[1..] == decoded;
  }

  lemma WordIsSpelled(w: string)
    ensures Spell(WordToken(w)) == w && IsWordy(WordToken(w)) && !WordToken(w).IntegerToken?
  {
  }

  lemma WordSeparates(t: Token, rest: string)
    requires IsWordy(t) && !t.IntegerToken? && (rest == [] || !IsWordChar(rest[0]))
    ensures Separate(t, rest)
  {
  }

  lemma SymbolIsSpelled(s: string)
    requires s != [] && ScanSymbol(s).Scanned?
    requires !StartsComment(s, '/') && !StartsComment(s, '*')
    ensures var r := ScanSymbol(s);
            && IsSymbol(r.token) && |Spell(r.token)| <= |s| && Spell(r.token) == s[..|Spell(r.token)|] && r.rest == s[|Spell(r.token)|..]
            && Separate(r.token, r.rest)
  {
    var r := ScanSymbol(s);
    assert |s| > 1 ==> s[1..][0] == s[1];
    if |s| > 1 {
      assert s[..2] == [s[0], s[1]];
    }
    assert s[..1] == [s[0]];
  }

  lemma ScannedWord(s: string) returns (spelling: string)
    requires s != [] && IsWordStart(s[0])
    ensures ScanToken(s).Scanned? && s == spelling + ScanToken(s).rest
    ensures Spells(spelling, ScanToken(s).token) && Separate(ScanToken(s).token, ScanToken(s).rest)
  {
    hide WordToken, Spell, Separate;
    ScannedTokenIsSpellable(s);
    spelling := WordPrefix(s);
    WordIsSpelled(spelling);
    assert s == spelling + s[|spelling|..];
    WordSeparates(WordToken(spelling), s[|spelling|..]);
  }

  lemma ScannedInteger(s: string) returns (spelling: string)
    requires s != [] && IsDigit(s[0]) && ScanToken(s).Scanned?
    ensures s == spelling + ScanToken(s).rest
    ensures Spells(spelling, ScanToken(s).token) && Separate(ScanToken(s).token, ScanToken(s).rest)
  {
    hide WordToken, Spell;
    spelling := DigitPrefix(s);
    assert spelling[0] == s[0];
    assert s == spelling + s[|spelling|..];
  }

  lemma ScannedLiteral(s: string) returns (spelling: string)
    requires s != [] && s[0] == '\"' && ScanToken(s).Scanned?
    ensures s == spelling + ScanToken(s).rest
    ensures Spells(spelling, ScanToken(s).token) && Separate(ScanToken(s).token, ScanToken(s).rest)
  {
    hide WordToken, Spell, EscapeAll;
    LiteralIsSpelled(s[1..]);
    spelling := ['\"'] + EscapeAll(ScanLiteral(s[1..]).decoded) + ['\"'];
    LiteralSpelling(ScanLiteral(s[1..]).decoded);
    assert s == ['\"'] + s[1..];
    QuoteFirst(EscapeAll(ScanLiteral(s[1..]).decoded), ScanLiteral(s[1..]).rest);
  }

  lemma QuoteFirst(body: string, rest: string)
    ensures ['\"'] + (body + ['\"'] + rest) == ['\"'] + body + ['\"'] + rest
  {
  }

  lemma LiteralSpelling(text: string)
    ensures Spell(TextToken(text)) == ['\"'] + EscapeAll(text) + ['\"']
  {
  }

  lemma ScannedSymbol(s: string) returns (spelling: string)
    requires s != [] && ScanSymbol(s).Scanned? && !StartsComment(s, '/') && !StartsComment(s, '*')
    ensures s == spelling + ScanSymbol(s).rest
    ensures Spells(spelling, ScanSymbol(s).token) && Separate(ScanSymbol(s).token, ScanSymbol(s).rest)
  {
    hide Spell, ScanSymbol, Separate;
    SymbolIsSpelled(s);
    spelling := Spell(ScanSymbol(s).token);
    assert s == s[..|spelling|] + s[|spelling|..];
    SymbolIsSpellable(ScanSymbol(s).token);
  }

  lemma SymbolIsSpellable(t: Token)
    requires IsSymbol(t)
    ensures Spellable(t) && !t.IntegerToken?
  {
  }

  /** What the scanner takes for a token is a spelling of it, and the token does not go on behind it. */
  lemma ScannedIsSpelled(s: string) returns (spelling: string)
    requires s != [] && ScanToken(s).Scanned? && !StartsComment(s, '/') && !StartsComment(s, '*')
    ensures s == spelling + ScanToken(s).rest && Spells(spelling, ScanToken(s).token) && Separate(ScanToken(s).token, ScanToken(s).rest)
  {
    hide Spells, Separate, ScanSymbol, WordToken;
    if IsWordStart(s[0]) {
      spelling := ScannedWord(s);
    } else if IsDigit(s[0]) {
      spelling := ScannedInteger(s);
    } else if s[0] == '\"' {
      spelling := ScannedLiteral(s);
    } else {
      spelling := ScannedSymbol(s);
    }
  }

  // ---------- the whole text ----------

  /** More white space or another comment in front of a written text. */
  lemma FillFirst(f: Filler, s: string, items: seq<Item>, end: End) returns (items': seq<Item>, end': End)
    requires IsFiller(f) && IsWritten(s, items, end)
    ensures IsWritten(FillerText(f) + s, items', end') && TokensOf(items') == TokensOf(items)
  {
    hide IsFiller, FillerText, Spells, Separate;
    if items == [] {
      items', end' := [], End([f] + end.gap, end.comment);
      assert end'.gap[1..] == end.gap;
      Regrouped(FillerText(f), GapText(end.gap), match end.comment case None => "" case Some(text) => "//" + text);
    } else {
      var first := items[0];
      var gap := [f] + first.gap;
      items', end' := [Item(gap, first.spelling, first.token)] + items[1..], end;
      assert gap[1..] == first.gap && items'[1..] == items[1..];
      Regrouped(FillerText(f), GapText(first.gap), first.spelling + SourceText(items[1..], end));
      assert TokensOf(items') == TokensOf(items);
    }
  }

  lemma Regrouped(a: string, b: string, c: string)
    ensures a + b + c == a + (b + c)
  {
  }

  /** A token in front of a written text that does not continue it. */
  lemma TokenFirst(spelling: string, t: Token, s: string, items: seq<Item>, end: End) returns (items': seq<Item>)
    requires Spells(spelling, t) && Separate(t, s) && IsWritten(s, items, end)
    ensures IsWritten(spelling + s, items', end) && TokensOf(items') == [t] + TokensOf(items)
  {
    hide Spells, Separate;
    var first := Item([], spelling, t);
    items' := [first] + items;
    FirstAndOthers(first, items);
    assert GapText([]) + (spelling + s) == spelling + s;
  }

  lemma FirstAndOthers(first: Item, items: seq<Item>)
    ensures ([first] + items)[1..] == items && TokensOf([first] + items) == [first.token] + TokensOf(items)
  {
  }

  /** Every text that is scanned is written by the grammar, with the tokens that are scanned. */
  lemma {:induction false} ScannedIsWritten(s: string) returns (items: seq<Item>, end: End)
    requires Scan(s).Some?
    ensures IsWritten(s, items, end) && Scan(s) == Some(TokensOf(items))
    decreases |s|
  {
    hide ScanToken, AfterBlock, AfterLine, IsWritten;
    if s == [] {
      items, end := [], End([], None);
      NothingIsWritten();
    } else if IsWhitespace(s[0]) {
      items, end := ScannedIsWritten(s[1..]);
      items, end := FillFirst(Space(s[0]), s[1..], items, end);
      assert [s[0]] + s[1..] == s;
    } else if StartsComment(s, '/') {
      items, end := CommentedLine(s);
    } else if StartsComment(s, '*') {
      var content, after := BlockContent(s[2..], 1);
      items, end := ScannedIsWritten(after);
      items, end := FillFirst(Block(content), after, items, end);
      FirstTwo(s);
      Regrouped3("/*", ContentText(content), "*/", after);
    } else {
      var rest := ScanToken(s).rest;
      var spelling := ScannedIsSpelled(s);
      items, end := ScannedIsWritten(rest);
      items := TokenFirst(spelling, ScanToken(s).token, rest, items, end);
    }
  }

  lemma Regrouped3(a: string, b: string, c: string, d: string)
    ensures a + (b + c + d) == a + b + c + d
  {
  }

  lemma NothingIsWritten()
    ensures IsWritten("", [], End([], None)) && TokensOf([]) == []
  {
  }

  lemma LineBreaks(text: string, last: string)
    ensures last == "" ==> text + last == text
    ensures last != "" && last[0] == '\n' ==> last == "\n" + last[1..]
  {
  }

  /** A line comment, and what follows its line. */
  lemma LineSplits(s: string) returns (text: string, after: Option<string>)
    requires StartsComment(s, '/')
    ensures '\n' !in text
    ensures after.None? ==> s == "//" + text
    ensures after.Some? ==> s == "//" + text + "\n" + after.value && AfterLine(s[2..]) == "\n" + after.value && |after.value| < |s|
  {
    hide AfterLine;
    text := LineContent(s[2..]);
    var last := AfterLine(s[2..]);
    FirstTwo(s);
    LineBreaks(text, last);
    if last == "" {
      after := None;
    } else {
      after := Some(last[1..]);
      Regrouped3("//", text, "\n", last[1..]);
      Regrouped(text, "\n", last[1..]);
    }
  }

  lemma CommentedLine(s: string) returns (items: seq<Item>, end: End)
    requires Scan(s).Some? && StartsComment(s, '/')
    ensures IsWritten(s, items, end) && Scan(s) == Some(TokensOf(items))
    decreases |s|, 0
  {
    hide ScanToken, AfterBlock, AfterLine, IsWritten;
    var text, after := LineSplits(s);
    match after
    case None =>
      items, end := [], End([], Some(text));
      LastLine(text);
    case Some(rest) =>
      BreakIsSkipped(rest);
      items, end := ScannedIsWritten(rest);
      items, end := FillFirst(Line(text), rest, items, end);
  }

  lemma LastLine(text: string)
    requires '\n' !in text
    ensures IsWritten("//" + text, [], End([], Some(text))) && Scan("//" + text) == Some([]) && TokensOf([]) == []
  {
    EndIsSkipped(End([], Some(text)));
    assert GapText([]) + ("//" + text) == "//" + text;
  }

  /** The text is written with tokens ts. */
  ghost predicate IsWrittenWith(s: string, ts: seq<Token>) {
    exists items, end :: IsWritten(s, items, end) && TokensOf(items) == ts
  }

  /** The scanner accepts exactly the texts of the lexical grammar, and reads the tokens they are written with. */
  lemma ScanMeans(s: string, ts: seq<Token>)
    ensures Scan(s) == Some(ts) <==> IsWrittenWith(s, ts)
  {
    hide Scan;
    if Scan(s) == Some(ts) {
      var items, end := ScannedIsWritten(s);
    }
    if items, end :| IsWritten(s, items, end) && TokensOf(items) == ts {
      SourceIsScanned(items, end);
    }
  }
}
