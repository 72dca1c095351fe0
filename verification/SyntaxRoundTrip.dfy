// The syntax as a whole: what format_source and parse promise each other, and
// the one limit at which they stop keeping it.
module SyntaxRoundTrip {
  import opened Prelude
  import opened Ast
  import opened CheckRules
  import opened CanonicalShape
  import opened Tokens
  import opened Layout
  import opened Grammar
  import opened Printer
  import opened ProgramRoundTrip
  import opened Spacing
  import opened ParsedPrograms

  /** Parse and format. */
  function FormatSource(source: string): Option<string> {
    match ParseSource(source)
    case None => None
    case Some(p) => Some(Format(p))
  }

  lemma ScannedTokensAreGood(source: string)
    requires Lex(source).Some?
    ensures Good(Lex(source).value) && |Lex(source).value| <= MAX_TOKENS + 1
  {
    ScannedAreSpellable(source);
  }

  /** Everything the parser delivers can be printed, with identifiers for names, within the token limit. */
  lemma ParsedIsPrintable(source: string)
    requires ParseSource(source).Some?
    ensures Printable(ParseSource(source).value) && Named(ParseSource(source).value)
    ensures |ProgramPieces(ParseSource(source).value)| < |Lex(source).value| <= MAX_TOKENS + 1
  {
    ScannedTokensAreGood(source);
    ParsedModule(Lex(source).value);
    PrintableNames(ParseSource(source).value);
  }

  /** Without the limits, printing and parsing always undo each other. */
  lemma PrintedReadsBack(p: Program)
    requires Printable(p)
    ensures Scan(Format(p)).Some? && ParseModule(Scan(Format(p)).value + [Eof]) == Some(p)
  {
    ScanFormatted(p);
    ReadsModule(p);
  }

  /** Two printable programs with the same canonical text are the same program. */
  lemma CanonicalTextDetermines(p: Program, q: Program)
    requires Printable(p) && Printable(q) && Format(p) == Format(q)
    ensures p == q
  {
    PrintedReadsBack(p);
    PrintedReadsBack(q);
  }

  /**
   * The round trip. The canonical text of a parsed program parses to the same program exactly when
   * it is within the byte limit: layout can add bytes, but never tokens.
   */
  lemma FormatRoundTrip(source: string, p: Program)
    requires ParseSource(source) == Some(p)
    ensures ParseSource(Format(p)) == Some(p) <==> Utf8Length(Format(p)) <= MAX_SOURCE_BYTES
    ensures Utf8Length(Format(p)) > MAX_SOURCE_BYTES ==> ParseSource(Format(p)).None?
    ensures Scan(Format(p)).Some? && Scan(source).Some? && |Scan(Format(p)).value| <= |Scan(source).value|
  {
    hide Scan, ParseModule, Format;
    ParsedIsPrintable(source);
    ScanFormatted(p);
    PrintedReadsBack(p);
  }

  /** Formatting is idempotent wherever its result is within the byte limit. */
  lemma FormattingIsIdempotent(source: string)
    requires FormatSource(source).Some?
    ensures Utf8Length(FormatSource(source).value) <= MAX_SOURCE_BYTES ==>
              FormatSource(FormatSource(source).value) == FormatSource(source)
  {
    FormatRoundTrip(source, ParseSource(source).value);
  }

  // ---------- the byte limit matters ----------

  lemma {:induction false} Utf8AtLeast(s: string)
    ensures Utf8Length(s) >= |s|
    ensures IsAscii(s) ==> Utf8Length(s) == |s|
  {
    if s != [] {
      Utf8AtLeast(s[1..]);
    }
  }

  function MainOnly(name: string): Program {
    Program(false, name, [Function("main", [], Unit, None, [], None, [ReturnStatement(None)])])
  }

  /** The same module without optional white space, up to and after its name. */
  const BEFORE_NAME: seq<Piece> := [Close(KwModule)]

  const COMPACT_SIGNATURE: seq<Piece> := [
    Close(Semicolon), Close(KwFn), Spaced(Identifier("main")), Close(LeftParen), Close(RightParen), Close(Arrow), Close(KwUnit)]

  const COMPACT_BODY: seq<Piece> := [
    Spaced(KwEffects), Close(LeftBracket), Close(RightBracket), Close(LeftBrace), Close(KwReturn), Close(Semicolon),
    Close(RightBrace)]

  const AFTER_NAME: seq<Piece> := COMPACT_SIGNATURE + COMPACT_BODY

  function Compact(name: string): seq<Piece> {
    BEFORE_NAME + [Spaced(Identifier(name))] + AFTER_NAME
  }

  /** What the formatter prints between the module name and the effect row, and from there on. */
  const MAIN_SIGNATURE: seq<Piece> := [
    Close(Semicolon), Piece("\n\n", KwFn), Spaced(Identifier("main")), Close(LeftParen), Close(RightParen), Spaced(Arrow),
    Spaced(KwUnit)]

  const MAIN_BODY: seq<Piece> := [
    Spaced(KwEffects), Spaced(LeftBracket), Close(RightBracket), Spaced(LeftBrace), Piece("\n  ", KwReturn), Close(Semicolon),
    Piece("\n", RightBrace)]

  function MainFunction(): Function<i64> {
    MainOnly("").functions[0]
  }

  lemma MainSignaturePieces()
    ensures [Close(Semicolon)] + SignaturePieces(MainFunction()) == MAIN_SIGNATURE
  {
    assert ParameterListPieces(MainFunction().parameters, "") == [];
  }

  lemma MainBodyPieces()
    ensures RowsPieces(MainFunction()) + [Spaced(LeftBrace)] + BodyPieces(MainFunction().body) + [Piece("\n", RightBrace)]
         == MAIN_BODY
  {
    var f := MainFunction();
    assert BodyPieces(f.body) == StatementPieces(f.body[0], "\n  ") + BodyPieces(f.body[1..]);
    assert BodyPieces(f.body[1..]) == [];
    assert NameListPieces(f.effects, "") == [];
  }

  lemma MainPieces(name: string)
    ensures ProgramPieces(MainOnly(name)) == [Close(KwModule), Spaced(Identifier(name))] + (MAIN_SIGNATURE + MAIN_BODY)
  {
    var f := MainFunction();
    var none: seq<Function<i64>> := [];
    assert MainOnly(name).functions == [f];
    assert [f][1..] == none && FunctionsPieces(none) == [];
    assert FunctionsPieces([f]) == FunctionPieces(f) + [];
    assert HeaderPieces(MainOnly(name)) == [Close(KwModule), Spaced(Identifier(name))] + [] + [Close(Semicolon)];
    MainSignaturePieces();
    MainBodyPieces();
    PiecesRegroup([Close(KwModule), Spaced(Identifier(name))], [Close(Semicolon)], SignaturePieces(f), RowsPieces(f),
                  [Spaced(LeftBrace)], BodyPieces(f.body), [Piece("\n", RightBrace)]);
  }

  lemma PiecesRegroup(a: seq<Piece>, b: seq<Piece>, c: seq<Piece>, d: seq<Piece>, e: seq<Piece>, f: seq<Piece>, g: seq<Piece>)
    ensures a + [] + b + (c + d + e + f + g + []) == a + (b + c + (d + e + f + g))
  {
  }

  /** The same tokens with no more white space in front of any of them. */
  predicate Tighter(ps: seq<Piece>, qs: seq<Piece>) {
    && |ps| == |qs|
    && forall i :: 0 <= i < |ps| ==> ps[i].token == qs[i].token && |ps[i].blank| <= |qs[i].blank|
  }

  lemma TighterAppend(a: seq<Piece>, b: seq<Piece>, c: seq<Piece>, d: seq<Piece>)
    requires Tighter(a, c) && Tighter(b, d)
    ensures Tighter(a + b, c + d)
  {
  }

  lemma TighterTokens(ps: seq<Piece>, qs: seq<Piece>)
    requires Tighter(ps, qs)
    ensures TokensIn(ps) == TokensIn(qs)
  {
  }

  lemma TighterSignature()
    ensures Tighter(COMPACT_SIGNATURE, MAIN_SIGNATURE)
  {
  }

  lemma TighterBody()
    ensures Tighter(COMPACT_BODY, MAIN_BODY)
  {
  }

  lemma CompactTokens(name: string)
    ensures |Compact(name)| == |ProgramPieces(MainOnly(name))| == 16
    ensures Tighter(Compact(name), ProgramPieces(MainOnly(name)))
  {
    MainPieces(name);
    TighterSignature();
    TighterBody();
    TighterAppend(COMPACT_SIGNATURE, COMPACT_BODY, MAIN_SIGNATURE, MAIN_BODY);
    var front := BEFORE_NAME + [Spaced(Identifier(name))];
    assert front == [Close(KwModule), Spaced(Identifier(name))];
    TighterAppend(front, AFTER_NAME, front, MAIN_SIGNATURE + MAIN_BODY);
  }

  lemma {:induction false} MoreBlankIsLonger(ps: seq<Piece>, qs: seq<Piece>)
    requires Tighter(ps, qs)
    ensures |Render(ps)| <= |Render(qs)|
  {
    if ps != [] {
      MoreBlankIsLonger(ps[1..], qs[1..]);
    }
  }

  lemma {:induction false} RenderIsAscii(ps: seq<Piece>)
    requires forall i :: 0 <= i < |ps| ==> IsAscii(TextOf(ps[i]))
    ensures IsAscii(Render(ps))
  {
    if ps != [] {
      RenderIsAscii(ps[1..]);
    }
  }

  lemma {:induction false} RenderIsShort(ps: seq<Piece>, n: nat)
    requires forall i :: 0 <= i < |ps| ==> |TextOf(ps[i])| <= n
    ensures |Render(ps)| <= n * |ps|
  {
    if ps != [] {
      RenderIsShort(ps[1..], n);
      assert n * |ps| == n + n * (|ps| - 1);
    }
  }

  function Repeated(n: nat): (s: string)
    ensures |s| == n && forall i :: 0 <= i < n ==> s[i] == 'a'
  {
    seq(n, _ => 'a')
  }

  lemma MainIsName()
    ensures IsName("main")
  {
    assert "main"[1] == 'a';
  }

  lemma RepeatedIsName(n: nat)
    requires n > 20
    ensures IsName(Repeated(n))
  {
    assert |"module"| == 6 && |"effects"| == 7 && |"request"| == 7;
  }

  lemma SignatureIsSpaced()
    ensures WellSpaced(COMPACT_SIGNATURE)
  {
    hide WellSpaced;
    MainIsName();
    var name := Spaced(Identifier("main"));
    Triple(Close(Semicolon), Close(KwFn), name);
    Triple(Close(LeftParen), Close(RightParen), Close(Arrow));
    Single(Close(KwUnit));
    JoinDetached([Close(Semicolon), Close(KwFn), name], [Close(LeftParen), Close(RightParen), Close(Arrow)]);
    JoinAfterSymbol([Close(Semicolon), Close(KwFn), name] + [Close(LeftParen), Close(RightParen), Close(Arrow)], [Close(KwUnit)]);
    assert COMPACT_SIGNATURE ==
           [Close(Semicolon), Close(KwFn), name] + [Close(LeftParen), Close(RightParen), Close(Arrow)] + [Close(KwUnit)];
  }

  lemma BodyIsSpaced()
    ensures WellSpaced(COMPACT_BODY)
  {
    hide WellSpaced;
    var row, block := [Spaced(KwEffects), Close(LeftBracket), Close(RightBracket)], [Close(LeftBrace), Close(KwReturn), Close(Semicolon)];
    Triple(Spaced(KwEffects), Close(LeftBracket), Close(RightBracket));
    Triple(Close(LeftBrace), Close(KwReturn), Close(Semicolon));
    JoinDetached(row, block);
    JoinOne(row + block, Close(RightBrace));
    assert COMPACT_BODY == row + block + [Close(RightBrace)];
  }

  lemma AfterNameSpaced()
    ensures WellSpaced(AFTER_NAME)
  {
    SignatureIsSpaced();
    BodyIsSpaced();
    JoinDetached(COMPACT_SIGNATURE, COMPACT_BODY);
  }

  lemma CompactSpaced(name: string)
    requires IsName(name)
    ensures WellSpaced(Compact(name))
  {
    AfterNameSpaced();
    Pair(Close(KwModule), Spaced(Identifier(name)));
    assert BEFORE_NAME + [Spaced(Identifier(name))] == [Close(KwModule), Spaced(Identifier(name))];
    JoinDetached(BEFORE_NAME + [Spaced(Identifier(name))], AFTER_NAME);
  }

  lemma CompactLength(name: string)
    ensures |Render(Compact(name))| == |name| + |Render(Compact(""))|
  {
    var p, q := Spaced(Identifier(name)), Spaced(Identifier(""));
    RenderAppend(BEFORE_NAME + [p], AFTER_NAME);
    RenderAppend(BEFORE_NAME, [p]);
    RenderAppend(BEFORE_NAME + [q], AFTER_NAME);
    RenderAppend(BEFORE_NAME, [q]);
    assert Render([p]) == " " + name + Render([]) && Render([q]) == " " + "" + Render([]);
  }

  predicate IsAscii(s: string) {
    forall k :: 0 <= k < |s| ==> s[k] as int < 0x80
  }

  /** Spellings of tokens without a name or a value. */
  lemma FixedSpelling(t: Token)
    requires !t.Identifier? && !t.IntegerToken? && !t.TextToken?
    ensures IsAscii(Spell(t)) && |Spell(t)| <= 7
  {
  }

  predicate PlainPiece(p: Piece) {
    IsAscii(TextOf(p)) && |TextOf(p)| <= 10
  }

  lemma FixedPiece(p: Piece)
    requires (p.blank == "" || p.blank == " ") && !p.token.Identifier? && !p.token.IntegerToken? && !p.token.TextToken?
    ensures PlainPiece(p)
  {
    FixedSpelling(p.token);
  }

  lemma MainPiece()
    ensures PlainPiece(Spaced(Identifier("main")))
  {
    assert TextOf(Spaced(Identifier("main"))) == " main";
  }

  lemma AfterNamePlain()
    ensures forall i :: 0 <= i < |AFTER_NAME| ==> PlainPiece(AFTER_NAME[i])
  {
    forall i | 0 <= i < |COMPACT_SIGNATURE| ensures PlainPiece(COMPACT_SIGNATURE[i]) {
      if i == 2 {
        MainPiece();
      } else {
        FixedPiece(COMPACT_SIGNATURE[i]);
      }
    }
    forall i | 0 <= i < |COMPACT_BODY| ensures PlainPiece(COMPACT_BODY[i]) {
      FixedPiece(COMPACT_BODY[i]);
    }
    forall i | 0 <= i < |AFTER_NAME| ensures PlainPiece(AFTER_NAME[i]) {
      assert AFTER_NAME[i] == if i < 7 then COMPACT_SIGNATURE[i] else COMPACT_BODY[i - 7];
    }
  }

  lemma CompactPlain(name: string)
    requires IsAscii(name)
    ensures forall i :: 0 <= i < |Compact(name)| ==> IsAscii(TextOf(Compact(name)[i]))
    ensures forall i :: 0 <= i < |Compact(name)| && i != 1 ==> |TextOf(Compact(name)[i])| <= 10
  {
    AfterNamePlain();
    FixedPiece(Close(KwModule));
    assert TextOf(Spaced(Identifier(name))) == " " + name;
    forall i | 2 <= i < |Compact(name)| ensures PlainPiece(Compact(name)[i]) {
      assert Compact(name)[i] == AFTER_NAME[i - 2];
    }
  }

  lemma ShortPieces()
    ensures |Render(Compact(""))| <= 160
  {
    CompactPlain("");
    assert |Compact("")| == 16;
    assert TextOf(Spaced(Identifier(""))) == " ";
    RenderIsShort(Compact(""), 10);
  }

  lemma CompactIsAscii(n: nat)
    ensures IsAscii(Render(Compact(Repeated(n))))
  {
    CompactPlain(Repeated(n));
    RenderIsAscii(Compact(Repeated(n)));
  }

  /** A layout with the tokens of a program, within the limits, is a source of the program. */
  lemma LayoutParses(ps: seq<Piece>, p: Program)
    requires WellSpaced(ps) && TokensIn(ps) == TokensIn(ProgramPieces(p)) && p.functions != []
    requires Utf8Length(Render(ps)) <= MAX_SOURCE_BYTES && |ps| <= MAX_TOKENS
    ensures ParseSource(Render(ps)) == Some(p)
  {
    hide Render, Scan, Utf8Length, WellSpaced, ParseModule;
    ScanRender(ps, "");
    assert Render(ps) + "" == Render(ps);
    ReadsModule(p);
  }

  /** A compact source of a module with a long name that fills the byte limit exactly. */
  lemma FullSource() returns (name: string)
    ensures ParseSource(Render(Compact(name))) == Some(MainOnly(name))
    ensures |Render(Compact(name))| == MAX_SOURCE_BYTES
  {
    ShortPieces();
    var n := MAX_SOURCE_BYTES - |Render(Compact(""))|;
    name := Repeated(n);
    RepeatedIsName(n);
    CompactSpaced(name);
    CompactLength(name);
    CompactIsAscii(n);
    Utf8AtLeast(Render(Compact(name)));
    CompactTokens(name);
    TighterTokens(Compact(name), ProgramPieces(MainOnly(name)));
    hide Utf8Length, TokensIn, Render, WellSpaced, Compact;
    LayoutParses(Compact(name), MainOnly(name));
  }

  /**
   * The round trip does fail: this source fills the byte limit exactly, and the line breaks and
   * spaces of its canonical text no longer fit.
   */
  lemma LongNamesDoNotRoundTrip() returns (source: string)
    ensures ParseSource(source).Some? && ParseSource(Format(ParseSource(source).value)).None?
  {
    var name := FullSource();
    var p := MainOnly(name);
    source := Render(Compact(name));
    CompactTokens(name);
    MoreBlankIsLonger(Compact(name), ProgramPieces(p));
    Utf8AtLeast(Format(p));
    FormatRoundTrip(source, p);
  }

  // ---------- from text to verdict ----------

  /** A parsed source needs no further condition on its names for the later stages. */
  lemma SourceIsNamed(source: string)
    ensures ParseSource(source).Some? ==> Named(ParseSource(source).value)
  {
    if ParseSource(source).Some? {
      ParsedIsPrintable(source);
    }
  }
}
