// Text as tokens and gaps: if adjacent tokens cannot be read as one, scanning
// the rendered text gives back exactly the tokens.
module Layout {
  import opened Prelude
  import opened Tokens

  // A token and the white space in front of it.
  datatype Piece = Piece(blank: string, token: Token)

  function Spell(t: Token): string {
    match t
    case KwModule => "module"
    case KwFn => "fn"
    case KwEffects => "effects"
    case KwLet => "let"
    case KwReturn => "return"
    case KwRequest => "request"
    case KwTrue => "true"
    case KwFalse => "false"
    case KwI64 => "i64"
    case KwBool => "bool"
    case KwString => "string"
    case KwUnit => "unit"
    case Identifier(name) => name
    case IntegerToken(n) => ToDecimal(n)
    case TextToken(text) => ['\"'] + EscapeAll(text) + ['\"']
    case LeftParen => "("
    case RightParen => ")"
    case LeftBrace => "{"
    case RightBrace => "}"
    case LeftBracket => "["
    case RightBracket => "]"
    case Comma => ","
    case Colon => ":"
    case Semicolon => ";"
    case Arrow => "->"
    case Plus => "+"
    case Dash => "-"
    case Star => "*"
    case Slash => "/"
    case Percent => "%"
    case Assign => "="
    case EqualEqual => "=="
    case Exclamation => "!"
    case BangEqual => "!="
    case LessThan => "<"
    case LessOrEqual => "<="
    case GreaterThan => ">"
    case GreaterOrEqual => ">="
    case AndAnd => "&&"
    case OrOr => "||"
    case Eof => ""
  }

  function TextOf(p: Piece): string {
    p.blank + Spell(p.token)
  }

  function Render(ps: seq<Piece>): string {
    if ps == [] then [] else TextOf(ps[0]) + Render(ps[1..])
  }

  function TokensIn(ps: seq<Piece>): (ts: seq<Token>)
    ensures |ts| == |ps|
    ensures forall i :: 0 <= i < |ps| ==> ts[i] == ps[i].token
  {
    seq(|ps|, i requires 0 <= i < |ps| => ps[i].token)
  }

  // ---------- which pieces may touch ----------

  predicate IsWordy(t: Token) {
    t.Identifier? || t.IntegerToken? || t.KwModule? || t.KwFn? || t.KwEffects? || t.KwLet? || t.KwReturn? || t.KwRequest?
    || t.KwTrue? || t.KwFalse? || t.KwI64? || t.KwBool? || t.KwString? || t.KwUnit?
  }

  /** Tokens whose first character could extend a preceding symbol or start a comment after a slash. */
  predicate Extends(t: Token) {
    t.Assign? || t.EqualEqual? || t.GreaterThan? || t.GreaterOrEqual? || t.Slash? || t.Star?
  }

  predicate IsBlank(s: string) {
    forall i :: 0 <= i < |s| ==> IsWhitespace(s[i])
  }

  predicate MayFollow(a: Token, b: Piece) {
    b.blank != [] || !((IsWordy(a) && IsWordy(b.token)) || Extends(b.token))
  }

  predicate PieceOk(p: Piece) {
    IsBlank(p.blank) && Spellable(p.token)
  }

  predicate WellSpaced(ps: seq<Piece>) {
    && (forall i :: 0 <= i < |ps| ==> PieceOk(ps[i]))
    && (forall i :: 0 <= i < |ps| - 1 ==> MayFollow(ps[i].token, ps[i + 1]))
  }

  lemma {:induction false} RenderAppend(a: seq<Piece>, b: seq<Piece>)
    ensures Render(a + b) == Render(a) + Render(b)
  {
    if a == [] {
      assert a + b == b;
    } else {
      assert (a + b)[1..] == a[1..] + b;
      RenderAppend(a[1..], b);
    }
  }

  /** Well spaced lists may be joined where the second may follow the first. */
  lemma WellSpacedAppend(a: seq<Piece>, b: seq<Piece>)
    requires WellSpaced(a) && WellSpaced(b)
    requires a != [] && b != [] ==> MayFollow(a[|a| - 1].token, b[0])
    ensures WellSpaced(a + b)
  {
    var ps := a + b;
    forall i | 0 <= i < |ps| - 1 ensures MayFollow(ps[i].token, ps[i + 1]) {
      if i + 1 < |a| {
        assert ps[i] == a[i] && ps[i + 1] == a[i + 1];
      } else if i >= |a| {
        assert ps[i] == b[i - |a|] && ps[i + 1] == b[i + 1 - |a|];
      }
    }
  }

  // ---------- reading one spelled token back ----------

  predicate StartsWordy(s: string) {
    s != [] && IsWordChar(s[0])
  }

  predicate StartsExtending(s: string) {
    s != [] && (s[0] == '=' || s[0] == '>' || s[0] == '/' || s[0] == '*')
  }

  /** What must not follow a token for it to be read as it was written. */
  predicate Ends(t: Token, s: string) {
    (IsWordy(t) ==> !StartsWordy(s)) && (!IsWordy(t) && !t.TextToken? ==> !StartsExtending(s))
  }

  lemma KeywordSpelling(t: Token)
    requires IsWordy(t) && !t.IntegerToken? && Spellable(t)
    ensures IsIdentifier(Spell(t)) && WordToken(Spell(t)) == t
  {
  }

  lemma DecimalOfNatural(n: i64)
    requires n >= 0
    ensures AllDigits(ToDecimal(n)) && ToDecimal(n) != [] && ParseI64(ToDecimal(n)) == Some(n)
  {
    DecimalRoundTrip(n);
  }

  lemma WordReadsBack(t: Token, s: string)
    requires IsWordy(t) && Spellable(t) && !StartsWordy(s)
    ensures Spell(t) != [] && ScanToken(Spell(t) + s) == Scanned(t, s)
  {
    var text := Spell(t) + s;
    if t.IntegerToken? {
      DecimalOfNatural(t.value);
      DigitPrefixStops(Spell(t), s);
      assert text[0] == Spell(t)[0];
    } else {
      KeywordSpelling(t);
      WordPrefixStops(Spell(t), s);
      assert text[0] == Spell(t)[0];
    }
    assert text[|Spell(t)|..] == s;
  }

  lemma LiteralReadsBack(text: string, s: string)
    requires AllDenotable(text)
    ensures ScanToken(Spell(TextToken(text)) + s) == Scanned(TextToken(text), s)
  {
    var whole := Spell(TextToken(text)) + s;
    assert whole[1..] == EscapeAll(text) + ['\"'] + s;
    LiteralRoundTrip(text, s);
  }

  lemma SymbolReadsBack(t: Token, s: string)
    requires !IsWordy(t) && !t.TextToken? && !t.Eof? && !StartsExtending(s)
    ensures Spell(t) != [] && ScanToken(Spell(t) + s) == Scanned(t, s)
    ensures PlainStart(Spell(t) + s)
  {
    hide Spell, ScanSymbol;
    SymbolStarts(t);
    var text := Spell(t) + s;
    assert text[|Spell(t)|..] == s;
    assert text[0] == Spell(t)[0];
    if |Spell(t)| == 2 {
      assert text[1] == Spell(t)[1];
    } else if s != [] {
      assert text[1] == s[0];
    }
    SymbolScans(t, text);
  }

  predicate IsSymbol(t: Token) {
    !IsWordy(t) && !t.TextToken? && !t.Eof?
  }

  /** One or two characters, none of which starts a word, a literal, a blank or a comment. */
  lemma SymbolStarts(t: Token)
    requires IsSymbol(t)
    ensures 1 <= |Spell(t)| <= 2
    ensures var c := Spell(t)[0]; !IsWordStart(c) && !IsDigit(c) && c != '\"' && !IsWhitespace(c)
    ensures |Spell(t)| == 2 ==> Spell(t)[1] != '/' && Spell(t)[1] != '*'
  {
  }

  lemma SymbolScans(t: Token, text: string)
    requires IsSymbol(t) && text != [] && |Spell(t)| <= |text| && Spell(t) != []
    requires text[0] == Spell(t)[0] && (|Spell(t)| == 2 ==> text[1] == Spell(t)[1])
    requires |Spell(t)| == 1 && |text| > 1 ==> !StartsExtending(text[1..])
    ensures ScanSymbol(text) == Scanned(t, text[|Spell(t)|..])
  {
    assert |text| > 1 ==> text[1..][0] == text[1];
  }

  lemma WordStarts(t: Token)
    requires IsWordy(t) && Spellable(t)
    ensures Spell(t) != [] && IsWordChar(Spell(t)[0])
  {
    if t.IntegerToken? {
      DecimalOfNatural(t.value);
    } else {
      KeywordSpelling(t);
    }
  }

  predicate PlainStart(text: string) {
    text != [] && !IsWhitespace(text[0]) && !StartsComment(text, '/') && !StartsComment(text, '*')
  }

  lemma WordCharIsPlain(text: string)
    requires text != [] && (IsWordChar(text[0]) || text[0] == '\"')
    ensures PlainStart(text)
  {
  }

  /** A token is read back from its spelling, whatever follows, unless the following text would extend it. */
  lemma TokenReadsBack(t: Token, s: string)
    requires Spellable(t) && Ends(t, s)
    ensures PlainStart(Spell(t) + s) && ScanToken(Spell(t) + s) == Scanned(t, s)
  {
    var text := Spell(t) + s;
    if IsWordy(t) {
      WordReadsBack(t, s);
      WordStarts(t);
      assert text[0] == Spell(t)[0];
      WordCharIsPlain(text);
    } else if t.TextToken? {
      LiteralReadsBack(t.text, s);
      assert text[0] == '\"';
      WordCharIsPlain(text);
    } else {
      SymbolReadsBack(t, s);
    }
  }

  // ---------- reading a whole layout back ----------

  lemma SpellingStarts(t: Token)
    requires Spellable(t)
    ensures Spell(t) != []
    ensures StartsWordy(Spell(t)) <==> IsWordy(t)
    ensures StartsExtending(Spell(t)) ==> Extends(t)
  {
    if IsWordy(t) {
      WordStarts(t);
    }
  }

  lemma {:induction false} ScanBlank(blank: string, s: string)
    requires IsBlank(blank)
    ensures Scan(blank + s) == Scan(s)
  {
    if blank == [] {
      assert blank + s == s;
    } else {
      assert (blank + s)[1..] == blank[1..] + s;
      ScanBlank(blank[1..], s);
    }
  }

  lemma BlankBreaks(t: Token, blank: string, s: string)
    requires blank != [] && IsBlank(blank)
    ensures Ends(t, blank + s)
  {
    assert (blank + s)[0] == blank[0];
  }

  lemma WellSpacedTail(ps: seq<Piece>)
    requires ps != [] && WellSpaced(ps)
    ensures WellSpaced(ps[1..]) && PieceOk(ps[0])
    ensures |ps| > 1 ==> MayFollow(ps[0].token, ps[1]) && PieceOk(ps[1])
  {
    var rest := ps[1..];
    forall i | 0 <= i < |rest| - 1 ensures MayFollow(rest[i].token, rest[i + 1]) {
      assert MayFollow(ps[i + 1].token, ps[i + 1 + 1]);
    }
  }

  /** What follows a token in a well spaced layout does not extend it. */
  lemma EndsBefore(ps: seq<Piece>, tail: string)
    requires ps != [] && WellSpaced(ps) && IsBlank(tail)
    ensures Ends(ps[0].token, Render(ps[1..]) + tail)
  {
    WellSpacedTail(ps);
    var t := ps[0].token;
    if |ps| == 1 {
      assert Render(ps[1..]) + tail == tail;
      if tail != [] {
        BlankBreaks(t, tail, []);
        assert tail + [] == tail;
      }
    } else {
      var next := ps[1];
      var after := Render(ps[2..]) + tail;
      assert ps[1..][1..] == ps[2..];
      assert Render(ps[1..]) + tail == next.blank + (Spell(next.token) + after);
      if next.blank != [] {
        BlankBreaks(t, next.blank, Spell(next.token) + after);
      } else {
        SpellingStarts(next.token);
        assert (next.blank + (Spell(next.token) + after))[0] == Spell(next.token)[0];
      }
    }
  }

  lemma ScanSpelled(t: Token, s: string)
    requires Spellable(t) && Ends(t, s)
    ensures Scan(Spell(t) + s) == match Scan(s)
                                  case None => None
                                  case Some(tokens) => Some([t] + tokens)
  {
    TokenReadsBack(t, s);
  }

  lemma RenderFirst(ps: seq<Piece>, tail: string)
    requires ps != []
    ensures Render(ps) + tail == ps[0].blank + (Spell(ps[0].token) + (Render(ps[1..]) + tail))
  {
    FourRegroup(ps[0].blank, Spell(ps[0].token), Render(ps[1..]), tail);
  }

  lemma FourRegroup(a: string, b: string, c: string, d: string)
    ensures a + b + c + d == a + (b + (c + d))
  {
  }

  /** Scanning a rendered layout gives back its tokens. */
  lemma {:induction false} ScanRender(ps: seq<Piece>, tail: string)
    requires WellSpaced(ps) && IsBlank(tail)
    ensures Scan(Render(ps) + tail) == Some(TokensIn(ps))
  {
    if ps == [] {
      ScanBlank(tail, []);
      assert tail + [] == tail == Render(ps) + tail;
    } else {
      WellSpacedTail(ps);
      ScanRender(ps[1..], tail);
      EndsBefore(ps, tail);
      var rest := Render(ps[1..]) + tail;
      ScanSpelled(ps[0].token, rest);
      ScanBlank(ps[0].blank, Spell(ps[0].token) + rest);
      RenderFirst(ps, tail);
      assert TokensIn(ps) == [ps[0].token] + TokensIn(ps[1..]);
    }
  }
}
