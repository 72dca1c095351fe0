// Tokens of JOAN source text: how they are spelled, and how a scanner reads
// them. Scan says which tokens a text holds; the lexer is proved against it.
module Tokens {
  import opened Prelude

  const MAX_SOURCE_BYTES: nat := 1_048_576
  const MAX_TOKENS: nat := 200_000

  datatype Token =
    | KwModule | KwFn | KwEffects | KwLet | KwReturn | KwRequest | KwTrue | KwFalse
    | KwI64 | KwBool | KwString | KwUnit
    | Identifier(name: string)
    | IntegerToken(value: i64)
    | TextToken(text: string)
    | LeftParen | RightParen | LeftBrace | RightBrace | LeftBracket | RightBracket
    | Comma | Colon | Semicolon | Arrow
    | Plus | Dash | Star | Slash | Percent
    | Assign | EqualEqual | Exclamation | BangEqual
    | LessThan | LessOrEqual | GreaterThan | GreaterOrEqual
    | AndAnd | OrOr
    | Eof

  // ---------- characters ----------

  predicate IsWordStart(c: char) {
    IsLetter(c)
  }

  predicate IsWordChar(c: char) {
    IsLetter(c) || IsDigit(c)
  }

  /** The Unicode White_Space property. */
  predicate IsWhitespace(c: char) {
    var n := c as int;
    || 0x09 <= n <= 0x0D || n == 0x20 || n == 0x85 || n == 0xA0 || n == 0x1680
    || 0x2000 <= n <= 0x200A || n == 0x2028 || n == 0x2029 || n == 0x202F || n == 0x205F || n == 0x3000
  }

  /** The Unicode control characters. */
  predicate IsControl(c: char) {
    var n := c as int;
    n < 0x20 || 0x7F <= n <= 0x9F
  }

  function Utf8Width(c: char): nat {
    var n := c as int;
    if n < 0x80 then 1 else if n < 0x800 then 2 else if n < 0x10000 then 3 else 4
  }

  function Utf8Length(s: string): nat {
    if s == [] then 0 else Utf8Width(s[0]) + Utf8Length(s[1..])
  }

  // ---------- words ----------

  function WordToken(word: string): Token {
    if word == "module" then KwModule
    else if word == "fn" then KwFn
    else if word == "effects" then KwEffects
    else if word == "let" then KwLet
    else if word == "return" then KwReturn
    else if word == "request" then KwRequest
    else if word == "true" then KwTrue
    else if word == "false" then KwFalse
    else if word == "i64" then KwI64
    else if word == "bool" then KwBool
    else if word == "string" then KwString
    else if word == "unit" then KwUnit
    else Identifier(word)
  }

  /** A name the parser can deliver: an identifier that is not a keyword. */
  predicate IsName(name: string) {
    IsIdentifier(name) && WordToken(name) == Identifier(name)
  }

  /** The longest prefix of word characters. */
  function WordPrefix(s: string): (w: string)
    ensures w <= s && IsIdentifierTail(w)
    ensures |w| < |s| ==> !IsWordChar(s[|w|])
  {
    if s == [] || !IsWordChar(s[0]) then [] else [s[0]] + WordPrefix(s[1..])
  }

  function DigitPrefix(s: string): (d: string)
    ensures d <= s && AllDigits(d)
    ensures |d| < |s| ==> !IsDigit(s[|d|])
  {
    if s == [] || !IsDigit(s[0]) then [] else [s[0]] + DigitPrefix(s[1..])
  }

  lemma {:induction false} WordPrefixStops(w: string, s: string)
    requires IsIdentifierTail(w) && (s == [] || !IsWordChar(s[0]))
    ensures WordPrefix(w + s) == w
  {
    if w == [] {
      assert w + s == s;
    } else {
      assert (w + s)[1..] == w[1..] + s;
      WordPrefixStops(w[1..], s);
      assert w == [w[0]] + w[1..];
    }
  }

  lemma {:induction false} DigitPrefixStops(d: string, s: string)
    requires AllDigits(d) && (s == [] || !IsDigit(s[0]))
    ensures DigitPrefix(d + s) == d
  {
    if d == [] {
      assert d + s == s;
    } else {
      assert (d + s)[1..] == d[1..] + s;
      DigitPrefixStops(d[1..], s);
      assert d == [d[0]] + d[1..];
    }
  }

  // ---------- string literals ----------

  function Escape(c: char): string {
    if c == '\n' then "\\n"
    else if c == '\r' then "\\r"
    else if c == '\t' then "\\t"
    else if c == '\\' then "\\\\"
    else if c == '\"' then "\\\""
    else [c]
  }

  function EscapeAll(s: string): string {
    if s == [] then [] else Escape(s[0]) + EscapeAll(s[1..])
  }

  function Unescape(c: char): Option<char> {
    if c == 'n' then Some('\n')
    else if c == 'r' then Some('\r')
    else if c == 't' then Some('\t')
    else if c == '\\' then Some('\\')
    else if c == '\"' then Some('\"')
    else None
  }

  /** Characters a literal can denote: every control character except those with an escape is excluded. */
  predicate Denotable(c: char) {
    c == '\n' || c == '\r' || c == '\t' || !IsControl(c)
  }

  predicate AllDenotable(s: string) {
    forall i :: 0 <= i < |s| ==> Denotable(s[i])
  }

  // What follows an opening quote: the decoded text and the rest of the source.
  datatype Literal = Literal(decoded: string, rest: string) | BadLiteral

  function ScanLiteral(s: string): (r: Literal)
    ensures r.Literal? ==> |r.rest| < |s| && AllDenotable(r.decoded)
    decreases |s|
  {
    if s == [] then BadLiteral
    else if s[0] == '\"' then Literal([], s[1..])
    else if s[0] == '\n' || s[0] == '\r' then BadLiteral
    else if s[0] == '\\' then
      if |s| < 2 || Unescape(s[1]).None? then BadLiteral
      else
        match ScanLiteral(s[2..])
        case BadLiteral => BadLiteral
        case Literal(decoded, rest) => Literal([Unescape(s[1]).value] + decoded, rest)
    else if IsControl(s[0]) then BadLiteral
    else
      match ScanLiteral(s[1..])
      case BadLiteral => BadLiteral
      case Literal(decoded, rest) => Literal([s[0]] + decoded, rest)
  }

  /** Escaping and scanning undo each other, for every text a literal can denote. */
  lemma {:induction false} LiteralRoundTrip(text: string, rest: string)
    requires AllDenotable(text)
    ensures ScanLiteral(EscapeAll(text) + ['\"'] + rest) == Literal(text, rest)
  {
    var s := EscapeAll(text) + ['\"'] + rest;
    if text == [] {
      assert s[1..] == rest;
    } else {
      var tail := EscapeAll(text[1..]) + ['\"'] + rest;
      LiteralRoundTrip(text[1..], rest);
      assert s == Escape(text[0]) + tail;
      ScanEscaped(text[0], text[1..], tail, rest);
      assert text == [text[0]] + text[1..];
    }
  }

  lemma ScanEscaped(c: char, text: string, tail: string, rest: string)
    requires Denotable(c) && ScanLiteral(tail) == Literal(text, rest)
    ensures ScanLiteral(Escape(c) + tail) == Literal([c] + text, rest)
  {
    assert (Escape(c) + tail)[|Escape(c)|..] == tail;
  }

  // ---------- symbols ----------

  // A token and the text after it.
  datatype Scanned = Scanned(token: Token, rest: string) | NoToken

  function ScanSymbol(s: string): (r: Scanned)
    requires s != []
    ensures r.Scanned? ==> |r.rest| < |s|
  {
    var c := s[0];
    var d := if |s| > 1 then s[1] else ' ';
    if c == '-' && d == '>' then Scanned(Arrow, s[2..])
    else if c == '=' && d == '=' then Scanned(EqualEqual, s[2..])
    else if c == '!' && d == '=' then Scanned(BangEqual, s[2..])
    else if c == '<' && d == '=' then Scanned(LessOrEqual, s[2..])
    else if c == '>' && d == '=' then Scanned(GreaterOrEqual, s[2..])
    else if c == '&' && d == '&' then Scanned(AndAnd, s[2..])
    else if c == '|' && d == '|' then Scanned(OrOr, s[2..])
    else if c == '(' then Scanned(LeftParen, s[1..])
    else if c == ')' then Scanned(RightParen, s[1..])
    else if c == '{' then Scanned(LeftBrace, s[1..])
    else if c == '}' then Scanned(RightBrace, s[1..])
    else if c == '[' then Scanned(LeftBracket, s[1..])
    else if c == ']' then Scanned(RightBracket, s[1..])
    else if c == ',' then Scanned(Comma, s[1..])
    else if c == ':' then Scanned(Colon, s[1..])
    else if c == ';' then Scanned(Semicolon, s[1..])
    else if c == '+' then Scanned(Plus, s[1..])
    else if c == '-' then Scanned(Dash, s[1..])
    else if c == '*' then Scanned(Star, s[1..])
    else if c == '/' then Scanned(Slash, s[1..])
    else if c == '%' then Scanned(Percent, s[1..])
    else if c == '=' then Scanned(Assign, s[1..])
    else if c == '!' then Scanned(Exclamation, s[1..])
    else if c == '<' then Scanned(LessThan, s[1..])
    else if c == '>' then Scanned(GreaterThan, s[1..])
    else NoToken
  }

  // ---------- comments ----------

  function AfterLine(s: string): (r: string)
    ensures |r| <= |s|
  {
    if s == [] || s[0] == '\n' then s else AfterLine(s[1..])
  }

  /** The text after the comment that is open depth times; comments nest. */
  function AfterBlock(s: string, depth: nat): (r: Option<string>)
    requires depth > 0
    ensures r.Some? ==> |r.value| < |s|
    decreases |s|
  {
    if s == [] then None
    else if |s| > 1 && s[0] == '/' && s[1] == '*' then AfterBlock(s[2..], depth + 1)
    else if |s| > 1 && s[0] == '*' && s[1] == '/' then
      if depth == 1 then Some(s[2..]) else AfterBlock(s[2..], depth - 1)
    else AfterBlock(s[1..], depth)
  }

  // ---------- scanning ----------

  predicate StartsComment(s: string, mark: char) {
    |s| > 1 && s[0] == '/' && s[1] == mark
  }

  function ScanToken(s: string): (r: Scanned)
    requires s != []
    ensures r.Scanned? ==> |r.rest| < |s|
  {
    if IsWordStart(s[0]) then
      var w := WordPrefix(s);
      Scanned(WordToken(w), s[|w|..])
    else if IsDigit(s[0]) then
      var d := DigitPrefix(s);
      match ParseI64(d)
      case None => NoToken
      case Some(n) => Scanned(IntegerToken(n), s[|d|..])
    else if s[0] == '\"' then
      match ScanLiteral(s[1..])
      case BadLiteral => NoToken
      case Literal(decoded, rest) => Scanned(TextToken(decoded), rest)
    else ScanSymbol(s)
  }

  /** All tokens of a text, or nothing if it is not lexically valid. */
  function Scan(s: string): Option<seq<Token>>
    decreases |s|
  {
    if s == [] then Some([])
    else if IsWhitespace(s[0]) then Scan(s[1..])
    else if StartsComment(s, '/') then Scan(AfterLine(s[2..]))
    else if StartsComment(s, '*') then
      match AfterBlock(s[2..], 1)
      case None => None
      case Some(rest) => Scan(rest)
    else
      match ScanToken(s)
      case NoToken => None
      case Scanned(token, rest) =>
        match Scan(rest)
        case None => None
        case Some(tokens) => Some([token] + tokens)
  }

  /** What the lexer delivers: the tokens with an end marker, within the limits on bytes and tokens. */
  function Lex(s: string): Option<seq<Token>> {
    if Utf8Length(s) > MAX_SOURCE_BYTES then None
    else
      match Scan(s)
      case None => None
      case Some(tokens) => if |tokens| > MAX_TOKENS then None else Some(tokens + [Eof])
  }

  // ---------- what scanned tokens are like ----------

  /** Tokens that some text is scanned into. */
  predicate Spellable(t: Token) {
    match t
    case Identifier(name) => IsName(name)
    case IntegerToken(n) => n >= 0
    case TextToken(text) => AllDenotable(text)
    case Eof => false
    case _ => true
  }

  lemma ScannedTokenIsSpellable(s: string)
    requires s != [] && ScanToken(s).Scanned?
    ensures Spellable(ScanToken(s).token)
  {
    if IsWordStart(s[0]) {
      var w := WordPrefix(s);
      assert w[0] == s[0];
    } else if IsDigit(s[0]) {
      var d := DigitPrefix(s);
      assert d[0] == s[0];
    }
  }

  /** Every token of a valid text has a proper name, a non-negative number, or a denotable text. */
  lemma {:induction false} ScannedAreSpellable(s: string)
    ensures Scan(s).Some? ==> forall i :: 0 <= i < |Scan(s).value| ==> Spellable(Scan(s).value[i])
    decreases |s|
  {
    if s != [] && Scan(s).Some? {
      if IsWhitespace(s[0]) {
        ScannedAreSpellable(s[1..]);
      } else if StartsComment(s, '/') {
        ScannedAreSpellable(AfterLine(s[2..]));
      } else if StartsComment(s, '*') {
        ScannedAreSpellable(AfterBlock(s[2..], 1).value);
      } else {
        ScannedTokenIsSpellable(s);
        ScannedAreSpellable(ScanToken(s).rest);
      }
    }
  }
}
