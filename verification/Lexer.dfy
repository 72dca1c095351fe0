// The lexer as it runs: an offset that moves through the source, character by
// character, and a list of tokens that grows.
module Lexer {
  import opened Prelude
  import opened Tokens

  class Lexer {
    const source: string
    var offset: nat
    var tokens: seq<Token>

    ghost predicate Valid()
      reads this
    {
      offset <= |source| && |tokens| <= MAX_TOKENS
    }

    /** The text not read yet. */
    ghost function Ahead(): string
      reads this
      requires Valid()
    {
      source[offset..]
    }

    constructor (source: string)
      ensures Valid() && this.source == source && offset == 0 && tokens == []
    {
      this.source := source;
      offset, tokens := 0, [];
    }

    function Current(): Option<char>
      reads this
    {
      if offset < |source| then Some(source[offset]) else None
    }

    function Next(): Option<char>
      reads this
    {
      if offset + 1 < |source| then Some(source[offset + 1]) else None
    }

    method Bump()
      requires Valid() && offset < |source|
      modifies this`offset
      ensures Valid() && offset == old(offset) + 1 && Ahead() == old(Ahead())[1..]
    {
      offset := offset + 1;
    }

    method Push(t: Token) returns (ok: bool)
      requires Valid()
      modifies this`tokens
      ensures Valid() && ok == (|old(tokens)| < MAX_TOKENS)
      ensures tokens == if ok then old(tokens) + [t] else old(tokens)
    {
      ok := |tokens| < MAX_TOKENS;
      if ok {
        tokens := tokens + [t];
      }
    }

    /** The contract of every reader of one token: it reads what is scanned, if there is room. */
    ghost predicate Reads(ok: bool, scanned: Scanned, already: seq<Token>)
      reads this
      requires Valid()
    {
      match scanned
      case NoToken => !ok
      case Scanned(token, rest) =>
        ok == (|already| < MAX_TOKENS) && (ok ==> tokens == already + [token] && Ahead() == rest)
    }

    method LineComment()
      requires Valid() && StartsComment(Ahead(), '/')
      modifies this`offset
      ensures Valid() && Ahead() == AfterLine(old(Ahead())[2..])
    {
      Bump();
      Bump();
      ghost var start := Ahead();
      while Current().Some? && Current().value != '\n'
        invariant Valid() && AfterLine(Ahead()) == AfterLine(start)
        decreases |source| - offset
      {
        Bump();
      }
    }

    method BlockComment() returns (ok: bool)
      requires Valid() && StartsComment(Ahead(), '*')
      modifies this`offset
      ensures Valid() && offset > old(offset)
      ensures match AfterBlock(old(Ahead())[2..], 1)
              case None => !ok
              case Some(rest) => ok && Ahead() == rest
    {
      Bump();
      Bump();
      var depth := 1;
      ghost var start := Ahead();
      while Current().Some?
        invariant Valid() && depth > 0 && AfterBlock(Ahead(), depth) == AfterBlock(start, 1)
        invariant offset > old(offset)
        decreases |source| - offset
      {
        if Current() == Some('/') && Next() == Some('*') {
          Bump();
          Bump();
          depth := depth + 1;
        } else if Current() == Some('*') && Next() == Some('/') {
          Bump();
          Bump();
          depth := depth - 1;
          if depth == 0 {
            return true;
          }
        } else {
          Bump();
        }
      }
      ok := false;
    }

    method WordRun() returns (text: string)
      requires Valid()
      modifies this`offset
      ensures Valid() && text == WordPrefix(old(Ahead())) && Ahead() == old(Ahead())[|text|..]
    {
      var start := offset;
      ghost var before := Ahead();
      while Current().Some? && IsWordChar(Current().value)
        invariant Valid() && start <= offset
        invariant |WordPrefix(before)| == offset - start + |WordPrefix(source[offset..])|
        decreases |source| - offset
      {
        assert source[offset..][0] == source[offset] && source[offset..][1..] == source[offset + 1..];
        Bump();
      }
      assert WordPrefix(source[offset..]) == [];
      text := source[start..offset];
      assert text == before[..offset - start];
    }

    method DigitRun() returns (text: string)
      requires Valid()
      modifies this`offset
      ensures Valid() && text == DigitPrefix(old(Ahead())) && Ahead() == old(Ahead())[|text|..]
    {
      var start := offset;
      ghost var before := Ahead();
      while Current().Some? && IsDigit(Current().value)
        invariant Valid() && start <= offset
        invariant |DigitPrefix(before)| == offset - start + |DigitPrefix(source[offset..])|
        decreases |source| - offset
      {
        assert source[offset..][0] == source[offset] && source[offset..][1..] == source[offset + 1..];
        Bump();
      }
      assert DigitPrefix(source[offset..]) == [];
      text := source[start..offset];
      assert text == before[..offset - start];
    }

    method Word() returns (ok: bool)
      requires Valid() && Ahead() != [] && IsWordStart(Ahead()[0])
      modifies this
      ensures Valid() && Reads(ok, ScanToken(old(Ahead())), old(tokens))
    {
      var text := WordRun();
      ok := Push(WordToken(text));
    }

    method Number() returns (ok: bool)
      requires Valid() && Ahead() != [] && IsDigit(Ahead()[0])
      modifies this
      ensures Valid() && Reads(ok, ScanToken(old(Ahead())), old(tokens))
    {
      var text := DigitRun();
      var value := ParseI64(text);
      if value.None? {
        return false;
      }
      ok := Push(IntegerToken(value.value));
    }

    /** The decoded characters so far, followed by what is still to be scanned. */
    ghost function Resumed(decoded: string, rest: Literal): Literal {
      match rest
      case BadLiteral => BadLiteral
      case Literal(more, after) => Literal(decoded + more, after)
    }

    method Text() returns (ok: bool)
      requires Valid() && Ahead() != [] && Ahead()[0] == '\"'
      modifies this
      ensures Valid() && Reads(ok, ScanToken(old(Ahead())), old(tokens))
    {
      Bump();
      var decoded := "";
      ghost var whole := ScanLiteral(Ahead());
      assert Resumed([], whole) == whole;
      while true
        invariant Valid() && tokens == old(tokens)
        invariant whole == Resumed(decoded, ScanLiteral(Ahead()))
        decreases |source| - offset
      {
        var value := Current();
        if value.None? {
          return false;
        }
        assert Ahead()[0] == value.value;
        if value.value == '\"' {
          Bump();
          break;
        }
        if value.value == '\n' || value.value == '\r' {
          return false;
        }
        ghost var here := Ahead();
        if value.value == '\\' {
          Bump();
          if Current().None? {
            return false;
          }
          var escaped := Unescape(Current().value);
          Bump();
          if escaped.None? {
            return false;
          }
          ResumeStep(decoded, escaped.value, ScanLiteral(Ahead()));
          decoded := decoded + [escaped.value];
        } else if IsControl(value.value) {
          return false;
        } else {
          ResumeStep(decoded, value.value, ScanLiteral(here[1..]));
          decoded := decoded + [value.value];
          Bump();
        }
      }
      assert decoded + [] == decoded;
      ok := Push(TextToken(decoded));
    }

    lemma ResumeStep(decoded: string, c: char, rest: Literal)
      ensures rest.Literal? ==>
                Resumed(decoded, Literal([c] + rest.decoded, rest.rest)) == Resumed(decoded + [c], rest)
    {
      if rest.Literal? {
        assert decoded + ([c] + rest.decoded) == decoded + [c] + rest.decoded;
      }
    }

    method Symbol() returns (ok: bool)
      requires Valid() && Ahead() != []
      requires !IsWordStart(Ahead()[0]) && !IsDigit(Ahead()[0]) && Ahead()[0] != '\"'
      modifies this
      ensures Valid() && Reads(ok, ScanToken(old(Ahead())), old(tokens))
    {
      var value := source[offset];
      ghost var before := Ahead();
      Bump();
      var following := Current();
      var token := Eof;
      if value == '-' && following == Some('>') {
        Bump();
        token := Arrow;
      } else if value == '=' && following == Some('=') {
        Bump();
        token := EqualEqual;
      } else if value == '!' && following == Some('=') {
        Bump();
        token := BangEqual;
      } else if value == '<' && following == Some('=') {
        Bump();
        token := LessOrEqual;
      } else if value == '>' && following == Some('=') {
        Bump();
        token := GreaterOrEqual;
      } else if value == '&' && following == Some('&') {
        Bump();
        token := AndAnd;
      } else if value == '|' && following == Some('|') {
        Bump();
        token := OrOr;
      } else {
        var single := SingleSymbol(value);
        if single.None? {
          return false;
        }
        token := single.value;
      }
      assert ScanSymbol(before) == Scanned(token, Ahead());
      ok := Push(token);
    }

    /** The token of a character that stands for itself. */
    function SingleSymbol(c: char): Option<Token> {
      match c
      case '(' => Some(LeftParen)
      case ')' => Some(RightParen)
      case '{' => Some(LeftBrace)
      case '}' => Some(RightBrace)
      case '[' => Some(LeftBracket)
      case ']' => Some(RightBracket)
      case ',' => Some(Comma)
      case ':' => Some(Colon)
      case ';' => Some(Semicolon)
      case '+' => Some(Plus)
      case '-' => Some(Dash)
      case '*' => Some(Star)
      case '/' => Some(Slash)
      case '%' => Some(Percent)
      case '=' => Some(Assign)
      case '!' => Some(Exclamation)
      case '<' => Some(LessThan)
      case '>' => Some(GreaterThan)
      case _ => None
    }

    method ReadToken() returns (ok: bool)
      requires Valid() && Ahead() != []
      modifies this
      ensures Valid() && Reads(ok, ScanToken(old(Ahead())), old(tokens))
    {
      var value := source[offset];
      if IsWordStart(value) {
        ok := Word();
      } else if IsDigit(value) {
        ok := Number();
      } else if value == '\"' {
        ok := Text();
      } else {
        ok := Symbol();
      }
    }

    /** What is scanned, in terms of what is already read and what is ahead. */
    ghost predicate Continues(whole: Option<seq<Token>>)
      reads this
      requires Valid()
    {
      match Scan(Ahead())
      case None => whole.None?
      case Some(more) => whole == Some(tokens + more)
    }

    method Run() returns (r: Option<seq<Token>>)
      requires Valid() && offset == 0 && tokens == []
      modifies this
      ensures r == Lex(source)
    {
      if Utf8Length(source) > MAX_SOURCE_BYTES {
        return None;
      }
      ghost var whole := Scan(source);
      assert source[0..] == source && (whole.Some? ==> [] + whole.value == whole.value);
      while Current().Some?
        invariant Valid() && Continues(whole)
        decreases |source| - offset
      {
        ghost var here, already := Ahead(), tokens;
        var ok := true;
        if IsWhitespace(source[offset]) {
          Bump();
        } else if Current() == Some('/') && Next() == Some('/') {
          LineComment();
        } else if Current() == Some('/') && Next() == Some('*') {
          ok := BlockComment();
        } else {
          ghost var scanned := ScanToken(here);
          assert Pending(whole, already, scanned);
          ok := ReadToken();
          ReadStep(scanned, already, whole, ok);
        }
        if !ok {
          return None;
        }
      }
      assert tokens + [] == tokens;
      r := Some(tokens + [Eof]);
    }

    lemma ReadStep(scanned: Scanned, already: seq<Token>, whole: Option<seq<Token>>, ok: bool)
      requires Valid() && |already| <= MAX_TOKENS
      requires Reads(ok, scanned, already) && Pending(whole, already, scanned)
      ensures ok ==> Continues(whole)
      ensures !ok ==> whole.None? || |whole.value| > MAX_TOKENS
    {
      if ok {
        var rest := Scan(Ahead());
        if rest.Some? {
          assert already + ([scanned.token] + rest.value) == tokens + rest.value;
        }
      }
    }
  }

  /** The tokens of the whole text, when the next one is scanned but not read yet. */
  ghost predicate Pending(whole: Option<seq<Token>>, already: seq<Token>, scanned: Scanned) {
    match scanned
    case NoToken => whole.None?
    case Scanned(token, rest) =>
      match Scan(rest)
      case None => whole.None?
      case Some(more) => whole == Some(already + ([token] + more))
  }
}
