// The parser as it runs: a cursor that moves over the token list, one method per
// construct, each proved to read exactly what the grammar reads.
module Parser {
  import opened Prelude
  import opened Ast
  import opened Tokens
  import opened Grammar
  import Lexer

  class Parser {
    const tokens: seq<Token>
    var cursor: nat

    /** The list ends with its only end marker, and the cursor never passes it. */
    ghost predicate Valid()
      reads this
    {
      && tokens != [] && tokens[|tokens| - 1] == Eof
      && (forall i :: 0 <= i < |tokens| - 1 ==> tokens[i] != Eof)
      && cursor < |tokens|
    }

    ghost function Ahead(): seq<Token>
      reads this
      requires Valid()
    {
      tokens[cursor..]
    }

    /** The outcome of reading a construct is what the grammar says about the tokens ahead. */
    ghost predicate Took<T>(r: Option<T>, expected: Parsed<T>)
      reads this
      requires Valid()
    {
      match expected
      case Rejected => r.None?
      case Parsed(value, rest) => r == Some(value) && Ahead() == rest
    }

    constructor (tokens: seq<Token>)
      requires tokens != [] && tokens[|tokens| - 1] == Eof
      requires forall i :: 0 <= i < |tokens| - 1 ==> tokens[i] != Eof
      ensures Valid() && this.tokens == tokens && cursor == 0
    {
      this.tokens := tokens;
      cursor := 0;
    }

    function Current(): Token
      requires Valid()
      reads this
      ensures Current() == Head(Ahead())
    {
      tokens[cursor]
    }

    method Advance() returns (t: Token)
      requires Valid()
      modifies this
      ensures Valid() && t == Head(old(Ahead()))
      ensures t == Eof ==> cursor == old(cursor)
      ensures t != Eof ==> cursor == old(cursor) + 1 && Ahead() == old(Ahead())[1..]
    {
      t := tokens[cursor];
      if t != Eof {
        cursor := cursor + 1;
      }
    }

    /** Move past a token if it is the expected one. */
    method Consume(expected: Token) returns (ok: bool)
      requires Valid() && expected != Eof
      modifies this
      ensures Valid() && ok == (Head(old(Ahead())) == expected)
      ensures ok ==> Ahead() == old(Ahead())[1..] && cursor == old(cursor) + 1
      ensures !ok ==> cursor == old(cursor)
    {
      ok := tokens[cursor] == expected;
      if ok {
        var _ := Advance();
      }
    }

    method Name() returns (r: Option<string>)
      requires Valid()
      modifies this
      ensures Valid() && r.Some? == Head(old(Ahead())).Identifier?
      ensures r.Some? ==> r.value == old(Ahead())[0].name && Ahead() == old(Ahead())[1..] && cursor == old(cursor) + 1
    {
      var t := Advance();
      r := if t.Identifier? then Some(t.name) else None;
    }

    // ---------- expressions ----------

    /** One of the operators of a level, if it comes next. */
    method TakeOperator(level: nat) returns (op: Option<BinaryOperator>)
      requires Valid() && 1 <= level < UNARY_LEVEL
      modifies this
      ensures Valid() && op == OperatorAt(level, Head(old(Ahead())))
      ensures op.Some? ==> Ahead() == old(Ahead())[1..] && cursor == old(cursor) + 1
      ensures op.None? ==> cursor == old(cursor)
    {
      op := OperatorAt(level, tokens[cursor]);
      if op.Some? {
        var _ := Advance();
      }
    }

    method Expression() returns (r: Option<Expression<i64>>)
      requires Valid()
      modifies this
      ensures Valid() && Took(r, ParseLevel(1, old(Ahead())))
      decreases |tokens| - cursor, 20
    {
      r := Level(1);
    }

    /** Left-associative operators of one level over operands of the next. */
    method Level(level: nat) returns (r: Option<Expression<i64>>)
      requires Valid() && 1 <= level <= PRIMARY_LEVEL
      modifies this
      ensures Valid() && Took(r, ParseLevel(level, old(Ahead())))
      decreases |tokens| - cursor, 10 - level
    {
      if level == PRIMARY_LEVEL {
        r := Primary();
        return;
      }
      if level == UNARY_LEVEL {
        r := PrefixOperator();
        return;
      }
      r := Level(level + 1);
      if r.None? {
        return;
      }
      var left := r.value;
      while true
        invariant Valid() && cursor > old(cursor)
        invariant ParseLevel(level, old(Ahead())) == ParseOperators(level, left, Ahead())
        decreases |tokens| - cursor
      {
        var op := TakeOperator(level);
        if op.None? {
          break;
        }
        var right := Level(level + 1);
        if right.None? {
          return None;
        }
        left := Binary(op.value, left, right.value);
      }
      r := Some(left);
    }

    method PrefixOperator() returns (r: Option<Expression<i64>>)
      requires Valid()
      modifies this
      ensures Valid() && Took(r, ParseLevel(UNARY_LEVEL, old(Ahead())))
      decreases |tokens| - cursor, 2
    {
      var minus := Consume(Dash);
      var bang := false;
      if !minus {
        bang := Consume(Exclamation);
      }
      if minus || bang {
        var operand := PrefixOperator();
        r := if operand.None? then None else Some(Unary(if minus then Minus else Bang, operand.value));
      } else {
        r := Primary();
      }
    }

    method Primary() returns (r: Option<Expression<i64>>)
      requires Valid()
      modifies this
      ensures Valid() && Took(r, ParseLevel(PRIMARY_LEVEL, old(Ahead())))
      decreases |tokens| - cursor, 1
    {
      ghost var start := Ahead();
      assert ParseLevel(PRIMARY_LEVEL, start) == ParsePrimary(start);
      var t := Advance();
      match t
      case IntegerToken(n) => r := Some(Integer(n));
      case KwTrue => r := Some(Boolean(true));
      case KwFalse => r := Some(Boolean(false));
      case TextToken(text) => r := Some(Text(text));
      case Identifier(name) =>
        assert Head(Ahead()) == tokens[cursor];
        if tokens[cursor] == LeftParen {
          var arguments := Arguments();
          r := if arguments.None? then None else Some(Call(name, arguments.value));
        } else {
          r := Some(Variable(name));
        }
      case LeftParen =>
        var inner := Expression();
        if inner.None? {
          return None;
        }
        var closed := Consume(RightParen);
        r := if closed then inner else None;
      case _ => r := None;
    }

    method Arguments() returns (r: Option<seq<Expression<i64>>>)
      requires Valid()
      modifies this
      ensures Valid() && Took(r, ParseArguments(old(Ahead())))
      decreases |tokens| - cursor, 0
    {
      var begun := Consume(LeftParen);
      if !begun {
        return None;
      }
      var arguments: Option<seq<Expression<i64>>> := Some([]);
      if tokens[cursor] != RightParen {
        arguments := ArgumentList();
        if arguments.None? {
          return None;
        }
      }
      var closed := Consume(RightParen);
      r := if closed then arguments else None;
    }

    /** Expressions as long as commas follow. */
    method ArgumentList() returns (r: Option<seq<Expression<i64>>>)
      requires Valid()
      modifies this
      ensures Valid() && Took(r, ParseArgumentList(old(Ahead())))
      decreases |tokens| - cursor, 21
    {
      var arguments: seq<Expression<i64>> := [];
      ghost var whole := ParseArgumentList(Ahead());
      PrefixedNothing(whole);
      var more := true;
      while more
        invariant Valid() && cursor >= old(cursor)
        invariant more ==> whole == Prefixed(arguments, ParseArgumentList(Ahead()))
        invariant !more ==> whole == Parsed(arguments, Ahead())
        decreases |tokens| - cursor, more
      {
        ghost var here := Ahead();
        var e := Expression();
        if e.None? {
          return None;
        }
        PrefixedStep(arguments, e.value, ParseArgumentList(Ahead()[1..]), Ahead());
        arguments := arguments + [e.value];
        more := Consume(Comma);
      }
      r := Some(arguments);
    }

    // ---------- declarations ----------

    method ValueType() returns (r: Option<Type>)
      requires Valid()
      modifies this
      ensures Valid() && Took(r, ParseType(old(Ahead())))
    {
      var t := Advance();
      match t
      case KwI64 => r := Some(I64);
      case KwBool => r := Some(Bool);
      case KwString => r := Some(String);
      case KwUnit => r := Some(Unit);
      case _ => r := None;
    }

    /** Move past the expected tokens, one after the other. */
    method ConsumeAll(expected: seq<Token>) returns (ok: bool)
      requires Valid() && Eof !in expected
      modifies this
      ensures Valid() && ok == (expected <= old(Ahead()))
      ensures ok ==> cursor == old(cursor) + |expected|
    {
      for k := 0 to |expected|
        invariant Valid() && cursor == old(cursor) + k
        invariant forall i :: 0 <= i < k ==> tokens[old(cursor) + i] == expected[i]
      {
        ok := Consume(expected[k]);
        if !ok {
          assert old(Ahead())[k] == tokens[old(cursor) + k];
          return;
        }
      }
      ok := true;
    }

    method InformationLabel() returns (r: Option<Option<Label>>)
      requires Valid()
      modifies this
      ensures Valid() && Took(r, ParseLabel(old(Ahead())))
    {
      ghost var start := Ahead();
      var flow := Consume(Identifier("flow"));
      if !flow {
        return Some(None);
      }
      LabelInSteps(start);
      r := LabelBody();
    }

    method LabelBody() returns (r: Option<Option<Label>>)
      requires Valid()
      modifies this
      ensures Valid() && Took(r, ParseLabelBody(old(Ahead())))
    {
      var begun := Consume(LeftBracket);
      if !begun {
        return None;
      }
      var class_ := Name();
      if class_.None? {
        return None;
      }
      if class_.value == "public" {
        var closed := Consume(RightBracket);
        return if closed then Some(Some(Public)) else None;
      }
      if class_.value != "secret" {
        return None;
      }
      r := SecretLabel(Ahead());
    }

    /** The rest of a secret label, after its class. */
    method SecretLabel(ghost ts: seq<Token>) returns (r: Option<Option<Label>>)
      requires Valid() && ts == Ahead()
      modifies this
      ensures Valid()
      ensures Took(r, ParseSecret(ts))
    {
      var tenantField := ConsumeAll([Comma, Identifier("tenant"), Colon]);
      if !tenantField {
        return None;
      }
      var tenant := Name();
      if tenant.None? {
        return None;
      }
      var purposeField := ConsumeAll([Comma, Identifier("purpose"), Colon]);
      if !purposeField {
        return None;
      }
      var purpose := Name();
      if purpose.None? {
        return None;
      }
      var closed := Consume(RightBracket);
      r := if closed then Some(Some(Secret(tenant.value, purpose.value))) else None;
    }

    method ParameterDeclaration() returns (r: Option<Parameter>)
      requires Valid()
      modifies this
      ensures Valid() && Took(r, ParseParameter(old(Ahead())))
    {
      var name := Name();
      if name.None? {
        return None;
      }
      var colon := Consume(Colon);
      if !colon {
        return None;
      }
      var ty := ValueType();
      if ty.None? {
        return None;
      }
      var information := InformationLabel();
      r := if information.None? then None else Some(Parameter(name.value, ty.value, information.value));
    }

    method ParameterList() returns (r: Option<seq<Parameter>>)
      requires Valid()
      modifies this
      ensures Valid() && Took(r, ParseParameterList(old(Ahead())))
    {
      var items: seq<Parameter> := [];
      ghost var whole := ParseParameterList(Ahead());
      PrefixedNothing(whole);
      var more := true;
      while more
        invariant Valid()
        invariant more ==> whole == Prefixed(items, ParseParameterList(Ahead()))
        invariant !more ==> whole == Parsed(items, Ahead())
        decreases |tokens| - cursor, more
      {
        var p := ParameterDeclaration();
        if p.None? {
          return None;
        }
        PrefixedStep(items, p.value, ParseParameterList(Ahead()[1..]), Ahead());
        items := items + [p.value];
        more := Consume(Comma);
      }
      r := Some(items);
    }

    method NameList() returns (r: Option<seq<string>>)
      requires Valid()
      modifies this
      ensures Valid() && Took(r, ParseNameList(old(Ahead())))
    {
      var items: seq<string> := [];
      ghost var whole := ParseNameList(Ahead());
      PrefixedNothing(whole);
      var more := true;
      while more
        invariant Valid()
        invariant more ==> whole == Prefixed(items, ParseNameList(Ahead()))
        invariant !more ==> whole == Parsed(items, Ahead())
        decreases |tokens| - cursor, more
      {
        ghost var here := Ahead();
        var name := Name();
        if name.None? {
          return None;
        }
        assert |here| >= 2 && here[2..] == here[1..][1..];
        PrefixedStep(items, name.value, ParseNameList(Ahead()[1..]), Ahead());
        items := items + [name.value];
        more := Consume(Comma);
      }
      r := Some(items);
    }

    method AuthorityDeclaration() returns (r: Option<Authority>)
      requires Valid()
      modifies this
      ensures Valid() && Took(r, ParseAuthority(old(Ahead())))
    {
      var name := Name();
      if name.None? {
        return None;
      }
      var colon := Consume(Colon);
      if !colon {
        return None;
      }
      var effect := Name();
      r := if effect.None? then None else Some(Authority(name.value, effect.value));
    }

    /** One authority slot, and whether another one follows. */
    method NextAuthority(items: seq<Authority>, ghost whole: Parsed<seq<Authority>>) returns (r: Option<seq<Authority>>, more: bool)
      requires Valid() && whole == Prefixed(items, ParseAuthorityList(Ahead()))
      modifies this
      ensures Valid() && (r.None? ==> whole.Rejected?)
      ensures r.Some? ==> cursor > old(cursor)
      ensures r.Some? && more ==> whole == Prefixed(r.value, ParseAuthorityList(Ahead()))
      ensures r.Some? && !more ==> whole == Parsed(r.value, Ahead())
    {
      AuthorityListNext(items, Ahead(), whole);
      var a := AuthorityDeclaration();
      if a.None? {
        return None, false;
      }
      more := Consume(Comma);
      r := Some(items + [a.value]);
    }

    method AuthorityList() returns (r: Option<seq<Authority>>)
      requires Valid()
      modifies this
      ensures Valid() && Took(r, ParseAuthorityList(old(Ahead())))
    {
      r := Some([]);
      ghost var whole := ParseAuthorityList(Ahead());
      PrefixedNothing(whole);
      var more := true;
      while more
        invariant Valid() && r.Some?
        invariant more ==> whole == Prefixed(r.value, ParseAuthorityList(Ahead()))
        invariant !more ==> whole == Parsed(r.value, Ahead())
        decreases |tokens| - cursor, more
      {
        r, more := NextAuthority(r.value, whole);
        if r.None? {
          return;
        }
      }
    }

    method Parameters() returns (r: Option<seq<Parameter>>)
      requires Valid()
      modifies this
      ensures Valid() && Took(r, ParseParameters(old(Ahead())))
    {
      var begun := Consume(LeftParen);
      if !begun {
        return None;
      }
      var items: Option<seq<Parameter>> := Some([]);
      if tokens[cursor] != RightParen {
        items := ParameterList();
        if items.None? {
          return None;
        }
      }
      var closed := Consume(RightParen);
      r := if closed then items else None;
    }

    method EffectRow() returns (r: Option<seq<string>>)
      requires Valid()
      modifies this
      ensures Valid() && Took(r, ParseEffects(old(Ahead())))
    {
      var begun := Consume(LeftBracket);
      if !begun {
        return None;
      }
      var items: Option<seq<string>> := Some([]);
      if tokens[cursor] != RightBracket {
        items := NameList();
        if items.None? {
          return None;
        }
      }
      var closed := Consume(RightBracket);
      r := if closed then items else None;
    }

    method AuthorityParameters() returns (r: Option<Option<seq<Authority>>>)
      requires Valid()
      modifies this
      ensures Valid() && Took(r, ParseAuthorities(old(Ahead())))
    {
      var word := Consume(Identifier("authorities"));
      if !word {
        return Some(None);
      }
      var begun := Consume(LeftBracket);
      if !begun {
        return None;
      }
      var items: Option<seq<Authority>> := Some([]);
      if tokens[cursor] != RightBracket {
        items := AuthorityList();
        if items.None? {
          return None;
        }
      }
      var closed := Consume(RightBracket);
      r := if closed then Some(items) else None;
    }

    // ---------- statements ----------

    /** A full expression and the semicolon after it. */
    method Terminated() returns (r: Option<Expression<i64>>)
      requires Valid()
      modifies this
      ensures Valid() && Took(r, ParseTerminated(old(Ahead())))
    {
      var e := Expression();
      if e.None? {
        return None;
      }
      var closed := Consume(Semicolon);
      r := if closed then e else None;
    }

    method Let() returns (r: Option<Statement<i64>>)
      requires Valid()
      modifies this
      ensures Valid() && Took(r, ParseLet(old(Ahead())))
    {
      var word := Consume(KwLet);
      if !word {
        return None;
      }
      var name := Name();
      if name.None? {
        return None;
      }
      var colon := Consume(Colon);
      if !colon {
        return None;
      }
      var ty := ValueType();
      if ty.None? {
        return None;
      }
      var information := InformationLabel();
      if information.None? {
        return None;
      }
      var equals := Consume(Assign);
      if !equals {
        return None;
      }
      var value := Terminated();
      r := if value.None? then None else Some(LetStatement(name.value, ty.value, information.value, value.value));
    }

    method ReturnValue() returns (r: Option<Statement<i64>>)
      requires Valid()
      modifies this
      ensures Valid() && Took(r, ParseReturn(old(Ahead())))
    {
      var word := Consume(KwReturn);
      if !word {
        return None;
      }
      var empty := Consume(Semicolon);
      if empty {
        return Some(ReturnStatement(None));
      }
      var value := Terminated();
      r := if value.None? then None else Some(ReturnStatement(Some(value.value)));
    }

    method Using() returns (r: Option<Option<string>>)
      requires Valid()
      modifies this
      ensures Valid() && Took(r, ParseUsing(old(Ahead())))
    {
      var word := Consume(Identifier("using"));
      if !word {
        return Some(None);
      }
      var name := Name();
      r := if name.None? then None else Some(Some(name.value));
    }

    method EffectRequest() returns (r: Option<Statement<i64>>)
      requires Valid()
      modifies this
      ensures Valid() && Took(r, ParseRequest(old(Ahead())))
    {
      var word := Consume(KwRequest);
      if !word {
        return None;
      }
      var effect := Name();
      if effect.None? {
        return None;
      }
      var arguments := Arguments();
      if arguments.None? {
        return None;
      }
      var authority := Using();
      if authority.None? {
        return None;
      }
      var information := InformationLabel();
      if information.None? {
        return None;
      }
      var closed := Consume(Semicolon);
      r := if closed then Some(RequestStatement(effect.value, authority.value, information.value, arguments.value)) else None;
    }

    method AnyStatement() returns (r: Option<Statement<i64>>)
      requires Valid()
      modifies this
      ensures Valid() && Took(r, ParseStatement(old(Ahead())))
    {
      if tokens[cursor] == KwLet {
        r := Let();
      } else if tokens[cursor] == KwReturn {
        r := ReturnValue();
      } else if tokens[cursor] == KwRequest {
        r := EffectRequest();
      } else {
        r := ExpressionStatementHere();
      }
    }

    method ExpressionStatementHere() returns (r: Option<Statement<i64>>)
      requires Valid() && Current() != KwLet && Current() != KwReturn && Current() != KwRequest
      modifies this
      ensures Valid() && Took(r, ParseStatement(old(Ahead())))
    {
      StatementIsExpression(Ahead());
      var e := Terminated();
      r := if e.None? then None else Some(ExpressionStatement(e.value));
    }

    method Block() returns (r: Option<seq<Statement<i64>>>)
      requires Valid()
      modifies this
      ensures Valid() && Took(r, ParseBlock(old(Ahead())))
    {
      var begun := Consume(LeftBrace);
      if !begun {
        return None;
      }
      var body: seq<Statement<i64>> := [];
      ghost var whole := ParseStatements(Ahead());
      PrefixedNothing(whole);
      while tokens[cursor] != RightBrace
        invariant Valid() && whole == Prefixed(body, ParseStatements(Ahead()))
        decreases |tokens| - cursor
      {
        if tokens[cursor] == Eof {
          return None;
        }
        var s := AnyStatement();
        if s.None? {
          return None;
        }
        PrefixedStep(body, s.value, ParseStatements(Ahead()), []);
        body := body + [s.value];
      }
      var _ := Advance();
      assert body + [] == body;
      r := Some(body);
    }

    // ---------- functions and programs ----------

    method FunctionSignature() returns (r: Option<Signature>)
      requires Valid()
      modifies this
      ensures Valid() && Took(r, ParseSignature(old(Ahead())))
    {
      var word := Consume(KwFn);
      if !word {
        return None;
      }
      var name := Name();
      if name.None? {
        return None;
      }
      var parameters := Parameters();
      if parameters.None? {
        return None;
      }
      var arrow := Consume(Arrow);
      if !arrow {
        return None;
      }
      var ty := ValueType();
      if ty.None? {
        return None;
      }
      var information := InformationLabel();
      r := if information.None? then None else Some(Signature(name.value, parameters.value, ty.value, information.value));
    }

    method FunctionRows() returns (r: Option<Rows>)
      requires Valid()
      modifies this
      ensures Valid() && Took(r, ParseRows(old(Ahead())))
    {
      var word := Consume(KwEffects);
      if !word {
        return None;
      }
      var effects := EffectRow();
      if effects.None? {
        return None;
      }
      var authorities := AuthorityParameters();
      r := if authorities.None? then None else Some(Rows(effects.value, authorities.value));
    }

    method FunctionDeclaration() returns (r: Option<Function<i64>>)
      requires Valid()
      modifies this
      ensures Valid() && Took(r, ParseFunction(old(Ahead())))
    {
      var s := FunctionSignature();
      if s.None? {
        return None;
      }
      var rows := FunctionRows();
      if rows.None? {
        return None;
      }
      var body := Block();
      if body.None? {
        return None;
      }
      r := Some(Function(s.value.name, s.value.parameters, s.value.returnType, s.value.returnInformation,
                         rows.value.effects, rows.value.authorities, body.value));
    }

    method Functions() returns (r: Option<seq<Function<i64>>>)
      requires Valid()
      modifies this
      ensures Valid() && Took(r, ParseFunctions(old(Ahead())))
    {
      var functions: seq<Function<i64>> := [];
      ghost var whole := ParseFunctions(Ahead());
      PrefixedNothing(whole);
      while tokens[cursor] != Eof
        invariant Valid() && whole == Prefixed(functions, ParseFunctions(Ahead()))
        decreases |tokens| - cursor
      {
        var f := FunctionDeclaration();
        if f.None? {
          return None;
        }
        PrefixedStep(functions, f.value, ParseFunctions(Ahead()), []);
        functions := functions + [f.value];
      }
      assert functions + [] == functions;
      r := Some(functions);
    }

    method Module() returns (r: Option<Program>)
      requires Valid()
      modifies this
      ensures Valid() && r == ParseModule(old(Ahead()))
    {
      var word := Consume(KwModule);
      if !word {
        return None;
      }
      var name := Name();
      if name.None? {
        return None;
      }
      var flow := Consume(Identifier("flow"));
      var closed := Consume(Semicolon);
      if !closed {
        return None;
      }
      var functions := Functions();
      if functions.None? || functions.value == [] {
        return None;
      }
      r := Some(Program(flow, name.value, functions.value));
    }
  }

  /** Lex and parse a source text. */
  method Parse(source: string) returns (r: Option<Program>)
    ensures r == ParseSource(source)
  {
    var lexer := new Lexer.Lexer(source);
    var tokens := lexer.Run();
    if tokens.None? {
      return None;
    }
    OneEndMarker(source);
    var parser := new Parser(tokens.value);
    r := parser.Module();
  }

  lemma OneEndMarker(source: string)
    requires Lex(source).Some?
    ensures var ts := Lex(source).value;
            && ts != [] && ts[|ts| - 1] == Eof && forall i :: 0 <= i < |ts| - 1 ==> ts[i] != Eof
  {
    ScannedAreSpellable(source);
    var ts := Lex(source).value;
    forall i | 0 <= i < |ts| - 1 ensures ts[i] != Eof {
      assert Spellable(Scan(source).value[i]);
    }
  }

  function ParseAuthority(ts: seq<Token>): Parsed<Authority> {
    if !Head(ts).Identifier? || Head(ts[1..]) != Colon || !Head(ts[2..]).Identifier? then Rejected
    else Parsed(Authority(ts[0].name, ts[2].name), ts[3..])
  }

  lemma StatementIsExpression(ts: seq<Token>)
    requires Head(ts) != KwLet && Head(ts) != KwReturn && Head(ts) != KwRequest
    ensures ParseStatement(ts) ==
            match ParseTerminated(ts)
            case Rejected => Rejected
            case Parsed(e, rest) => Parsed(ExpressionStatement(e), rest)
  {
  }

  lemma AuthorityListInSteps(ts: seq<Token>)
    ensures ParseAuthorityList(ts) ==
            match ParseAuthority(ts)
            case Rejected => Rejected
            case Parsed(first, rest) =>
              if Head(rest) != Comma then Parsed([first], rest)
              else
                match ParseAuthorityList(rest[1..])
                case Rejected => Rejected
                case Parsed(more, rest') => Parsed([first] + more, rest')
  {
    if |ts| >= 4 {
      assert ts[3..][1..] == ts[4..];
    }
  }

  lemma AuthorityListNext(items: seq<Authority>, ts: seq<Token>, whole: Parsed<seq<Authority>>)
    requires whole == Prefixed(items, ParseAuthorityList(ts))
    ensures match ParseAuthority(ts)
            case Rejected => whole.Rejected?
            case Parsed(first, rest) =>
              if Head(rest) != Comma then whole == Parsed(items + [first], rest)
              else whole == Prefixed(items + [first], ParseAuthorityList(rest[1..]))
  {
    AuthorityListInSteps(ts);
    var first := ParseAuthority(ts);
    if first.Parsed? && Head(first.rest) == Comma {
      PrefixedStep(items, first.value, ParseAuthorityList(first.rest[1..]), first.rest);
    }
  }

  /** A full expression and a semicolon. */
  function ParseTerminated(ts: seq<Token>): Parsed<Expression<i64>> {
    match ParseLevel(1, ts)
    case Rejected => Rejected
    case Parsed(e, rest) => if Head(rest) != Semicolon then Rejected else Parsed(e, rest[1..])
  }

  /** The part of an information label that follows flow [secret. */
  function ParseSecret(ts: seq<Token>): Parsed<Option<Label>> {
    if |ts| >= 9 && ts[..3] == [Comma, Identifier("tenant"), Colon] && ts[3].Identifier?
       && ts[4..7] == [Comma, Identifier("purpose"), Colon] && ts[7].Identifier? && ts[8] == RightBracket
    then Parsed(Some(Secret(ts[3].name, ts[7].name)), ts[9..])
    else Rejected
  }

  /** An information label after flow, step by step. */
  function ParseLabelBody(ts: seq<Token>): Parsed<Option<Label>> {
    if Head(ts) != LeftBracket || !Head(ts[1..]).Identifier? then Rejected
    else if ts[1].name == "public" then
      if Head(ts[2..]) == RightBracket then Parsed(Some(Public), ts[3..]) else Rejected
    else if ts[1].name == "secret" then ParseSecret(ts[2..])
    else Rejected
  }

  lemma PublicLabel(ts: seq<Token>)
    requires Head(ts) == Identifier("flow")
    ensures [LeftBracket, Identifier("public"), RightBracket] <= ts[1..] <==>
            |ts| >= 4 && ts[1] == LeftBracket && ts[2] == Identifier("public") && ts[3] == RightBracket
  {
    if [LeftBracket, Identifier("public"), RightBracket] <= ts[1..] {
      assert ts[1..][0] == ts[1] && ts[1..][1] == ts[2] && ts[1..][2] == ts[3];
    }
  }

  lemma SecretLabelShape(ts: seq<Token>)
    requires |ts| >= 12
    ensures ts[1..6] == [LeftBracket, Identifier("secret"), Comma, Identifier("tenant"), Colon] <==>
            ts[1] == LeftBracket && ts[2] == Identifier("secret") && ts[3..][..3] == [Comma, Identifier("tenant"), Colon]
    ensures ts[7..10] == ts[3..][4..7] && ts[6] == ts[3..][3] && ts[10] == ts[3..][7] && ts[11] == ts[3..][8]
    ensures ts[12..] == ts[3..][9..]
  {
    var a, b := ts[1..6], ts[3..][..3];
    var field := [Comma, Identifier("tenant"), Colon];
    var class_ := [LeftBracket, Identifier("secret")];
    assert a == [ts[1], ts[2]] + b && class_ + field == [LeftBracket, Identifier("secret"), Comma, Identifier("tenant"), Colon];
    if a == class_ + field {
      assert b == a[2..] == field && a[0] == class_[0] && a[1] == class_[1];
    }
  }

  lemma LabelInSteps(ts: seq<Token>)
    requires Head(ts) == Identifier("flow")
    ensures ParseLabel(ts) == ParseLabelBody(ts[1..])
  {
    PublicLabel(ts);
    assert "public"[0] != "secret"[0];
    assert |ts| >= 2 ==> ts[1..][1..] == ts[2..];
    assert |ts| >= 3 ==> ts[1..][2..] == ts[3..];
    assert |ts| >= 4 ==> ts[1..][3..] == ts[4..];
    if |ts| >= 12 {
      SecretLabelShape(ts);
    }
  }

  /** Items read before, followed by the items still to be read. */
  ghost function Prefixed<T>(done: seq<T>, more: Parsed<seq<T>>): Parsed<seq<T>> {
    match more
    case Rejected => Rejected
    case Parsed(items, rest) => Parsed(done + items, rest)
  }

  lemma PrefixedNothing<T>(more: Parsed<seq<T>>)
    ensures Prefixed([], more) == more
  {
    if more.Parsed? {
      assert [] + more.value == more.value;
    }
  }

  lemma PrefixedStep<T>(done: seq<T>, x: T, more: Parsed<seq<T>>, rest: seq<Token>)
    ensures Prefixed(done, Parsed([x], rest)) == Parsed(done + [x], rest)
    ensures more.Parsed? ==> Prefixed(done, Parsed([x] + more.value, more.rest)) == Prefixed(done + [x], more)
  {
    if more.Parsed? {
      assert done + ([x] + more.value) == done + [x] + more.value;
    }
  }
}
