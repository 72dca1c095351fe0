// What the parser delivers: a printable program, whose canonical layout has no
// more tokens than the text it was read from.
module ParsedPrograms {
  import opened Prelude
  import opened Ast
  import opened Tokens
  import opened Layout
  import opened Grammar
  import opened Printer
  import opened Spacing

  /** Spellable tokens, closed by the one end marker. */
  predicate Good(ts: seq<Token>) {
    && ts != [] && ts[|ts| - 1] == Eof
    && forall i :: 0 <= i < |ts| - 1 ==> Spellable(ts[i])
  }

  /** Reading ts down to rest pays for a layout of n tokens; the end marker is never read. */
  predicate Pays(ts: seq<Token>, rest: seq<Token>, n: nat) {
    Good(rest) && n + |rest| <= |ts|
  }

  lemma GoodDrop(ts: seq<Token>, k: nat)
    requires Good(ts) && k <= |ts| && (k > 0 ==> ts[k - 1] != Eof)
    ensures Good(ts[k..])
  {
  }

  lemma GoodName(ts: seq<Token>, k: nat)
    requires Good(ts) && k < |ts| && ts[k] != Eof
    ensures Spellable(ts[k]) && (ts[k].Identifier? ==> IsName(ts[k].name))
  {
  }

  // ---------- expressions ----------

  function Size(e: Expression<i64>, parent: nat): nat {
    |ExpressionPieces(e, parent, "")|
  }

  lemma {:induction false} LeadKeepsSize(e: Expression<i64>, parent: nat, lead: string)
    ensures |ExpressionPieces(e, parent, lead)| == Size(e, parent)
    ensures |BarePieces(e, lead)| == |BarePieces(e, "")|
    decreases e
  {
    if e.Binary? {
      LeadKeepsSize(e.left, OperatorLevel(e.binop), lead);
    }
  }

  /** A tighter context never needs fewer tokens, and at most a pair of parentheses more. */
  lemma TighterIsLarger(e: Expression<i64>, a: nat, b: nat)
    requires a <= b
    ensures Size(e, a) <= Size(e, b) <= Size(e, a) + 2
  {
  }

  lemma BinarySize(op: BinaryOperator, left: Expression<i64>, right: Expression<i64>)
    ensures var level := OperatorLevel(op);
            Size(Binary(op, left, right), level) == Size(left, level) + 1 + Size(right, level + 1)
  {
    var e, level := Binary(op, left, right), OperatorLevel(op);
    LeadKeepsSize(right, level + 1, " ");
    assert BarePieces(e, "") ==
           ExpressionPieces(left, level, "") + [Spaced(OperatorToken(op))] + ExpressionPieces(right, level + 1, " ");
  }

  lemma UnarySize(op: UnaryOperator, operand: Expression<i64>)
    ensures Size(Unary(op, operand), UNARY_LEVEL) == 1 + Size(operand, UNARY_LEVEL)
  {
    assert BarePieces(Unary(op, operand), "") == [Close(UnaryToken(op))] + ExpressionPieces(operand, UNARY_LEVEL, "");
  }

  lemma CallSize(callee: string, arguments: seq<Expression<i64>>)
    ensures Size(Call(callee, arguments), PRIMARY_LEVEL) == 3 + ArgumentsSize(arguments)
  {
    assert BarePieces(Call(callee, arguments), "") ==
           [Close(Identifier(callee)), Close(LeftParen)] + ArgumentPieces(arguments, "") + [Close(RightParen)];
  }

  lemma LeafSize(e: Expression<i64>)
    requires !e.Unary? && !e.Binary? && !e.Call?
    ensures Size(e, PRIMARY_LEVEL) == 1
  {
    assert BarePieces(e, "") == [Close(LeafToken(e))];
  }

  function ArgumentsSize(es: seq<Expression<i64>>): nat {
    |ArgumentPieces(es, "")|
  }

  lemma {:induction false} ArgumentsLead(es: seq<Expression<i64>>, lead: string)
    ensures |ArgumentPieces(es, lead)| == ArgumentsSize(es)
  {
    if es != [] {
      LeadKeepsSize(es[0], 0, lead);
    }
  }

  lemma ArgumentsSizeStep(e: Expression<i64>, more: seq<Expression<i64>>)
    requires more != []
    ensures ArgumentsSize([e] + more) == Size(e, 0) + 1 + ArgumentsSize(more)
  {
    var es := [e] + more;
    assert es[1..] == more;
    ArgumentsLead(more, " ");
  }

  ghost predicate LevelPays(level: nat, ts: seq<Token>)
    requires 1 <= level <= PRIMARY_LEVEL
  {
    var r := ParseLevel(level, ts);
    r.Parsed? ==> PrintableExpression(r.value) && Pays(ts, r.rest, Size(r.value, level))
  }

  lemma {:induction false} ParsedLevel(level: nat, ts: seq<Token>)
    requires 1 <= level <= PRIMARY_LEVEL && Good(ts)
    ensures LevelPays(level, ts)
    decreases |ts|, 10 - level
  {
    if level == PRIMARY_LEVEL {
      ParsedPrimary(ts);
    } else if level == UNARY_LEVEL {
      ParsedUnary(ts);
    } else {
      ParsedLevel(level + 1, ts);
      var first := ParseLevel(level + 1, ts);
      if first.Parsed? {
        TighterIsLarger(first.value, level, level + 1);
        ParsedOperators(level, first.value, first.rest);
      }
    }
  }

  lemma {:induction false} ParsedUnary(ts: seq<Token>)
    requires Good(ts)
    ensures LevelPays(UNARY_LEVEL, ts)
    decreases |ts|, 2
  {
    if Head(ts) == Dash || Head(ts) == Exclamation {
      GoodDrop(ts, 1);
      ParsedLevel(UNARY_LEVEL, ts[1..]);
      var operand := ParseLevel(UNARY_LEVEL, ts[1..]);
      if operand.Parsed? {
        UnarySize(if Head(ts) == Dash then Minus else Bang, operand.value);
      }
    } else {
      ParsedPrimary(ts);
      var r := ParseLevel(PRIMARY_LEVEL, ts);
      if r.Parsed? {
        TighterIsLarger(r.value, UNARY_LEVEL, PRIMARY_LEVEL);
      }
    }
  }

  lemma {:induction false} ParsedOperators(level: nat, left: Expression<i64>, ts: seq<Token>)
    requires 1 <= level < UNARY_LEVEL && Good(ts) && PrintableExpression(left)
    ensures var r := ParseOperators(level, left, ts);
            r.Parsed? ==> PrintableExpression(r.value) && Good(r.rest) && Size(r.value, level) + |r.rest| <= Size(left, level) + |ts|
    decreases |ts|, 0
  {
    var op := OperatorAt(level, Head(ts));
    if op.Some? {
      GoodDrop(ts, 1);
      ParsedLevel(level + 1, ts[1..]);
      var right := ParseLevel(level + 1, ts[1..]);
      if right.Parsed? {
        OperatorKeepsLevel(level, Head(ts));
        BinarySize(op.value, left, right.value);
        ParsedOperators(level, Binary(op.value, left, right.value), right.rest);
      }
    }
  }

  lemma OperatorKeepsLevel(level: nat, t: Token)
    requires OperatorAt(level, t).Some?
    ensures OperatorLevel(OperatorAt(level, t).value) == level
  {
  }

  lemma {:induction false} ParsedPrimary(ts: seq<Token>)
    requires Good(ts)
    ensures LevelPays(PRIMARY_LEVEL, ts)
    decreases |ts|, 1
  {
    if Head(ts) != Eof {
      assert Spellable(Head(ts));
      GoodDrop(ts, 1);
      if Head(ts) == LeftParen {
        ParsedParenthesis(ts);
      } else if Head(ts).Identifier? && Head(ts[1..]) == LeftParen {
        ParsedCall(ts);
      } else if ParsePrimary(ts).Parsed? {
        LeafSize(ParsePrimary(ts).value);
      }
    }
  }

  lemma {:induction false} ParsedParenthesis(ts: seq<Token>)
    requires ts != [] && Good(ts) && Good(ts[1..]) && Head(ts) == LeftParen
    ensures LevelPays(PRIMARY_LEVEL, ts)
    decreases |ts|, 0, 1
  {
    ParsedLevel(1, ts[1..]);
    var r := ParseLevel(1, ts[1..]);
    if r.Parsed? && Head(r.rest) == RightParen {
      TighterIsLarger(r.value, 1, PRIMARY_LEVEL);
      GoodDrop(r.rest, 1);
    }
  }

  lemma {:induction false} ParsedCall(ts: seq<Token>)
    requires ts != [] && Good(ts) && Good(ts[1..]) && Head(ts).Identifier? && Head(ts[1..]) == LeftParen
    ensures LevelPays(PRIMARY_LEVEL, ts)
    decreases |ts|, 0, 1
  {
    ParsedArguments(ts[1..]);
    var r := ParseArguments(ts[1..]);
    if r.Parsed? {
      assert Spellable(ts[0]);
      CallSize(ts[0].name, r.value);
    }
  }

  lemma {:induction false} ParsedArguments(ts: seq<Token>)
    requires Good(ts)
    ensures var r := ParseArguments(ts);
            r.Parsed? ==> PrintableExpressions(r.value) && Pays(ts, r.rest, 2 + ArgumentsSize(r.value))
    decreases |ts|, 0
  {
    if Head(ts) == LeftParen {
      GoodDrop(ts, 1);
      if Head(ts[1..]) == RightParen {
        GoodDrop(ts, 2);
      } else {
        ParsedArgumentList(ts[1..]);
        var r := ParseArgumentList(ts[1..]);
        if r.Parsed? && Head(r.rest) == RightParen {
          GoodDrop(r.rest, 1);
        }
      }
    }
  }

  lemma {:induction false} ParsedArgumentList(ts: seq<Token>)
    requires Good(ts)
    ensures var r := ParseArgumentList(ts);
            r.Parsed? ==> r.value != [] && PrintableExpressions(r.value) && Pays(ts, r.rest, ArgumentsSize(r.value))
    decreases |ts|, 11
  {
    ParsedLevel(1, ts);
    var first := ParseLevel(1, ts);
    if first.Parsed? {
      TighterIsLarger(first.value, 0, 1);
      if Head(first.rest) == Comma {
        GoodDrop(first.rest, 1);
        ParsedArgumentList(first.rest[1..]);
        var more := ParseArgumentList(first.rest[1..]);
        if more.Parsed? {
          ArgumentsSizeStep(first.value, more.value);
          PrintableStep(first.value, more.value);
        }
      } else {
        PrintableStep(first.value, []);
        assert [first.value] + [] == [first.value];
      }
    }
  }

  lemma PrintableStep(e: Expression<i64>, more: seq<Expression<i64>>)
    requires PrintableExpression(e) && PrintableExpressions(more)
    ensures PrintableExpressions([e] + more)
  {
    assert ([e] + more)[1..] == more;
  }

  lemma ParsedExpression(ts: seq<Token>)
    requires Good(ts)
    ensures var r := ParseLevel(1, ts);
            r.Parsed? ==> PrintableExpression(r.value) && Pays(ts, r.rest, Size(r.value, 0))
  {
    ParsedLevel(1, ts);
    var r := ParseLevel(1, ts);
    if r.Parsed? {
      TighterIsLarger(r.value, 0, 1);
    }
  }

  // ---------- declarations ----------

  lemma ParsedPublic(ts: seq<Token>)
    requires Good(ts) && [LeftBracket, Identifier("public"), RightBracket] <= ts[1..]
    ensures Pays(ts, ts[4..], 4)
  {
    assert ts[1..][2] == RightBracket;
    GoodDrop(ts, 4);
  }

  lemma ParsedSecret(ts: seq<Token>)
    requires Good(ts) && |ts| >= 12 && ts[6].Identifier? && ts[10].Identifier? && ts[11] == RightBracket
    ensures Pays(ts, ts[12..], 12) && IsName(ts[6].name) && IsName(ts[10].name)
  {
    assert Spellable(ts[6]) && Spellable(ts[10]);
    GoodDrop(ts, 12);
  }

  lemma ParsedLabel(ts: seq<Token>)
    requires Good(ts)
    ensures var r := ParseLabel(ts);
            r.Parsed? ==> PrintableLabel(r.value) && Pays(ts, r.rest, |LabelPieces(r.value)|)
  {
    var r := ParseLabel(ts);
    if r.Parsed? && r.value.Some? {
      if r.value.value.Public? {
        ParsedPublic(ts);
      } else {
        ParsedSecret(ts);
      }
    }
  }

  lemma ParsedType(ts: seq<Token>)
    requires Good(ts)
    ensures var r := ParseType(ts);
            r.Parsed? ==> Pays(ts, r.rest, 1)
  {
  }

  lemma ParsedParameter(ts: seq<Token>)
    requires Good(ts)
    ensures var r := ParseParameter(ts);
            r.Parsed? ==> PrintableParameter(r.value) && Pays(ts, r.rest, |ParameterPieces(r.value, "")|)
  {
    if ParseParameter(ts).Parsed? {
      GoodDrop(ts, 2);
      ParsedType(ts[2..]);
      ParsedLabel(ParseType(ts[2..]).rest);
      assert Spellable(ts[0]);
    }
  }

  function ParameterListSize(ps: seq<Parameter>): nat {
    |ParameterListPieces(ps, "")|
  }

  lemma {:induction false} ParameterListLead(ps: seq<Parameter>, lead: string)
    ensures |ParameterListPieces(ps, lead)| == ParameterListSize(ps)
  {
  }

  lemma ParameterListSizeStep(p: Parameter, more: seq<Parameter>)
    requires more != []
    ensures ParameterListSize([p] + more) == |ParameterPieces(p, "")| + 1 + ParameterListSize(more)
    ensures PrintableParameter(p) && PrintableParameters(more) ==> PrintableParameters([p] + more)
  {
    assert ([p] + more)[1..] == more;
    ParameterListLead(more, " ");
  }

  predicate PrintableParameters(ps: seq<Parameter>) {
    forall i :: 0 <= i < |ps| ==> PrintableParameter(ps[i])
  }

  lemma {:induction false} ParsedParameterList(ts: seq<Token>)
    requires Good(ts)
    ensures var r := ParseParameterList(ts);
            r.Parsed? ==> r.value != [] && PrintableParameters(r.value) && Pays(ts, r.rest, ParameterListSize(r.value))
    decreases |ts|
  {
    hide ParseParameter, ParameterPieces, PrintableParameter;
    ParsedParameter(ts);
    var first := ParseParameter(ts);
    if first.Parsed? && Head(first.rest) == Comma {
      GoodDrop(first.rest, 1);
      ParsedParameterList(first.rest[1..]);
      var more := ParseParameterList(first.rest[1..]);
      if more.Parsed? {
        ParameterListSizeStep(first.value, more.value);
      }
    }
  }

  lemma ParsedParameters(ts: seq<Token>)
    requires Good(ts)
    ensures var r := ParseParameters(ts);
            r.Parsed? ==> PrintableParameters(r.value) && Pays(ts, r.rest, 2 + ParameterListSize(r.value))
  {
    if Head(ts) == LeftParen {
      GoodDrop(ts, 1);
      if Head(ts[1..]) == RightParen {
        GoodDrop(ts, 2);
      } else {
        ParsedParameterList(ts[1..]);
        var r := ParseParameterList(ts[1..]);
        if r.Parsed? && Head(r.rest) == RightParen {
          GoodDrop(r.rest, 1);
        }
      }
    }
  }

  function NameListSize(names: seq<string>): nat {
    |NameListPieces(names, "")|
  }

  lemma {:induction false} NameListSizeIs(names: seq<string>, lead: string)
    ensures |NameListPieces(names, lead)| == if names == [] then 0 else 2 * |names| - 1
    decreases |names|
  {
    if |names| > 1 {
      NameListSizeIs(names[1..], " ");
    }
  }

  predicate AllNames(names: seq<string>) {
    forall i :: 0 <= i < |names| ==> IsName(names[i])
  }

  lemma {:induction false} ParsedNameList(ts: seq<Token>)
    requires Good(ts)
    ensures var r := ParseNameList(ts);
            r.Parsed? ==> r.value != [] && AllNames(r.value) && Pays(ts, r.rest, NameListSize(r.value))
    decreases |ts|
  {
    var r := ParseNameList(ts);
    if r.Parsed? {
      assert Spellable(ts[0]);
      NameListSizeIs(r.value, "");
      GoodDrop(ts, 1);
      if Head(ts[1..]) == Comma {
        GoodDrop(ts, 2);
        ParsedNameList(ts[2..]);
        NameListSizeIs(ParseNameList(ts[2..]).value, "");
      }
    }
  }

  lemma ParsedEffects(ts: seq<Token>)
    requires Good(ts)
    ensures var r := ParseEffects(ts);
            r.Parsed? ==> AllNames(r.value) && Pays(ts, r.rest, 2 + NameListSize(r.value))
  {
    if Head(ts) == LeftBracket {
      GoodDrop(ts, 1);
      if Head(ts[1..]) == RightBracket {
        GoodDrop(ts, 2);
      } else {
        ParsedNameList(ts[1..]);
        var r := ParseNameList(ts[1..]);
        if r.Parsed? && Head(r.rest) == RightBracket {
          GoodDrop(r.rest, 1);
        }
      }
    }
  }

  predicate PrintableAuthorities(items: seq<Authority>) {
    forall i :: 0 <= i < |items| ==> PrintableAuthority(items[i])
  }

  lemma {:induction false} AuthorityListSizeIs(items: seq<Authority>, lead: string)
    ensures |AuthorityListPieces(items, lead)| == if items == [] then 0 else 4 * |items| - 1
    decreases |items|
  {
    if |items| > 1 {
      AuthorityListSizeIs(items[1..], " ");
    }
  }

  lemma {:induction false} ParsedAuthorityList(ts: seq<Token>)
    requires Good(ts)
    ensures var r := ParseAuthorityList(ts);
            r.Parsed? ==> r.value != [] && PrintableAuthorities(r.value) && Pays(ts, r.rest, 4 * |r.value| - 1)
    decreases |ts|
  {
    var r := ParseAuthorityList(ts);
    if r.Parsed? {
      assert Spellable(ts[0]) && Spellable(ts[2]);
      GoodDrop(ts, 3);
      if Head(ts[3..]) == Comma {
        GoodDrop(ts, 4);
        ParsedAuthorityList(ts[4..]);
      }
    }
  }

  lemma ParsedAuthorities(ts: seq<Token>)
    requires Good(ts)
    ensures var r := ParseAuthorities(ts);
            r.Parsed? ==>
              && (r.value.Some? ==> PrintableAuthorities(r.value.value))
              && Pays(ts, r.rest, |AuthoritiesPieces(r.value)|)
  {
    var r := ParseAuthorities(ts);
    if r.Parsed? && r.value.Some? {
      GoodDrop(ts, 2);
      if Head(ts[2..]) == RightBracket {
        GoodDrop(ts, 3);
      } else {
        ParsedAuthorityList(ts[2..]);
        GoodDrop(ParseAuthorityList(ts[2..]).rest, 1);
      }
      AuthoritiesSize(r.value.value);
    }
  }

  lemma AuthoritiesSize(items: seq<Authority>)
    ensures |AuthoritiesPieces(Some(items))| == 3 + if items == [] then 0 else 4 * |items| - 1
  {
    AuthorityListSizeIs(items, "");
  }

  // ---------- statements ----------

  function StatementSize(s: Statement<i64>): nat {
    |StatementPieces(s, "")|
  }

  lemma StatementLead(s: Statement<i64>, lead: string)
    ensures |StatementPieces(s, lead)| == StatementSize(s)
  {
    if s.ExpressionStatement? {
      LeadKeepsSize(s.expression, 0, lead);
    }
  }

  ghost predicate StatementPays(ts: seq<Token>, r: Parsed<Statement<i64>>) {
    r.Parsed? ==> PrintableStatement(r.value) && Pays(ts, r.rest, StatementSize(r.value))
  }

  lemma ParsedLet(ts: seq<Token>)
    requires Good(ts)
    ensures StatementPays(ts, ParseLet(ts))
  {
    hide Good, IsName, ParseLabel, ParseLevel, StatementSize;
    var r := ParseLet(ts);
    if r.Parsed? {
      LetSize(r.value);
      GoodName(ts, 1);
      GoodDrop(ts, 3);
      ParsedType(ts[3..]);
      var r1 := ParseType(ts[3..]).rest;
      ParsedLabel(r1);
      var r2 := ParseLabel(r1).rest;
      GoodDrop(r2, 1);
      ParsedExpression(r2[1..]);
      GoodDrop(ParseLevel(1, r2[1..]).rest, 1);
    }
  }

  lemma ParsedReturn(ts: seq<Token>)
    requires Good(ts)
    ensures StatementPays(ts, ParseReturn(ts))
  {
    hide Good, ParseLevel, StatementSize;
    var r := ParseReturn(ts);
    if r.Parsed? {
      ReturnSize(r.value.result);
      GoodDrop(ts, 1);
      if Head(ts[1..]) == Semicolon {
        GoodDrop(ts, 2);
      } else {
        ParsedExpression(ts[1..]);
        GoodDrop(ParseLevel(1, ts[1..]).rest, 1);
      }
    }
  }

  lemma ReturnSize(result: Option<Expression<i64>>)
    ensures StatementSize(ReturnStatement(result)) == 2 + if result.Some? then Size(result.value, 0) else 0
  {
    if result.Some? {
      LeadKeepsSize(result.value, 0, " ");
    }
  }

  lemma LetSize(s: Statement<i64>)
    requires s.LetStatement?
    ensures StatementSize(s) == 6 + |LabelPieces(s.information)| + Size(s.value, 0)
  {
    LeadKeepsSize(s.value, 0, " ");
  }

  lemma RequestSize(s: Statement<i64>)
    requires s.RequestStatement?
    ensures StatementSize(s) == 5 + ArgumentsSize(s.arguments) + |UsingPieces(s.authority)| + |LabelPieces(s.information)|
  {
  }

  lemma ParsedUsing(ts: seq<Token>)
    requires Good(ts)
    ensures var r := ParseUsing(ts);
            r.Parsed? ==> (r.value.Some? ==> IsName(r.value.value)) && Pays(ts, r.rest, |UsingPieces(r.value)|)
  {
    var r := ParseUsing(ts);
    if r.Parsed? && r.value.Some? {
      assert Spellable(ts[1]);
      GoodDrop(ts, 2);
    }
  }

  lemma ParsedRequest(ts: seq<Token>)
    requires Good(ts)
    ensures StatementPays(ts, ParseRequest(ts))
  {
    hide Good, IsName, ParseUsing, ParseLabel, StatementSize;
    var r := ParseRequest(ts);
    if r.Parsed? {
      RequestSize(r.value);
      GoodName(ts, 1);
      GoodDrop(ts, 2);
      ParsedArguments(ts[2..]);
      var r1 := ParseArguments(ts[2..]).rest;
      ParsedUsing(r1);
      var r2 := ParseUsing(r1).rest;
      ParsedLabel(r2);
      GoodDrop(ParseLabel(r2).rest, 1);
    }
  }

  lemma ParsedStatement(ts: seq<Token>)
    requires Good(ts)
    ensures StatementPays(ts, ParseStatement(ts))
  {
    hide ParseLet, ParseReturn, ParseRequest, ParseLevel;
    ParsedLet(ts);
    ParsedReturn(ts);
    ParsedRequest(ts);
    ParsedExpression(ts);
    var e := ParseLevel(1, ts);
    if e.Parsed? && Head(e.rest) == Semicolon {
      GoodDrop(e.rest, 1);
    }
  }

  predicate PrintableBody(body: seq<Statement<i64>>) {
    forall i :: 0 <= i < |body| ==> PrintableStatement(body[i])
  }

  lemma BodySizeStep(s: Statement<i64>, more: seq<Statement<i64>>)
    ensures |BodyPieces([s] + more)| == StatementSize(s) + |BodyPieces(more)|
    ensures PrintableStatement(s) && PrintableBody(more) ==> PrintableBody([s] + more)
  {
    assert ([s] + more)[1..] == more;
    StatementLead(s, "\n  ");
  }

  lemma {:induction false} ParsedStatements(ts: seq<Token>)
    requires Good(ts)
    ensures var r := ParseStatements(ts);
            r.Parsed? ==> PrintableBody(r.value) && Pays(ts, r.rest, |BodyPieces(r.value)| + 1)
    decreases |ts|
  {
    hide ParseStatement, PrintableStatement, StatementSize;
    if Head(ts) == RightBrace {
      GoodDrop(ts, 1);
    } else if Head(ts) != Eof {
      ParsedStatement(ts);
      var first := ParseStatement(ts);
      if first.Parsed? {
        ParsedStatements(first.rest);
        var more := ParseStatements(first.rest);
        if more.Parsed? {
          BodySizeStep(first.value, more.value);
        }
      }
    }
  }

  // ---------- functions and programs ----------

  lemma ParsedSignature(ts: seq<Token>)
    requires Good(ts)
    ensures var r := ParseSignature(ts);
            r.Parsed? ==>
              && IsName(r.value.name) && PrintableParameters(r.value.parameters) && PrintableLabel(r.value.returnInformation)
              && Pays(ts, r.rest, 6 + ParameterListSize(r.value.parameters) + |LabelPieces(r.value.returnInformation)|)
  {
    if ParseSignature(ts).Parsed? {
      assert Spellable(ts[1]);
      GoodDrop(ts, 2);
      ParsedParameters(ts[2..]);
      var r1 := ParseParameters(ts[2..]).rest;
      GoodDrop(r1, 1);
      ParsedType(r1[1..]);
      ParsedLabel(ParseType(r1[1..]).rest);
    }
  }

  lemma ParsedRows(ts: seq<Token>)
    requires Good(ts)
    ensures var r := ParseRows(ts);
            r.Parsed? ==>
              && AllNames(r.value.effects)
              && (r.value.authorities.Some? ==> PrintableAuthorities(r.value.authorities.value))
              && Pays(ts, r.rest, 3 + NameListSize(r.value.effects) + |AuthoritiesPieces(r.value.authorities)|)
  {
    if ParseRows(ts).Parsed? {
      GoodDrop(ts, 1);
      ParsedEffects(ts[1..]);
      ParsedAuthorities(ParseEffects(ts[1..]).rest);
    }
  }

  lemma FunctionSize(f: Function<i64>)
    ensures |FunctionPieces(f)| ==
            6 + ParameterListSize(f.parameters) + |LabelPieces(f.returnInformation)|
            + 3 + NameListSize(f.effects) + |AuthoritiesPieces(f.authorities)| + 2 + |BodyPieces(f.body)|
  {
  }

  lemma ParsedFunction(ts: seq<Token>)
    requires Good(ts)
    ensures var r := ParseFunction(ts);
            r.Parsed? ==> PrintableFunction(r.value) && Pays(ts, r.rest, |FunctionPieces(r.value)|)
  {
    hide Good, ParseSignature, ParseRows, ParseStatements, FunctionPieces;
    var r := ParseFunction(ts);
    if r.Parsed? {
      ParsedSignature(ts);
      var r1 := ParseSignature(ts).rest;
      ParsedRows(r1);
      var r2 := ParseRows(r1).rest;
      GoodDrop(r2, 1);
      ParsedStatements(r2[1..]);
      FunctionSize(r.value);
    }
  }

  predicate PrintableFunctions(fs: seq<Function<i64>>) {
    forall i :: 0 <= i < |fs| ==> PrintableFunction(fs[i])
  }

  lemma FunctionsSizeStep(f: Function<i64>, more: seq<Function<i64>>)
    ensures |FunctionsPieces([f] + more)| == |FunctionPieces(f)| + |FunctionsPieces(more)|
    ensures PrintableFunction(f) && PrintableFunctions(more) ==> PrintableFunctions([f] + more)
  {
    hide PrintableFunction, FunctionPieces;
    assert ([f] + more)[1..] == more;
  }

  lemma {:induction false} ParsedFunctions(ts: seq<Token>)
    requires Good(ts)
    ensures var r := ParseFunctions(ts);
            r.Parsed? ==> PrintableFunctions(r.value) && Pays(ts, r.rest, |FunctionsPieces(r.value)|)
    decreases |ts|
  {
    hide ParseFunction, PrintableFunction, FunctionPieces;
    if Head(ts) != Eof {
      ParsedFunction(ts);
      var first := ParseFunction(ts);
      if first.Parsed? {
        ParsedFunctions(first.rest);
        var more := ParseFunctions(first.rest);
        if more.Parsed? {
          FunctionsSizeStep(first.value, more.value);
        }
      }
    }
  }

  /** A parsed module is printable, and its layout has at most the tokens it was parsed from. */
  lemma ParsedModule(ts: seq<Token>)
    requires Good(ts) && ParseModule(ts).Some?
    ensures Printable(ParseModule(ts).value) && |ProgramPieces(ParseModule(ts).value)| < |ts|
  {
    var p := ParseModule(ts).value;
    assert Spellable(ts[1]);
    var r := if p.informationFlow then ts[3..] else ts[2..];
    GoodDrop(ts, if p.informationFlow then 3 else 2);
    GoodDrop(r, 1);
    ParsedFunctions(r[1..]);
    HeaderSize(p);
  }

  lemma HeaderSize(p: Program)
    ensures |ProgramPieces(p)| == (if p.informationFlow then 4 else 3) + |FunctionsPieces(p.functions)|
  {
  }
}
