// The grammar of JOAN as productions: which token lists denote an expression, a statement, a module.
// Expressions may have more parentheses than they need; everything else is written with exactly the
// tokens it is printed with. The parser accepts exactly these token lists.
module SyntaxGrammar {
  import opened Prelude
  import opened Ast
  import opened Tokens
  import opened Layout
  import opened Grammar
  import opened Printer
  import opened ExpressionRoundTrip
  import opened ProgramRoundTrip
  import opened ParsedPrograms
  import LexicalGrammar

  // ---------- expressions ----------

  /** The tokens denote the expression where a precedence of at least the level is needed. */
  ghost predicate IsExpression(level: nat, e: Expression<i64>, ts: seq<Token>)
    requires 1 <= level <= PRIMARY_LEVEL
    decreases |ts|, 10 - level
  {
    if level == PRIMARY_LEVEL then IsPrimary(e, ts)
    else if level == UNARY_LEVEL then
      || IsExpression(PRIMARY_LEVEL, e, ts)
      || (e.Unary? && ts != [] && ts[0] == UnaryToken(e.unop) && IsExpression(UNARY_LEVEL, e.operand, ts[1..]))
    else
      || IsExpression(level + 1, e, ts)
      || (e.Binary? && OperatorLevel(e.binop) == level
          && exists i :: 0 <= i < |ts| && ts[i] == OperatorToken(e.binop)
                         && IsExpression(level, e.left, ts[..i]) && IsExpression(level + 1, e.right, ts[i + 1..]))
  }

  /** A literal, a name, a call, or an expression in parentheses. */
  ghost predicate IsPrimary(e: Expression<i64>, ts: seq<Token>)
    decreases |ts|, 1
  {
    || (|ts| >= 2 && ts[0] == LeftParen && ts[|ts| - 1] == RightParen && IsExpression(1, e, ts[1..|ts| - 1]))
    || match e
       case Integer(n) => ts == [IntegerToken(n)]
       case Boolean(b) => ts == [if b then KwTrue else KwFalse]
       case Text(text) => ts == [TextToken(text)]
       case Variable(name) => ts == [Identifier(name)]
       case Call(callee, arguments) =>
         && |ts| >= 3 && ts[0] == Identifier(callee) && ts[1] == LeftParen && ts[|ts| - 1] == RightParen
         && AreArguments(arguments, ts[2..|ts| - 1])
       case Unary(_, _) => false
       case Binary(_, _, _) => false
  }

  /** Expressions with commas between them. */
  ghost predicate AreArguments(es: seq<Expression<i64>>, ts: seq<Token>)
    decreases |ts|, 11
  {
    if es == [] then ts == []
    else if |es| == 1 then IsExpression(1, es[0], ts)
    else
      exists i :: 0 <= i < |ts| && ts[i] == Comma && IsExpression(1, es[0], ts[..i]) && AreArguments(es[1..], ts[i + 1..])
  }

  // ---------- the parser reads what the productions allow ----------

  lemma {:induction false} PrimaryBegins(e: Expression<i64>, ts: seq<Token>)
    requires IsPrimary(e, ts)
    ensures ts != [] && ts[0] != Dash && ts[0] != Exclamation && ts[0] != RightParen
  {
  }

  lemma {:induction false} DerivedBegins(level: nat, e: Expression<i64>, ts: seq<Token>)
    requires 1 <= level <= PRIMARY_LEVEL && IsExpression(level, e, ts)
    ensures ts != [] && Begins(ts[0])
    decreases |ts|, 10 - level
  {
    if level == PRIMARY_LEVEL {
      hide AreArguments;
    } else if level == UNARY_LEVEL {
      if IsExpression(PRIMARY_LEVEL, e, ts) {
        DerivedBegins(PRIMARY_LEVEL, e, ts);
      }
    } else if IsExpression(level + 1, e, ts) {
      DerivedBegins(level + 1, e, ts);
    } else {
      var i :| 0 <= i < |ts| && ts[i] == OperatorToken(e.binop)
               && IsExpression(level, e.left, ts[..i]) && IsExpression(level + 1, e.right, ts[i + 1..]);
      DerivedBegins(level, e.left, ts[..i]);
    }
  }

  lemma Split(ts: seq<Token>, i: nat, rest: seq<Token>)
    requires i < |ts|
    ensures ts + rest == ts[..i] + ([ts[i]] + (ts[i + 1..] + rest))
    ensures ([ts[i]] + (ts[i + 1..] + rest))[1..] == ts[i + 1..] + rest
  {
  }

  lemma Inside(ts: seq<Token>, k: nat, rest: seq<Token>)
    requires k < |ts|
    ensures (ts + rest)[k..] == ts[k..|ts| - 1] + ([ts[|ts| - 1]] + rest)
    ensures ([ts[|ts| - 1]] + rest)[1..] == rest
  {
  }

  /** Tokens that denote an expression at a level are read as that expression at that level. */
  lemma {:induction false} DerivedIsRead(level: nat, e: Expression<i64>, ts: seq<Token>, rest: seq<Token>)
    requires 1 <= level <= PRIMARY_LEVEL && IsExpression(level, e, ts) && Follows(level, rest)
    ensures ParseLevel(level, ts + rest) == ReadAt(level, e, rest)
    decreases |ts|, 10 - level
  {
    if level == PRIMARY_LEVEL {
      PrimaryIsRead(e, ts, rest);
    } else if IsExpression(level + 1, e, ts) {
      DeeperIsRead(level, e, ts, rest);
    } else if level == UNARY_LEVEL {
      DerivedIsRead(UNARY_LEVEL, e.operand, ts[1..], rest);
      assert (ts + rest)[0] == ts[0] && (ts + rest)[1..] == ts[1..] + rest;
    } else {
      BinaryIsRead(level, e, ts, rest);
    }
  }

  lemma {:induction false} DeeperIsRead(level: nat, e: Expression<i64>, ts: seq<Token>, rest: seq<Token>)
    requires 1 <= level < PRIMARY_LEVEL && IsExpression(level + 1, e, ts) && Follows(level, rest)
    ensures ParseLevel(level, ts + rest) == ReadAt(level, e, rest)
    decreases |ts|, 10 - level, 0
  {
    DerivedIsRead(level + 1, e, ts, rest);
    NothingFollows(level + 1, e, rest);
    if level == UNARY_LEVEL {
      PrimaryBegins(e, ts);
      assert (ts + rest)[0] == ts[0];
    }
  }

  lemma {:induction false} BinaryIsRead(level: nat, e: Expression<i64>, ts: seq<Token>, rest: seq<Token>)
    requires 1 <= level < UNARY_LEVEL && IsExpression(level, e, ts) && !IsExpression(level + 1, e, ts) && Follows(level, rest)
    ensures ParseLevel(level, ts + rest) == ReadAt(level, e, rest)
    decreases |ts|, 10 - level, 0
  {
    var i :| 0 <= i < |ts| && ts[i] == OperatorToken(e.binop)
             && IsExpression(level, e.left, ts[..i]) && IsExpression(level + 1, e.right, ts[i + 1..]);
    hide IsExpression;
    var after := [ts[i]] + (ts[i + 1..] + rest);
    Split(ts, i, rest);
    OperatorsHaveLevels(level, ts[i], e.binop);
    DerivedIsRead(level, e.left, ts[..i], after);
    DerivedIsRead(level + 1, e.right, ts[i + 1..], rest);
    NothingFollows(level + 1, e.right, rest);
  }

  lemma {:induction false} PrimaryIsRead(e: Expression<i64>, ts: seq<Token>, rest: seq<Token>)
    requires IsPrimary(e, ts) && Head(rest) != LeftParen
    ensures ParsePrimary(ts + rest) == Parsed(e, rest)
    decreases |ts|, 1
  {
    if |ts| >= 2 && ts[0] == LeftParen {
      ParenthesisIsRead(e, ts, rest);
    } else if e.Call? {
      CallIsRead(e, ts, rest);
    } else {
      assert (ts + rest)[1..] == rest;
    }
  }

  lemma {:induction false} ParenthesisIsRead(e: Expression<i64>, ts: seq<Token>, rest: seq<Token>)
    requires IsPrimary(e, ts) && |ts| >= 2 && ts[0] == LeftParen
    ensures ParsePrimary(ts + rest) == Parsed(e, rest)
    decreases |ts|, 0
  {
    var inner, after := ts[1..|ts| - 1], [RightParen] + rest;
    assert ts[|ts| - 1] == RightParen && IsExpression(1, e, inner);
    Inside(ts, 1, rest);
    DerivedIsRead(1, e, inner, after);
    NothingFollows(1, e, after);
    assert (ts + rest)[0] == LeftParen;
  }

  lemma {:induction false} CallIsRead(e: Expression<i64>, ts: seq<Token>, rest: seq<Token>)
    requires IsPrimary(e, ts) && e.Call? && ts[0] != LeftParen
    ensures ParsePrimary(ts + rest) == Parsed(e, rest)
    decreases |ts|, 0
  {
    var list, after := ts[2..|ts| - 1], [RightParen] + rest;
    Inside(ts, 2, rest);
    assert (ts + rest)[0] == ts[0] && (ts + rest)[1..][0] == LeftParen && (ts + rest)[1..][1..] == (ts + rest)[2..];
    ArgumentsAreRead(e.arguments, list, rest);
    ArgumentsAfterParen(e.arguments, list, (ts + rest)[1..], rest);
  }

  lemma ArgumentsAfterParen(es: seq<Expression<i64>>, list: seq<Token>, ts: seq<Token>, rest: seq<Token>)
    requires Head(ts) == LeftParen && ts[1..] == list + ([RightParen] + rest) && AreArguments(es, list)
    requires es != [] ==> ParseArgumentList(list + ([RightParen] + rest)) == Parsed(es, [RightParen] + rest)
    ensures ParseArguments(ts) == Parsed(es, rest)
  {
    assert ([RightParen] + rest)[1..] == rest;
    if es == [] {
      assert list + ([RightParen] + rest) == [RightParen] + rest;
      assert ts[2..] == ts[1..][1..];
    } else {
      ArgumentsBegin(es, list);
      assert (list + ([RightParen] + rest))[0] == list[0];
    }
  }

  lemma ArgumentsBegin(es: seq<Expression<i64>>, ts: seq<Token>)
    requires es != [] && AreArguments(es, ts)
    ensures ts != [] && Begins(ts[0])
  {
    if |es| == 1 {
      DerivedBegins(1, es[0], ts);
    } else {
      var i :| 0 <= i < |ts| && ts[i] == Comma && IsExpression(1, es[0], ts[..i]) && AreArguments(es[1..], ts[i + 1..]);
      DerivedBegins(1, es[0], ts[..i]);
    }
  }

  lemma {:induction false} ArgumentsAreRead(es: seq<Expression<i64>>, ts: seq<Token>, rest: seq<Token>)
    requires AreArguments(es, ts)
    ensures es != [] ==> ParseArgumentList(ts + ([RightParen] + rest)) == Parsed(es, [RightParen] + rest)
    decreases |ts|, 11
  {
    var after := [RightParen] + rest;
    if |es| == 1 {
      DerivedIsRead(1, es[0], ts, after);
      NothingFollows(1, es[0], after);
      assert es == [es[0]];
    } else if es != [] {
      var i :| 0 <= i < |ts| && ts[i] == Comma && IsExpression(1, es[0], ts[..i]) && AreArguments(es[1..], ts[i + 1..]);
      hide IsExpression, AreArguments, ParseLevel, ParseArgumentList;
      var tail := ts[i + 1..] + after;
      Split(ts, i, after);
      DerivedIsRead(1, es[0], ts[..i], [Comma] + tail);
      NothingFollows(1, es[0], [Comma] + tail);
      ArgumentsAreRead(es[1..], ts[i + 1..], rest);
      ListStep(es[0], ts[..i], tail, es[1..], after);
      FirstAndRest(es);
    }
  }

  lemma ListStep(e: Expression<i64>, first: seq<Token>, tail: seq<Token>, es: seq<Expression<i64>>, after: seq<Token>)
    requires ParseLevel(1, first + ([Comma] + tail)) == Parsed(e, [Comma] + tail) && ParseArgumentList(tail) == Parsed(es, after)
    ensures ParseArgumentList(first + ([Comma] + tail)) == Parsed([e] + es, after)
  {
    hide ParseLevel;
    Front1(Comma, tail);
  }

  // ---------- the productions allow what the parser reads ----------

  lemma Deeper(level: nat, e: Expression<i64>, ts: seq<Token>)
    requires 1 <= level < PRIMARY_LEVEL && IsExpression(level + 1, e, ts)
    ensures IsExpression(level, e, ts)
  {
  }

  lemma BinaryIsDerived(level: nat, op: BinaryOperator, left: Expression<i64>, right: Expression<i64>, a: seq<Token>, t: Token, b: seq<Token>)
    requires 1 <= level < UNARY_LEVEL && OperatorAt(level, t) == Some(op)
    requires IsExpression(level, left, a) && IsExpression(level + 1, right, b)
    ensures IsExpression(level, Binary(op, left, right), a + [t] + b)
  {
    hide OperatorToken, OperatorLevel, OperatorAt, IsPrimary;
    var ts := a + [t] + b;
    OperatorAgrees(level, t, op);
    Around(a, t, b);
    assert ts[|a|] == OperatorToken(op) && IsExpression(level, left, ts[..|a|]) && IsExpression(level + 1, right, ts[|a| + 1..]);
  }

  lemma Around(a: seq<Token>, t: Token, b: seq<Token>)
    ensures var ts := a + [t] + b;
            ts[..|a|] == a && ts[|a| + 1..] == b && ts[|a|] == t
  {
  }

  lemma OperatorAgrees(level: nat, t: Token, op: BinaryOperator)
    requires OperatorAt(level, t) == Some(op)
    ensures OperatorLevel(op) == level && OperatorToken(op) == t
  {
  }

  lemma {:induction false} ReadIsDerived(level: nat, ts: seq<Token>) returns (front: seq<Token>)
    requires 1 <= level <= PRIMARY_LEVEL && ParseLevel(level, ts).Parsed?
    ensures var r := ParseLevel(level, ts);
            ts == front + r.rest && IsExpression(level, r.value, front)
    decreases |ts|, 10 - level
  {
    var r := ParseLevel(level, ts);
    if level == PRIMARY_LEVEL {
      front := PrimaryIsDerived(ts);
    } else if level == UNARY_LEVEL {
      front := UnaryIsDerived(ts);
    } else {
      var first := ParseLevel(level + 1, ts);
      var a := ReadIsDerived(level + 1, ts);
      Deeper(level, first.value, a);
      var b := OperatorsAreDerived(level, first.value, a, first.rest);
      front := a + b;
      assert ts == a + b + r.rest;
    }
  }

  lemma {:induction false} UnaryIsDerived(ts: seq<Token>) returns (front: seq<Token>)
    requires ParseLevel(UNARY_LEVEL, ts).Parsed?
    ensures var r := ParseLevel(UNARY_LEVEL, ts);
            ts == front + r.rest && IsExpression(UNARY_LEVEL, r.value, front)
    decreases |ts|, 10 - UNARY_LEVEL, 0
  {
    if Head(ts) == Dash || Head(ts) == Exclamation {
      var inner := ReadIsDerived(UNARY_LEVEL, ts[1..]);
      front := [ts[0]] + inner;
      assert front[1..] == inner;
      assert ts == [ts[0]] + ts[1..];
    } else {
      front := ReadIsDerived(PRIMARY_LEVEL, ts);
    }
  }

  /** Operators of a level, and their right operands, continue an expression of the level. */
  lemma {:induction false} OperatorsAreDerived(level: nat, left: Expression<i64>, before: seq<Token>, ts: seq<Token>) returns (front: seq<Token>)
    requires 1 <= level < UNARY_LEVEL && IsExpression(level, left, before) && ParseOperators(level, left, ts).Parsed?
    ensures var r := ParseOperators(level, left, ts);
            ts == front + r.rest && IsExpression(level, r.value, before + front)
    decreases |ts|, 0
  {
    hide IsExpression;
    match OperatorAt(level, Head(ts))
    case None =>
      front := [];
      assert before + front == before;
    case Some(op) =>
      var right := ParseLevel(level + 1, ts[1..]);
      var b := ReadIsDerived(level + 1, ts[1..]);
      BinaryIsDerived(level, op, left, right.value, before, ts[0], b);
      var more := OperatorsAreDerived(level, Binary(op, left, right.value), before + [ts[0]] + b, right.rest);
      front := [ts[0]] + b + more;
      OperatorsRegroup(before, ts, b, more, ParseOperators(level, left, ts).rest);
  }

  lemma OperatorsRegroup(before: seq<Token>, ts: seq<Token>, b: seq<Token>, more: seq<Token>, rest: seq<Token>)
    requires ts != [] && ts[1..] == b + (more + rest)
    ensures ts == [ts[0]] + b + more + rest
    ensures before + ([ts[0]] + b + more) == before + [ts[0]] + b + more
  {
    assert ts == [ts[0]] + ts[1..];
  }

  lemma {:induction false} PrimaryIsDerived(ts: seq<Token>) returns (front: seq<Token>)
    requires ParsePrimary(ts).Parsed?
    ensures ts == front + ParsePrimary(ts).rest && IsPrimary(ParsePrimary(ts).value, front)
    decreases |ts|, 1
  {
    var t := ts[0];
    assert ts == [t] + ts[1..];
    if t == LeftParen {
      var inner := ReadIsDerived(1, ts[1..]);
      front := [LeftParen] + inner + [RightParen];
      ParenthesisIsDerived(ParsePrimary(ts).value, inner);
      EnclosedRegroup(ts, inner, ParseLevel(1, ts[1..]).rest);
    } else if t.Identifier? && Head(ts[1..]) == LeftParen {
      var list := ArgumentsAreDerived(ts[1..]);
      front := [t] + ([LeftParen] + list + [RightParen]);
      CallIsDerived(t.name, ParseArguments(ts[1..]).value, list);
    } else {
      front := [t];
      LeafIsDerived(ts);
    }
  }

  lemma ParenthesisIsDerived(e: Expression<i64>, inner: seq<Token>)
    requires IsExpression(1, e, inner)
    ensures IsPrimary(e, [LeftParen] + inner + [RightParen])
  {
    var front := [LeftParen] + inner + [RightParen];
    assert front[1..|front| - 1] == inner;
  }

  lemma CallIsDerived(callee: string, es: seq<Expression<i64>>, list: seq<Token>)
    requires AreArguments(es, list)
    ensures IsPrimary(Call(callee, es), [Identifier(callee)] + ([LeftParen] + list + [RightParen]))
  {
    var front := [Identifier(callee)] + ([LeftParen] + list + [RightParen]);
    assert front[2..|front| - 1] == list;
  }

  lemma LeafIsDerived(ts: seq<Token>)
    requires ParsePrimary(ts).Parsed? && ts[0] != LeftParen && !(ts[0].Identifier? && Head(ts[1..]) == LeftParen)
    ensures ParsePrimary(ts).rest == ts[1..] && IsPrimary(ParsePrimary(ts).value, [ts[0]])
  {
  }

  lemma EnclosedRegroup(ts: seq<Token>, inner: seq<Token>, rest: seq<Token>)
    requires ts != [] && ts[1..] == inner + rest && rest != []
    ensures ts == [ts[0]] + inner + [rest[0]] + rest[1..]
  {
    assert ts == [ts[0]] + ts[1..];
    assert rest == [rest[0]] + rest[1..];
  }

  lemma {:induction false} ArgumentsAreDerived(ts: seq<Token>) returns (list: seq<Token>)
    requires ParseArguments(ts).Parsed?
    ensures ts == [LeftParen] + list + [RightParen] + ParseArguments(ts).rest && AreArguments(ParseArguments(ts).value, list)
    decreases |ts|, 0
  {
    if Head(ts[1..]) == RightParen {
      list := [];
      assert ts == [ts[0], ts[1]] + ts[2..];
    } else {
      list := ListIsDerived(ts[1..]);
      EnclosedRegroup(ts, list, ParseArgumentList(ts[1..]).rest);
    }
  }

  lemma {:induction false} ListIsDerived(ts: seq<Token>) returns (front: seq<Token>)
    requires ParseArgumentList(ts).Parsed?
    ensures var r := ParseArgumentList(ts);
            ts == front + r.rest && AreArguments(r.value, front) && r.value != []
    decreases |ts|, 11
  {
    var r := ParseLevel(1, ts);
    var first := ReadIsDerived(1, ts);
    if Head(r.rest) != Comma {
      front := first;
    } else {
      var more := ListIsDerived(r.rest[1..]);
      front := first + [Comma] + more;
      ListRegroup(ts, first, r.rest, more, ParseArgumentList(ts).rest);
      MoreArguments(r.value, first, ParseArgumentList(r.rest[1..]).value, more);
    }
  }

  lemma ListRegroup(ts: seq<Token>, first: seq<Token>, after: seq<Token>, more: seq<Token>, rest: seq<Token>)
    requires ts == first + after && after != [] && after[1..] == more + rest
    ensures ts == first + [after[0]] + more + rest
  {
    assert after == [after[0]] + after[1..];
  }

  lemma MoreArguments(e: Expression<i64>, first: seq<Token>, es: seq<Expression<i64>>, more: seq<Token>)
    requires IsExpression(1, e, first) && AreArguments(es, more) && es != []
    ensures AreArguments([e] + es, first + [Comma] + more)
  {
    var all, ts := [e] + es, first + [Comma] + more;
    hide IsExpression;
    assert all[0] == e && all[1..] == es;
    assert ts[..|first|] == first && ts[|first| + 1..] == more && ts[|first|] == Comma;
  }

  // ---------- declarations are written with the tokens they are printed with ----------

  lemma TypeIsPrinted(ts: seq<Token>)
    requires ParseType(ts).Parsed?
    ensures ts == [TypeToken(ParseType(ts).value)] + ParseType(ts).rest
  {
    assert ts == [ts[0]] + ts[1..];
  }

  lemma PublicIsPrinted(ts: seq<Token>)
    requires |ts| >= 4 && ts[..4] == [Identifier("flow"), LeftBracket, Identifier("public"), RightBracket]
    ensures ts == TokensIn(LabelPieces(Some(Public))) + ts[4..]
  {
    assert TokensIn(LabelPieces(Some(Public))) == [Identifier("flow"), LeftBracket, Identifier("public"), RightBracket];
    assert ts == ts[..4] + ts[4..];
  }

  lemma SecretIsPrinted(ts: seq<Token>)
    requires |ts| >= 12 && ts[0] == Identifier("flow")
    requires ts[1..6] == [LeftBracket, Identifier("secret"), Comma, Identifier("tenant"), Colon]
    requires ts[6].Identifier? && ts[7..10] == [Comma, Identifier("purpose"), Colon] && ts[10].Identifier? && ts[11] == RightBracket
    ensures ts == TokensIn(LabelPieces(Some(Secret(ts[6].name, ts[10].name)))) + ts[12..]
  {
    hide LabelPieces;
    SecretTokens(ts[6].name, ts[10].name, ts[12..]);
    SameTokens(ts, TokensIn(LabelPieces(Some(Secret(ts[6].name, ts[10].name)))) + ts[12..]);
  }

  lemma SameTokens(s: seq<Token>, t: seq<Token>)
    requires 12 <= |s| == |t| && s[0] == t[0] && s[1..6] == t[1..6] && s[6] == t[6] && s[7..10] == t[7..10]
    requires s[10] == t[10] && s[11] == t[11] && s[12..] == t[12..]
    ensures s == t
  {
    assert s == s[..1] + s[1..6] + s[6..7] + s[7..10] + s[10..12] + s[12..];
    assert t == t[..1] + t[1..6] + t[6..7] + t[7..10] + t[10..12] + t[12..];
  }

  lemma LabelIsPrinted(ts: seq<Token>)
    requires ParseLabel(ts).Parsed?
    ensures ts == TokensIn(LabelPieces(ParseLabel(ts).value)) + ParseLabel(ts).rest
  {
    var public := [LeftBracket, Identifier("public"), RightBracket];
    hide LabelPieces;
    if Head(ts) != Identifier("flow") {
      NoLabel(ts);
    } else if public <= ts[1..] {
      assert ts[1..][..3] == public;
      assert ts[..4] == [ts[0]] + ts[1..][..3];
      PublicIsPrinted(ts);
    } else {
      SecretIsPrinted(ts);
    }
  }

  lemma NoLabel(ts: seq<Token>)
    ensures TokensIn(LabelPieces(None)) + ts == ts
  {
  }

  lemma ParameterIsPrinted(ts: seq<Token>, lead: string)
    requires ParseParameter(ts).Parsed?
    ensures ts == TokensIn(ParameterPieces(ParseParameter(ts).value, lead)) + ParseParameter(ts).rest
  {
    hide LabelPieces, ParameterPieces;
    var p, rest := ParseParameter(ts).value, ParseParameter(ts).rest;
    TypeIsPrinted(ts[2..]);
    LabelIsPrinted(ParseType(ts[2..]).rest);
    ParameterTokens(p, lead, rest);
    FirstTwo(ts);
  }

  lemma FirstTwo(ts: seq<Token>)
    requires |ts| >= 2
    ensures ts == [ts[0], ts[1]] + ts[2..] && ts[1] == ts[1..][0]
  {
  }

  lemma {:induction false} ParameterListIsPrinted(ts: seq<Token>, lead: string)
    requires ParseParameterList(ts).Parsed?
    ensures var r := ParseParameterList(ts);
            r.value != [] && ts == TokensIn(ParameterListPieces(r.value, lead)) + r.rest
    decreases |ts|
  {
    hide ParameterPieces, ParseParameter;
    var r := ParseParameter(ts);
    ParameterIsPrinted(ts, lead);
    if Head(r.rest) == Comma {
      ParameterListIsPrinted(r.rest[1..], " ");
      ParameterListTokens(ParseParameterList(ts).value, lead, ParseParameterList(ts).rest);
      assert r.rest == [Comma] + r.rest[1..];
    }
  }

  lemma ParametersArePrinted(ts: seq<Token>)
    requires ParseParameters(ts).Parsed?
    ensures var r := ParseParameters(ts);
            ts == [LeftParen] + (TokensIn(ParameterListPieces(r.value, "")) + ([RightParen] + r.rest))
  {
    hide ParameterPieces, ParseParameterList;
    if Head(ts[1..]) == RightParen {
      FirstTwo(ts);
      NothingBefore(TokensIn(ParameterListPieces([], "")), [RightParen] + ts[2..]);
      Front2Splits(LeftParen, RightParen, ts[2..]);
    } else {
      ParameterListIsPrinted(ts[1..], "");
      Enclosed(ts, ParseParameterList(ts[1..]).rest);
    }
  }

  lemma Enclosed(ts: seq<Token>, rest: seq<Token>)
    requires ts != [] && rest != []
    ensures ts == [ts[0]] + ts[1..] && rest == [rest[0]] + rest[1..]
  {
  }

  lemma {:induction false} NameListIsPrinted(ts: seq<Token>, lead: string)
    requires ParseNameList(ts).Parsed?
    ensures var r := ParseNameList(ts);
            r.value != [] && ts == TokensIn(NameListPieces(r.value, lead)) + r.rest
    decreases |ts|
  {
    var names, rest := ParseNameList(ts).value, ParseNameList(ts).rest;
    var first := Piece(lead, ts[0]);
    if Head(ts[1..]) != Comma {
      One(first);
      Enclosed(ts, ts);
    } else {
      NameListIsPrinted(ts[2..], " ");
      Chain2([first, Close(Comma)], NameListPieces(names[1..], " "), rest);
      Two(first, Close(Comma));
      FirstTwo(ts);
    }
  }

  lemma EffectsArePrinted(ts: seq<Token>)
    requires ParseEffects(ts).Parsed?
    ensures var r := ParseEffects(ts);
            ts == [LeftBracket] + (TokensIn(NameListPieces(r.value, "")) + ([RightBracket] + r.rest))
  {
    hide ParseNameList;
    if Head(ts[1..]) == RightBracket {
      FirstTwo(ts);
      NothingBefore(TokensIn(NameListPieces([], "")), [RightBracket] + ts[2..]);
      Front2Splits(LeftBracket, RightBracket, ts[2..]);
    } else {
      NameListIsPrinted(ts[1..], "");
      Enclosed(ts, ParseNameList(ts[1..]).rest);
    }
  }

  lemma {:induction false} AuthorityListIsPrinted(ts: seq<Token>, lead: string)
    requires ParseAuthorityList(ts).Parsed?
    ensures var r := ParseAuthorityList(ts);
            r.value != [] && ts == TokensIn(AuthorityListPieces(r.value, lead)) + r.rest
    decreases |ts|
  {
    var items, rest := ParseAuthorityList(ts).value, ParseAuthorityList(ts).rest;
    var a := items[0];
    Three(Piece(lead, Identifier(a.name)), Close(Colon), Spaced(Identifier(a.effect)));
    FirstThree(ts);
    if Head(ts[3..]) == Comma {
      AuthorityListIsPrinted(ts[4..], " ");
      AuthorityListTokens(items, lead, rest);
      assert ts[3..] == [Comma] + ts[4..];
    }
  }

  lemma FirstThree(ts: seq<Token>)
    requires |ts| >= 3
    ensures ts == [ts[0], ts[1], ts[2]] + ts[3..]
  {
  }

  lemma AuthoritiesArePrinted(ts: seq<Token>)
    requires ParseAuthorities(ts).Parsed?
    ensures ts == TokensIn(AuthoritiesPieces(ParseAuthorities(ts).value)) + ParseAuthorities(ts).rest
  {
    hide ParseAuthorityList, AuthorityListPieces, AuthoritiesPieces;
    if Head(ts) != Identifier("authorities") {
      NoAuthorities(ts);
    } else {
      SlotsArePrinted(ts);
    }
  }

  lemma SlotsArePrinted(ts: seq<Token>)
    requires ParseAuthorities(ts).Parsed? && Head(ts) == Identifier("authorities")
    ensures ts == TokensIn(AuthoritiesPieces(ParseAuthorities(ts).value)) + ParseAuthorities(ts).rest
  {
    hide ParseAuthorityList, AuthorityListPieces, AuthoritiesPieces;
    var r := ParseAuthorities(ts);
    SlotsTokens(r.value.value, r.rest);
    FirstTwo(ts);
    if Head(ts[2..]) == RightBracket {
      NoSlots([RightBracket] + ts[3..]);
      Enclosed(ts, ts[2..]);
      assert ts[2..][1..] == ts[3..];
    } else {
      AuthorityListIsPrinted(ts[2..], "");
      Enclosed(ts, ParseAuthorityList(ts[2..]).rest);
    }
  }

  lemma NoAuthorities(ts: seq<Token>)
    ensures TokensIn(AuthoritiesPieces(None)) + ts == ts
  {
  }

  lemma NoSlots(ts: seq<Token>)
    ensures TokensIn(AuthorityListPieces([], "")) + ts == ts
  {
  }

  lemma UsingIsPrinted(ts: seq<Token>)
    requires ParseUsing(ts).Parsed?
    ensures ts == TokensIn(UsingPieces(ParseUsing(ts).value)) + ParseUsing(ts).rest
  {
    if Head(ts) == Identifier("using") {
      FirstTwo(ts);
      Two(Spaced(Identifier("using")), Spaced(ts[1]));
    }
  }

  // ---------- statements ----------

  /** The tokens begin with the statement, and go on with the rest. */
  ghost predicate IsStatement(s: Statement<i64>, ts: seq<Token>, rest: seq<Token>) {
    match s
    case LetStatement(name, ty, information, value) =>
      exists et :: IsExpression(1, value, et)
                   && ts == [KwLet, Identifier(name), Colon] +
                            ([TypeToken(ty)] + (TokensIn(LabelPieces(information)) + ([Assign] + (et + ([Semicolon] + rest)))))
    case ReturnStatement(None) => ts == [KwReturn, Semicolon] + rest
    case ReturnStatement(Some(e)) => exists et :: IsExpression(1, e, et) && ts == [KwReturn] + (et + ([Semicolon] + rest))
    case RequestStatement(effect, authority, information, arguments) =>
      exists list :: AreArguments(arguments, list)
                     && ts == [KwRequest, Identifier(effect)] +
                              ([LeftParen] + list + [RightParen] +
                               (TokensIn(UsingPieces(authority)) + (TokensIn(LabelPieces(information)) + ([Semicolon] + rest))))
    case ExpressionStatement(e) => exists et :: IsExpression(1, e, et) && ts == et + ([Semicolon] + rest)
  }

  lemma ExpressionIsRead(e: Expression<i64>, et: seq<Token>, rest: seq<Token>)
    requires IsExpression(1, e, et)
    ensures ParseLevel(1, et + ([Semicolon] + rest)) == Parsed(e, [Semicolon] + rest)
    ensures Begins(Head(et + ([Semicolon] + rest)))
  {
    DerivedIsRead(1, e, et, [Semicolon] + rest);
    NothingFollows(1, e, [Semicolon] + rest);
    DerivedBegins(1, e, et);
    assert (et + ([Semicolon] + rest))[0] == et[0];
  }

  lemma LetIsRead(s: Statement<i64>, ts: seq<Token>, rest: seq<Token>)
    requires s.LetStatement? && IsStatement(s, ts, rest)
    ensures ParseLet(ts) == Parsed(s, rest) && Head(ts) == KwLet
  {
    hide ParseLevel, LabelPieces, IsExpression;
    var et :| IsExpression(1, s.value, et)
              && ts == [KwLet, Identifier(s.name), Colon] +
                       ([TypeToken(s.valueType)] + (TokensIn(LabelPieces(s.information)) + ([Assign] + (et + ([Semicolon] + rest)))));
    var r2 := et + ([Semicolon] + rest);
    Front1(Assign, r2);
    ExpressionIsRead(s.value, et, rest);
    ReadsLabel(s.information, [Assign] + r2);
    LetStep(s.name, s.valueType, s.information, s.value, TokensIn(LabelPieces(s.information)) + ([Assign] + r2), r2, rest);
    Front3(KwLet, Identifier(s.name), Colon, [TypeToken(s.valueType)] + (TokensIn(LabelPieces(s.information)) + ([Assign] + r2)));
  }

  lemma ReturnIsRead(s: Statement<i64>, ts: seq<Token>, rest: seq<Token>)
    requires s.ReturnStatement? && IsStatement(s, ts, rest)
    ensures ParseReturn(ts) == Parsed(s, rest) && Head(ts) == KwReturn
  {
    hide ParseLevel, IsExpression;
    match s.result
    case None => Front2(KwReturn, Semicolon, rest);
    case Some(e) =>
      var et :| IsExpression(1, e, et) && ts == [KwReturn] + (et + ([Semicolon] + rest));
      Front1(KwReturn, et + ([Semicolon] + rest));
      Front1(Semicolon, rest);
      ExpressionIsRead(e, et, rest);
  }

  lemma RequestIsRead(s: Statement<i64>, ts: seq<Token>, rest: seq<Token>)
    requires s.RequestStatement? && IsStatement(s, ts, rest)
    ensures ParseRequest(ts) == Parsed(s, rest) && Head(ts) == KwRequest
  {
    hide LabelPieces, UsingPieces, AreArguments, ParseArguments, ParseUsing, ParseLabel;
    var r3 := [Semicolon] + rest;
    var r2 := TokensIn(LabelPieces(s.information)) + r3;
    var r1 := TokensIn(UsingPieces(s.authority)) + r2;
    var list :| AreArguments(s.arguments, list) && ts == [KwRequest, Identifier(s.effect)] + ([LeftParen] + list + [RightParen] + r1);
    var call := [LeftParen] + list + [RightParen] + r1;
    Front1(Semicolon, rest);
    ArgumentsInParens(s.arguments, list, r1);
    LabelIsNotUsing(s.information, r3);
    ReadsUsing(s.authority, r2);
    ReadsLabel(s.information, r3);
    RequestStep(s.effect, s.arguments, s.authority, s.information, call, r1, r2, rest);
    Front2(KwRequest, Identifier(s.effect), call);
  }

  lemma ArgumentsInParens(es: seq<Expression<i64>>, list: seq<Token>, rest: seq<Token>)
    requires AreArguments(es, list)
    ensures ParseArguments([LeftParen] + list + [RightParen] + rest) == Parsed(es, rest)
  {
    var ts := [LeftParen] + list + [RightParen] + rest;
    assert ts == [LeftParen] + (list + ([RightParen] + rest));
    assert ts[0] == LeftParen && ts[1..] == list + ([RightParen] + rest);
    ArgumentsAreRead(es, list, rest);
    ArgumentsAfterParen(es, list, ts, rest);
  }

  lemma StatementIsRead(s: Statement<i64>, ts: seq<Token>, rest: seq<Token>)
    requires IsStatement(s, ts, rest)
    ensures ParseStatement(ts) == Parsed(s, rest) && Head(ts) != RightBrace && Head(ts) != Eof
  {
    hide ParseLet, ParseReturn, ParseRequest, ParseLevel, IsStatement;
    match s
    case LetStatement(_, _, _, _) => LetIsRead(s, ts, rest);
    case ReturnStatement(_) => ReturnIsRead(s, ts, rest);
    case RequestStatement(_, _, _, _) => RequestIsRead(s, ts, rest);
    case ExpressionStatement(e) =>
      var et := StatementExpression(e, ts, rest);
      ExpressionIsRead(e, et, rest);
      Front1(Semicolon, rest);
  }

  lemma StatementExpression(e: Expression<i64>, ts: seq<Token>, rest: seq<Token>) returns (et: seq<Token>)
    requires IsStatement(ExpressionStatement(e), ts, rest)
    ensures IsExpression(1, e, et) && ts == et + ([Semicolon] + rest)
  {
    hide IsExpression;
    et :| IsExpression(1, e, et) && ts == et + ([Semicolon] + rest);
  }

  lemma LetIsDerived(ts: seq<Token>)
    requires ParseLet(ts).Parsed?
    ensures IsStatement(ParseLet(ts).value, ts, ParseLet(ts).rest)
  {
    hide ParseLevel, LabelPieces, ParseLabel, IsExpression;
    var s, rest := ParseLet(ts).value, ParseLet(ts).rest;
    FirstThree(ts);
    TypeIsPrinted(ts[3..]);
    var r1 := ParseType(ts[3..]).rest;
    LabelIsPrinted(r1);
    var r2 := ParseLabel(r1).rest;
    Enclosed(r2, r2);
    var et := ReadIsDerived(1, r2[1..]);
    var r3 := ParseLevel(1, r2[1..]).rest;
    Enclosed(r3, r3);
    assert IsExpression(1, s.value, et);
  }

  lemma ReturnIsDerived(ts: seq<Token>)
    requires ParseReturn(ts).Parsed?
    ensures IsStatement(ParseReturn(ts).value, ts, ParseReturn(ts).rest)
  {
    hide ParseLevel, IsExpression;
    Enclosed(ts, ts);
    if Head(ts[1..]) == Semicolon {
      FirstTwo(ts);
    } else {
      var et := ReadIsDerived(1, ts[1..]);
      var r := ParseLevel(1, ts[1..]).rest;
      Enclosed(r, r);
      assert IsExpression(1, ParseReturn(ts).value.result.value, et);
    }
  }

  lemma RequestIsDerived(ts: seq<Token>)
    requires ParseRequest(ts).Parsed?
    ensures IsStatement(ParseRequest(ts).value, ts, ParseRequest(ts).rest)
  {
    hide ParseArguments, LabelPieces, UsingPieces, ParseLabel, ParseUsing, AreArguments;
    var s := ParseRequest(ts).value;
    FirstTwo(ts);
    var list := ArgumentsAreDerived(ts[2..]);
    var r1 := ParseArguments(ts[2..]).rest;
    UsingIsPrinted(r1);
    var r2 := ParseUsing(r1).rest;
    LabelIsPrinted(r2);
    var r3 := ParseLabel(r2).rest;
    Enclosed(r3, r3);
    assert AreArguments(s.arguments, list);
  }

  lemma StatementIsDerived(ts: seq<Token>)
    requires ParseStatement(ts).Parsed?
    ensures IsStatement(ParseStatement(ts).value, ts, ParseStatement(ts).rest)
  {
    hide ParseLet, ParseReturn, ParseRequest, ParseLevel, IsExpression;
    match Head(ts)
    case KwLet => LetIsDerived(ts);
    case KwReturn => ReturnIsDerived(ts);
    case KwRequest => RequestIsDerived(ts);
    case _ => ExpressionStatementIsDerived(ts);
  }

  lemma ExpressionStatementIsDerived(ts: seq<Token>)
    requires ParseLevel(1, ts).Parsed? && Head(ParseLevel(1, ts).rest) == Semicolon
    ensures IsStatement(ExpressionStatement(ParseLevel(1, ts).value), ts, ParseLevel(1, ts).rest[1..])
  {
    hide ParseLevel, IsExpression;
    var et := ReadIsDerived(1, ts);
    var r := ParseLevel(1, ts).rest;
    Enclosed(r, r);
    assert IsExpression(1, ParseLevel(1, ts).value, et);
  }

  // ---------- bodies, functions, modules ----------

  /** Statements up to a closing brace. */
  ghost predicate IsBody(body: seq<Statement<i64>>, ts: seq<Token>, rest: seq<Token>) {
    if body == [] then ts == [RightBrace] + rest
    else exists mid :: IsStatement(body[0], ts, mid) && IsBody(body[1..], mid, rest)
  }

  ghost predicate IsFunction(f: Function<i64>, ts: seq<Token>, rest: seq<Token>) {
    exists body :: IsBody(f.body, body, rest)
                   && ts == TokensIn(SignaturePieces(f)) + (TokensIn(RowsPieces(f)) + ([LeftBrace] + body))
  }

  ghost predicate AreFunctions(fs: seq<Function<i64>>, ts: seq<Token>) {
    if fs == [] then ts == [Eof]
    else exists mid :: IsFunction(fs[0], ts, mid) && AreFunctions(fs[1..], mid)
  }

  /** A module header and at least one function, up to the end of the text. */
  ghost predicate IsModule(p: Program, ts: seq<Token>) {
    p.functions != [] && exists after :: AreFunctions(p.functions, after) && ts == TokensIn(HeaderPieces(p)) + after
  }

  lemma {:induction false} BodyIsRead(body: seq<Statement<i64>>, ts: seq<Token>, rest: seq<Token>)
    requires IsBody(body, ts, rest)
    ensures ParseStatements(ts) == Parsed(body, rest)
    decreases |body|
  {
    hide IsStatement, ParseStatement;
    if body == [] {
      Front1(RightBrace, rest);
    } else {
      var mid :| IsStatement(body[0], ts, mid) && IsBody(body[1..], mid, rest);
      StatementIsRead(body[0], ts, mid);
      BodyIsRead(body[1..], mid, rest);
      FirstAndRest(body);
    }
  }

  lemma FunctionIsRead(f: Function<i64>, ts: seq<Token>, rest: seq<Token>)
    requires IsFunction(f, ts, rest)
    ensures ParseFunction(ts) == Parsed(f, rest) && Head(ts) == KwFn
  {
    hide ParseSignature, ParseRows, ParseStatements, SignaturePieces, RowsPieces, IsBody;
    var body :| IsBody(f.body, body, rest) && ts == TokensIn(SignaturePieces(f)) + (TokensIn(RowsPieces(f)) + ([LeftBrace] + body));
    var r2 := [LeftBrace] + body;
    var r1 := TokensIn(RowsPieces(f)) + r2;
    Front1(LeftBrace, body);
    ReadsRows(f, r2);
    ReadsSignature(f, r1);
    BodyIsRead(f.body, body, rest);
    SignatureBegins(f, r1);
  }

  lemma {:induction false} FunctionsAreRead(fs: seq<Function<i64>>, ts: seq<Token>)
    requires AreFunctions(fs, ts)
    ensures ParseFunctions(ts) == Parsed(fs, [Eof])
    decreases |fs|
  {
    hide ParseFunction, IsFunction;
    if fs != [] {
      var mid :| IsFunction(fs[0], ts, mid) && AreFunctions(fs[1..], mid);
      FunctionIsRead(fs[0], ts, mid);
      FunctionsAreRead(fs[1..], mid);
      FirstAndRest(fs);
    }
  }

  lemma ModuleIsRead(p: Program, ts: seq<Token>)
    requires IsModule(p, ts)
    ensures ParseModule(ts) == Some(p)
  {
    hide AreFunctions, ParseFunctions, HeaderPieces;
    var after :| AreFunctions(p.functions, after) && ts == TokensIn(HeaderPieces(p)) + after;
    HeaderTokens(p, after);
    FunctionsAreRead(p.functions, after);
    ModuleStep(p, after);
  }

  lemma {:induction false} BodyIsDerived(ts: seq<Token>)
    requires ParseStatements(ts).Parsed?
    ensures IsBody(ParseStatements(ts).value, ts, ParseStatements(ts).rest)
    decreases |ts|
  {
    hide IsStatement, ParseStatement;
    if Head(ts) == RightBrace {
      Enclosed(ts, ts);
    } else {
      StatementIsDerived(ts);
      var mid := ParseStatement(ts).rest;
      BodyIsDerived(mid);
      BodyStep(ParseStatement(ts).value, ParseStatements(mid).value, ts, mid, ParseStatements(ts).rest);
    }
  }

  lemma BodyStep(s: Statement<i64>, more: seq<Statement<i64>>, ts: seq<Token>, mid: seq<Token>, rest: seq<Token>)
    requires IsStatement(s, ts, mid) && IsBody(more, mid, rest)
    ensures IsBody([s] + more, ts, rest)
  {
    hide IsStatement;
    var body := [s] + more;
    assert body[0] == s && body[1..] == more;
  }

  lemma SignatureIsPrinted(ts: seq<Token>, f: Function<i64>)
    requires ParseSignature(ts).Parsed?
    requires ParseSignature(ts).value == Signature(f.name, f.parameters, f.returnType, f.returnInformation)
    ensures ts == TokensIn(SignaturePieces(f)) + ParseSignature(ts).rest
  {
    hide ParseParameters, ParseLabel, LabelPieces, ParameterListPieces, SignaturePieces;
    FirstTwo(ts);
    ParametersArePrinted(ts[2..]);
    var r1 := ParseParameters(ts[2..]).rest;
    Enclosed(r1, r1);
    TypeIsPrinted(r1[1..]);
    LabelIsPrinted(ParseType(r1[1..]).rest);
    SignatureTokens(f, ParseSignature(ts).rest);
  }

  lemma RowsArePrinted(ts: seq<Token>, f: Function<i64>)
    requires ParseRows(ts).Parsed? && ParseRows(ts).value == Rows(f.effects, f.authorities)
    ensures ts == TokensIn(RowsPieces(f)) + ParseRows(ts).rest
  {
    hide ParseEffects, ParseAuthorities, AuthoritiesPieces, NameListPieces, RowsPieces;
    Enclosed(ts, ts);
    EffectsArePrinted(ts[1..]);
    AuthoritiesArePrinted(ParseEffects(ts[1..]).rest);
    RowsTokens(f, ParseRows(ts).rest);
  }

  lemma FunctionIsDerived(ts: seq<Token>)
    requires ParseFunction(ts).Parsed?
    ensures IsFunction(ParseFunction(ts).value, ts, ParseFunction(ts).rest)
  {
    hide ParseSignature, ParseRows, ParseStatements, SignaturePieces, RowsPieces, IsBody;
    var f := ParseFunction(ts).value;
    SignatureIsPrinted(ts, f);
    var r1 := ParseSignature(ts).rest;
    RowsArePrinted(r1, f);
    var r2 := ParseRows(r1).rest;
    Enclosed(r2, r2);
    BodyIsDerived(r2[1..]);
  }

  lemma FunctionsStep(f: Function<i64>, more: seq<Function<i64>>, ts: seq<Token>, mid: seq<Token>)
    requires IsFunction(f, ts, mid) && AreFunctions(more, mid)
    ensures AreFunctions([f] + more, ts)
  {
    hide IsFunction;
    var fs := [f] + more;
    assert fs[0] == f && fs[1..] == more;
  }

  lemma {:induction false} FunctionsAreDerived(ts: seq<Token>)
    requires Good(ts) && ParseFunctions(ts).Parsed?
    ensures AreFunctions(ParseFunctions(ts).value, ts)
    decreases |ts|
  {
    hide ParseFunction, IsFunction;
    if Head(ts) == Eof {
      OnlyEndMark(ts);
    } else {
      FunctionIsDerived(ts);
      ParsedFunction(ts);
      var mid := ParseFunction(ts).rest;
      FunctionsAreDerived(mid);
      FunctionsStep(ParseFunction(ts).value, ParseFunctions(mid).value, ts, mid);
    }
  }

  lemma OnlyEndMark(ts: seq<Token>)
    requires Good(ts) && ts[0] == Eof
    ensures ts == [Eof]
  {
  }

  lemma ModuleIsDerived(ts: seq<Token>)
    requires Good(ts) && ParseModule(ts).Some?
    ensures IsModule(ParseModule(ts).value, ts)
  {
    hide ParseFunctions, AreFunctions, HeaderPieces;
    var p := ParseModule(ts).value;
    FirstTwo(ts);
    NextToken(ts, 2);
    if p.informationFlow {
      NextToken(ts, 3);
      GoodDrop(ts, 4);
      FunctionsAreDerived(ts[4..]);
      HeaderTokens(p, ts[4..]);
    } else {
      GoodDrop(ts, 3);
      FunctionsAreDerived(ts[3..]);
      HeaderTokens(p, ts[3..]);
    }
  }

  lemma NextToken(ts: seq<Token>, k: nat)
    requires k < |ts|
    ensures ts[k..] == [ts[k]] + ts[k + 1..] && ts[k..][1..] == ts[k + 1..] && ts[k..][0] == ts[k]
  {
  }

  /** The parser accepts exactly the token lists of modules. */
  lemma ParseModuleMeans(ts: seq<Token>, p: Program)
    requires Good(ts)
    ensures ParseModule(ts) == Some(p) <==> IsModule(p, ts)
  {
    hide ParseModule, IsModule;
    if ParseModule(ts) == Some(p) {
      ModuleIsDerived(ts);
    }
    if IsModule(p, ts) {
      ModuleIsRead(p, ts);
    }
  }

  /** The text is written with few enough tokens, and they are those of the module. */
  ghost predicate IsSourceOf(s: string, p: Program) {
    exists ts :: LexicalGrammar.IsWrittenWith(s, ts) && |ts| <= 200_000 && IsModule(p, ts + [Eof])
  }

  /**
   * The parser accepts a text exactly if it is small enough and written by the lexical grammar with the tokens
   * of a module, and delivers this module.
   */
  lemma ParseMeans(s: string, p: Program)
    ensures ParseSource(s) == Some(p) <==> Utf8Length(s) <= 1_048_576 && IsSourceOf(s, p)
  {
    hide Scan, ParseModule, IsModule, Utf8Length;
    forall ts ensures Scan(s) == Some(ts) <==> LexicalGrammar.IsWrittenWith(s, ts) {
      LexicalGrammar.ScanMeans(s, ts);
    }
    hide LexicalGrammar.IsWrittenWith;
    if Scan(s).Some? {
      var ts := Scan(s).value;
      ScannedAreSpellable(s);
      assert Good(ts + [Eof]);
      ParseModuleMeans(ts + [Eof], p);
    }
  }
}
