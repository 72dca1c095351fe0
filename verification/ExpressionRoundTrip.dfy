// Printing and parsing expressions: the parser reads the minimally parenthesized
// tokens of an expression back as that expression.
module ExpressionRoundTrip {
  import opened Prelude
  import opened Ast
  import opened Tokens
  import opened Layout
  import opened Grammar
  import opened Printer

  lemma TokensAppend(a: seq<Piece>, b: seq<Piece>)
    ensures TokensIn(a + b) == TokensIn(a) + TokensIn(b)
  {
  }

  /** The level at which a token is a binary operator; 0 if it is none. */
  function TokenLevel(t: Token): nat {
    match t
    case OrOr => 1
    case AndAnd => 2
    case EqualEqual | BangEqual => 3
    case LessThan | LessOrEqual | GreaterThan | GreaterOrEqual => 4
    case Plus | Dash => 5
    case Star | Slash | Percent => 6
    case _ => 0
  }

  lemma OperatorsHaveLevels(level: nat, t: Token, op: BinaryOperator)
    requires level >= 1
    ensures OperatorAt(level, t).Some? <==> TokenLevel(t) == level
    ensures OperatorAt(OperatorLevel(op), OperatorToken(op)) == Some(op)
    ensures TokenLevel(OperatorToken(op)) == OperatorLevel(op)
  {
  }

  /** The tokens an expression can begin with. */
  predicate Begins(t: Token) {
    t.IntegerToken? || t.TextToken? || t.KwTrue? || t.KwFalse? || t.Identifier? || t.LeftParen? || t.Dash? || t.Exclamation?
  }

  lemma {:induction false} ExpressionBegins(e: Expression<i64>, parent: nat, lead: string)
    ensures Begins(ExpressionPieces(e, parent, lead)[0].token)
    ensures Precedence(e) == PRIMARY_LEVEL || Precedence(e) < parent ==>
              var t := ExpressionPieces(e, parent, lead)[0].token; t != Dash && t != Exclamation
    decreases e
  {
    if Precedence(e) >= parent && e.Binary? {
      ExpressionBegins(e.left, OperatorLevel(e.binop), lead);
    }
  }

  function ExpressionTokens(e: Expression<i64>, parent: nat, lead: string): seq<Token> {
    TokensIn(ExpressionPieces(e, parent, lead))
  }

  /** What may follow an expression read at a level: no tighter operator, and no argument list. */
  predicate Follows(level: nat, rest: seq<Token>) {
    TokenLevel(Head(rest)) <= level && Head(rest) != LeftParen
  }

  /** The result of reading e at a level, before the operators that follow at that level are read. */
  function ReadAt(level: nat, e: Expression<i64>, rest: seq<Token>): Parsed<Expression<i64>>
    requires 1 <= level <= PRIMARY_LEVEL
  {
    if level < UNARY_LEVEL then ParseOperators(level, e, rest) else Parsed(e, rest)
  }

  lemma NothingFollows(level: nat, e: Expression<i64>, rest: seq<Token>)
    requires 1 <= level <= PRIMARY_LEVEL && TokenLevel(Head(rest)) < level
    ensures ReadAt(level, e, rest) == Parsed(e, rest)
  {
    OperatorsHaveLevels(level, Head(rest), Add);
  }

  /** The round trip: tokens printed for a level are read back at that level. */
  lemma {:induction false} ReadsBack(e: Expression<i64>, level: nat, lead: string, rest: seq<Token>)
    requires 1 <= level <= PRIMARY_LEVEL && Follows(level, rest)
    ensures ParseLevel(level, ExpressionTokens(e, level, lead) + rest) == ReadAt(level, e, rest)
    decreases e, if Precedence(e) < level then 1 else 0, 9 - level
  {
    if Precedence(e) != level && level < PRIMARY_LEVEL {
      ReadsDeeper(e, level, lead, rest);
    } else if Precedence(e) < level {
      ReadsParenthesized(e, lead, rest);
    } else if e.Binary? {
      ReadsBinary(e, lead, rest);
    } else if e.Unary? {
      ReadsUnary(e, lead, rest);
    } else {
      ReadsPrimary(e, lead, rest);
    }
  }

  lemma {:induction false} ReadsDeeper(e: Expression<i64>, level: nat, lead: string, rest: seq<Token>)
    requires 1 <= level < PRIMARY_LEVEL && Follows(level, rest) && Precedence(e) != level
    ensures ParseLevel(level, ExpressionTokens(e, level, lead) + rest) == ReadAt(level, e, rest)
    decreases e, if Precedence(e) < level then 1 else 0, 9 - level, 0
  {
    var ts := ExpressionTokens(e, level, lead) + rest;
    assert ExpressionPieces(e, level, lead) == ExpressionPieces(e, level + 1, lead);
    ReadsBack(e, level + 1, lead, rest);
    NothingFollows(level + 1, e, rest);
    if level == UNARY_LEVEL {
      ExpressionBegins(e, level, lead);
      assert Head(ts) == ExpressionPieces(e, level, lead)[0].token;
    }
  }

  lemma {:induction false} ReadsParenthesized(e: Expression<i64>, lead: string, rest: seq<Token>)
    requires Precedence(e) < PRIMARY_LEVEL
    ensures ParseLevel(PRIMARY_LEVEL, ExpressionTokens(e, PRIMARY_LEVEL, lead) + rest) == Parsed(e, rest)
    decreases e, 1, 0
  {
    var inner := ExpressionTokens(e, 1, "");
    var ts := ExpressionTokens(e, PRIMARY_LEVEL, lead) + rest;
    var after := [RightParen] + rest;
    assert ts == [LeftParen] + inner + after;
    assert ts[1..] == inner + after && after[1..] == rest;
    ReadsBack(e, 1, "", after);
    NothingFollows(1, e, after);
  }

  lemma {:induction false} ReadsUnary(e: Expression<i64>, lead: string, rest: seq<Token>)
    requires e.Unary? && Follows(UNARY_LEVEL, rest)
    ensures ParseLevel(UNARY_LEVEL, ExpressionTokens(e, UNARY_LEVEL, lead) + rest) == Parsed(e, rest)
    decreases e, 0, 0
  {
    var ts := ExpressionTokens(e, UNARY_LEVEL, lead) + rest;
    assert BarePieces(e, lead) == [Piece(lead, UnaryToken(e.unop))] + ExpressionPieces(e.operand, UNARY_LEVEL, "");
    assert ts == [UnaryToken(e.unop)] + (ExpressionTokens(e.operand, UNARY_LEVEL, "") + rest);
    assert ts[1..] == ExpressionTokens(e.operand, UNARY_LEVEL, "") + rest;
    ReadsBack(e.operand, UNARY_LEVEL, "", rest);
  }

  lemma BinaryTokens(e: Expression<i64>, lead: string, rest: seq<Token>)
    requires e.Binary?
    ensures var level := OperatorLevel(e.binop);
            var right := ExpressionTokens(e.right, level + 1, " ") + rest;
            && ExpressionTokens(e, level, lead) + rest ==
               ExpressionTokens(e.left, level, lead) + ([OperatorToken(e.binop)] + right)
            && ([OperatorToken(e.binop)] + right)[1..] == right
  {
    var level := OperatorLevel(e.binop);
    assert BarePieces(e, lead) ==
           ExpressionPieces(e.left, level, lead) + [Spaced(OperatorToken(e.binop))] + ExpressionPieces(e.right, level + 1, " ");
  }

  lemma {:induction false} ReadsBinary(e: Expression<i64>, lead: string, rest: seq<Token>)
    requires e.Binary? && Follows(OperatorLevel(e.binop), rest)
    ensures var level := OperatorLevel(e.binop);
            ParseLevel(level, ExpressionTokens(e, level, lead) + rest) == ReadAt(level, e, rest)
    decreases e, 0, 0
  {
    var level := OperatorLevel(e.binop);
    var right := ExpressionTokens(e.right, level + 1, " ") + rest;
    var after := [OperatorToken(e.binop)] + right;
    BinaryTokens(e, lead, rest);
    OperatorsHaveLevels(level, Head(rest), e.binop);
    ReadsBack(e.left, level, lead, after);
    ReadsBack(e.right, level + 1, " ", rest);
    NothingFollows(level + 1, e.right, rest);
  }

  lemma CallTokens(e: Expression<i64>, lead: string, rest: seq<Token>)
    requires e.Call?
    ensures var ts := ExpressionTokens(e, PRIMARY_LEVEL, lead) + rest;
            && ts != [] && ts[0] == Identifier(e.callee)
            && ts[1..] == [LeftParen] + TokensIn(ArgumentPieces(e.arguments, "")) + [RightParen] + rest
  {
    var list := TokensIn(ArgumentPieces(e.arguments, ""));
    assert BarePieces(e, lead) ==
           [Piece(lead, Identifier(e.callee)), Close(LeftParen)] + ArgumentPieces(e.arguments, "") + [Close(RightParen)];
    assert ExpressionTokens(e, PRIMARY_LEVEL, lead) + rest == [Identifier(e.callee)] + ([LeftParen] + list + [RightParen] + rest);
  }

  lemma {:induction false} ReadsPrimary(e: Expression<i64>, lead: string, rest: seq<Token>)
    requires Precedence(e) == PRIMARY_LEVEL && Head(rest) != LeftParen
    ensures ParseLevel(PRIMARY_LEVEL, ExpressionTokens(e, PRIMARY_LEVEL, lead) + rest) == Parsed(e, rest)
    decreases e, 0, 0
  {
    var ts := ExpressionTokens(e, PRIMARY_LEVEL, lead) + rest;
    if e.Call? {
      CallTokens(e, lead, rest);
      ReadsArguments(e.arguments, rest);
    } else {
      assert BarePieces(e, lead) == [Piece(lead, LeafToken(e))];
      assert ts == [LeafToken(e)] + rest;
      assert ts[1..] == rest;
    }
  }

  lemma {:induction false} ReadsArguments(es: seq<Expression<i64>>, rest: seq<Token>)
    ensures ParseArguments([LeftParen] + TokensIn(ArgumentPieces(es, "")) + [RightParen] + rest) == Parsed(es, rest)
    decreases es, 4
  {
    var list := TokensIn(ArgumentPieces(es, ""));
    var after := [RightParen] + rest;
    var ts := [LeftParen] + list + [RightParen] + rest;
    assert ts[1..] == list + after && after[1..] == rest;
    if es == [] {
      assert ts[2..] == rest;
    } else {
      ReadsArgumentList(es, "", rest);
      ExpressionBegins(es[0], 0, "");
      ArgumentsBegin(es, "");
    }
  }

  lemma ArgumentsBegin(es: seq<Expression<i64>>, lead: string)
    requires es != []
    ensures ArgumentPieces(es, lead) != [] && ArgumentPieces(es, lead)[0] == ExpressionPieces(es[0], 0, lead)[0]
  {
  }

  lemma {:induction false} ReadsArgumentList(es: seq<Expression<i64>>, lead: string, rest: seq<Token>)
    requires es != []
    ensures ParseArgumentList(TokensIn(ArgumentPieces(es, lead)) + ([RightParen] + rest)) == Parsed(es, [RightParen] + rest)
    decreases es, 3
  {
    var e, first := es[0], ExpressionTokens(es[0], 1, lead);
    assert ExpressionPieces(e, 0, lead) == ExpressionPieces(e, 1, lead);
    if |es| == 1 {
      ReadsBack(e, 1, lead, [RightParen] + rest);
      NothingFollows(1, e, [RightParen] + rest);
      assert es == [e];
    } else {
      var more := TokensIn(ArgumentPieces(es[1..], " ")) + ([RightParen] + rest);
      var after := [Comma] + more;
      assert TokensIn(ArgumentPieces(es, lead)) + ([RightParen] + rest) == first + after;
      ReadsBack(e, 1, lead, after);
      NothingFollows(1, e, after);
      assert after[1..] == more;
      ReadsArgumentList(es[1..], " ", rest);
      assert es == [e] + es[1..];
    }
  }
}
