// The canonical formatter: the pieces that a program is laid out in, with as few
// parentheses as precedence allows, and the formatter that appends their text.
module Printer {
  import opened Prelude
  import opened Ast
  import opened Tokens
  import opened Layout
  import opened Grammar

  // ---------- precedence ----------

  function OperatorLevel(op: BinaryOperator): nat {
    match op
    case Or => 1
    case And => 2
    case Equal | NotEqual => 3
    case Less | LessEqual | Greater | GreaterEqual => 4
    case Add | Subtract => 5
    case Multiply | Divide | Remainder => 6
  }

  function Precedence(e: Expression<i64>): (n: nat)
    ensures 1 <= n <= PRIMARY_LEVEL
  {
    match e
    case Binary(op, _, _) => OperatorLevel(op)
    case Unary(_, _) => UNARY_LEVEL
    case _ => PRIMARY_LEVEL
  }

  function OperatorToken(op: BinaryOperator): Token {
    match op
    case Add => Plus
    case Subtract => Dash
    case Multiply => Star
    case Divide => Slash
    case Remainder => Percent
    case Equal => EqualEqual
    case NotEqual => BangEqual
    case Less => LessThan
    case LessEqual => LessOrEqual
    case Greater => GreaterThan
    case GreaterEqual => GreaterOrEqual
    case And => AndAnd
    case Or => OrOr
  }

  function UnaryToken(op: UnaryOperator): Token {
    if op.Minus? then Dash else Exclamation
  }

  // ---------- pieces ----------

  /** A token right after the previous one. */
  function Close(t: Token): Piece {
    Piece("", t)
  }

  /** A token after a space. */
  function Spaced(t: Token): Piece {
    Piece(" ", t)
  }

  function TypeToken(ty: Type): Token {
    match ty
    case I64 => KwI64
    case Bool => KwBool
    case String => KwString
    case Unit => KwUnit
  }

  function LeafToken(e: Expression<i64>): Token
    requires !e.Unary? && !e.Binary? && !e.Call?
  {
    match e
    case Integer(n) => IntegerToken(n)
    case Boolean(b) => if b then KwTrue else KwFalse
    case Text(text) => TextToken(text)
    case Variable(name) => Identifier(name)
  }

  /** The pieces of an expression, led in by a blank, where a precedence of at least parent is needed. */
  function ExpressionPieces(e: Expression<i64>, parent: nat, lead: string): (ps: seq<Piece>)
    ensures ps != [] && ps[0].blank == lead
    decreases e, 2
  {
    if Precedence(e) < parent then [Piece(lead, LeftParen)] + BarePieces(e, "") + [Close(RightParen)] else BarePieces(e, lead)
  }

  function BarePieces(e: Expression<i64>, lead: string): (ps: seq<Piece>)
    ensures ps != [] && ps[0].blank == lead
    decreases e, 1
  {
    match e
    case Unary(op, operand) => [Piece(lead, UnaryToken(op))] + ExpressionPieces(operand, UNARY_LEVEL, "")
    case Binary(op, left, right) =>
      ExpressionPieces(left, OperatorLevel(op), lead) + [Spaced(OperatorToken(op))]
      + ExpressionPieces(right, OperatorLevel(op) + 1, " ")
    case Call(callee, arguments) =>
      [Piece(lead, Identifier(callee)), Close(LeftParen)] + ArgumentPieces(arguments, "") + [Close(RightParen)]
    case _ => [Piece(lead, LeafToken(e))]
  }

  function ArgumentPieces(es: seq<Expression<i64>>, lead: string): seq<Piece>
    decreases es, 0
  {
    if es == [] then []
    else if |es| == 1 then ExpressionPieces(es[0], 0, lead)
    else ExpressionPieces(es[0], 0, lead) + [Close(Comma)] + ArgumentPieces(es[1..], " ")
  }

  function LabelPieces(information: Option<Label>): seq<Piece> {
    match information
    case None => []
    case Some(Public) =>
      [Spaced(Identifier("flow")), Spaced(LeftBracket), Close(Identifier("public")), Close(RightBracket)]
    case Some(Secret(tenant, purpose)) =>
      [Spaced(Identifier("flow")), Spaced(LeftBracket), Close(Identifier("secret")), Close(Comma),
       Spaced(Identifier("tenant")), Close(Colon), Close(Identifier(tenant)), Close(Comma),
       Spaced(Identifier("purpose")), Close(Colon), Close(Identifier(purpose)), Close(RightBracket)]
  }

  function ParameterPieces(p: Parameter, lead: string): seq<Piece> {
    [Piece(lead, Identifier(p.name)), Close(Colon), Spaced(TypeToken(p.valueType))] + LabelPieces(p.information)
  }

  function ParameterListPieces(ps: seq<Parameter>, lead: string): seq<Piece> {
    if ps == [] then []
    else if |ps| == 1 then ParameterPieces(ps[0], lead)
    else ParameterPieces(ps[0], lead) + [Close(Comma)] + ParameterListPieces(ps[1..], " ")
  }

  function NameListPieces(names: seq<string>, lead: string): seq<Piece> {
    if names == [] then []
    else if |names| == 1 then [Piece(lead, Identifier(names[0]))]
    else [Piece(lead, Identifier(names[0])), Close(Comma)] + NameListPieces(names[1..], " ")
  }

  function AuthorityPieces(a: Authority, lead: string): seq<Piece> {
    [Piece(lead, Identifier(a.name)), Close(Colon), Spaced(Identifier(a.effect))]
  }

  function AuthorityListPieces(items: seq<Authority>, lead: string): seq<Piece> {
    if items == [] then []
    else if |items| == 1 then AuthorityPieces(items[0], lead)
    else AuthorityPieces(items[0], lead) + [Close(Comma)] + AuthorityListPieces(items[1..], " ")
  }

  function UsingPieces(authority: Option<string>): seq<Piece> {
    match authority
    case None => []
    case Some(name) => [Spaced(Identifier("using")), Spaced(Identifier(name))]
  }

  function LetPieces(s: Statement<i64>, lead: string): seq<Piece>
    requires s.LetStatement?
  {
    [Piece(lead, KwLet), Spaced(Identifier(s.name)), Close(Colon), Spaced(TypeToken(s.valueType))] + LabelPieces(s.information)
    + [Spaced(Assign)] + ExpressionPieces(s.value, 0, " ") + [Close(Semicolon)]
  }

  function RequestPieces(s: Statement<i64>, lead: string): seq<Piece>
    requires s.RequestStatement?
  {
    [Piece(lead, KwRequest), Spaced(Identifier(s.effect)), Close(LeftParen)] + ArgumentPieces(s.arguments, "")
    + [Close(RightParen)] + UsingPieces(s.authority) + LabelPieces(s.information) + [Close(Semicolon)]
  }

  function StatementPieces(s: Statement<i64>, lead: string): seq<Piece> {
    match s
    case LetStatement(_, _, _, _) => LetPieces(s, lead)
    case ReturnStatement(None) => [Piece(lead, KwReturn), Close(Semicolon)]
    case ReturnStatement(Some(e)) => [Piece(lead, KwReturn)] + ExpressionPieces(e, 0, " ") + [Close(Semicolon)]
    case RequestStatement(_, _, _, _) => RequestPieces(s, lead)
    case ExpressionStatement(e) => ExpressionPieces(e, 0, lead) + [Close(Semicolon)]
  }

  function BodyPieces(body: seq<Statement<i64>>): seq<Piece> {
    if body == [] then [] else StatementPieces(body[0], "\n  ") + BodyPieces(body[1..])
  }

  function AuthoritiesPieces(authorities: Option<seq<Authority>>): seq<Piece> {
    match authorities
    case None => []
    case Some(items) =>
      [Spaced(Identifier("authorities")), Spaced(LeftBracket)] + AuthorityListPieces(items, "") + [Close(RightBracket)]
  }

  function SignaturePieces(f: Function<i64>): seq<Piece> {
    [Piece("\n\n", KwFn), Spaced(Identifier(f.name)), Close(LeftParen)] + ParameterListPieces(f.parameters, "")
    + [Close(RightParen), Spaced(Arrow), Spaced(TypeToken(f.returnType))] + LabelPieces(f.returnInformation)
  }

  function RowsPieces(f: Function<i64>): seq<Piece> {
    [Spaced(KwEffects), Spaced(LeftBracket)] + NameListPieces(f.effects, "") + [Close(RightBracket)]
    + AuthoritiesPieces(f.authorities)
  }

  function FunctionPieces(f: Function<i64>): seq<Piece> {
    SignaturePieces(f) + RowsPieces(f) + [Spaced(LeftBrace)] + BodyPieces(f.body) + [Piece("\n", RightBrace)]
  }

  function FunctionsPieces(fs: seq<Function<i64>>): seq<Piece> {
    if fs == [] then [] else FunctionPieces(fs[0]) + FunctionsPieces(fs[1..])
  }

  function HeaderPieces(p: Program): seq<Piece> {
    [Close(KwModule), Spaced(Identifier(p.moduleName))] + (if p.informationFlow then [Spaced(Identifier("flow"))] else [])
    + [Close(Semicolon)]
  }

  function ProgramPieces(p: Program): seq<Piece> {
    HeaderPieces(p) + FunctionsPieces(p.functions)
  }

  /** The canonical text of a program: its pieces and a final line break. */
  function Format(p: Program): string {
    Render(ProgramPieces(p)) + "\n"
  }
}
