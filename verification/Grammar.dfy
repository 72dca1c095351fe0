// The grammar of JOAN source: which programs a token list denotes. Each function
// reads a prefix of the list and returns what it denotes and what is left.
module Grammar {
  import opened Prelude
  import opened Ast
  import opened Tokens

  datatype Parsed<+T> = Parsed(value: T, rest: seq<Token>) | Rejected

  function Head(ts: seq<Token>): Token {
    if ts == [] then Eof else ts[0]
  }

  // ---------- expressions ----------

  /** The binary operator that a token stands for at a precedence level, 1 being the loosest. */
  function OperatorAt(level: nat, t: Token): Option<BinaryOperator> {
    match (level, t)
    case (1, OrOr) => Some(Or)
    case (2, AndAnd) => Some(And)
    case (3, EqualEqual) => Some(Equal)
    case (3, BangEqual) => Some(NotEqual)
    case (4, LessThan) => Some(Less)
    case (4, LessOrEqual) => Some(LessEqual)
    case (4, GreaterThan) => Some(Greater)
    case (4, GreaterOrEqual) => Some(GreaterEqual)
    case (5, Plus) => Some(Add)
    case (5, Dash) => Some(Subtract)
    case (6, Star) => Some(Multiply)
    case (6, Slash) => Some(Divide)
    case (6, Percent) => Some(Remainder)
    case (_, _) => None
  }

  const UNARY_LEVEL: nat := 7
  const PRIMARY_LEVEL: nat := 8

  /** An expression whose operators outside parentheses bind at least as tightly as the level. */
  function ParseLevel(level: nat, ts: seq<Token>): (r: Parsed<Expression<i64>>)
    requires 1 <= level <= PRIMARY_LEVEL
    ensures r.Parsed? ==> |r.rest| < |ts|
    decreases |ts|, 10 - level
  {
    if level == PRIMARY_LEVEL then ParsePrimary(ts)
    else if level == UNARY_LEVEL then
      if Head(ts) == Dash || Head(ts) == Exclamation then
        match ParseLevel(UNARY_LEVEL, ts[1..])
        case Rejected => Rejected
        case Parsed(operand, rest) => Parsed(Unary(if Head(ts) == Dash then Minus else Bang, operand), rest)
      else ParseLevel(PRIMARY_LEVEL, ts)
    else
      match ParseLevel(level + 1, ts)
      case Rejected => Rejected
      case Parsed(first, rest) => ParseOperators(level, first, rest)
  }

  /** Operators of one level associate to the left. */
  function ParseOperators(level: nat, left: Expression<i64>, ts: seq<Token>): (r: Parsed<Expression<i64>>)
    requires 1 <= level < UNARY_LEVEL
    ensures r.Parsed? ==> |r.rest| <= |ts|
    decreases |ts|, 0
  {
    match OperatorAt(level, Head(ts))
    case None => Parsed(left, ts)
    case Some(op) =>
      match ParseLevel(level + 1, ts[1..])
      case Rejected => Rejected
      case Parsed(right, rest) => ParseOperators(level, Binary(op, left, right), rest)
  }

  function ParsePrimary(ts: seq<Token>): (r: Parsed<Expression<i64>>)
    ensures r.Parsed? ==> |r.rest| < |ts|
    decreases |ts|, 1
  {
    match Head(ts)
    case IntegerToken(n) => Parsed(Integer(n), ts[1..])
    case KwTrue => Parsed(Boolean(true), ts[1..])
    case KwFalse => Parsed(Boolean(false), ts[1..])
    case TextToken(text) => Parsed(Text(text), ts[1..])
    case Identifier(name) =>
      if Head(ts[1..]) == LeftParen then
        match ParseArguments(ts[1..])
        case Rejected => Rejected
        case Parsed(arguments, rest) => Parsed(Call(name, arguments), rest)
      else Parsed(Variable(name), ts[1..])
    case LeftParen =>
      (match ParseLevel(1, ts[1..])
       case Rejected => Rejected
       case Parsed(e, rest) => if Head(rest) == RightParen then Parsed(e, rest[1..]) else Rejected)
    case _ => Rejected
  }

  /** A parenthesized argument list. */
  function ParseArguments(ts: seq<Token>): (r: Parsed<seq<Expression<i64>>>)
    ensures r.Parsed? ==> |r.rest| < |ts|
    decreases |ts|, 0
  {
    if Head(ts) != LeftParen then Rejected
    else if Head(ts[1..]) == RightParen then Parsed([], ts[2..])
    else
      match ParseArgumentList(ts[1..])
      case Rejected => Rejected
      case Parsed(arguments, rest) => if Head(rest) == RightParen then Parsed(arguments, rest[1..]) else Rejected
  }

  /** One or more expressions separated by commas. */
  function ParseArgumentList(ts: seq<Token>): (r: Parsed<seq<Expression<i64>>>)
    ensures r.Parsed? ==> |r.rest| < |ts|
    decreases |ts|, 11
  {
    match ParseLevel(1, ts)
    case Rejected => Rejected
    case Parsed(e, rest) =>
      if Head(rest) != Comma then Parsed([e], rest)
      else
        match ParseArgumentList(rest[1..])
        case Rejected => Rejected
        case Parsed(more, rest') => Parsed([e] + more, rest')
  }

  // ---------- types, labels, declarations ----------

  function ParseType(ts: seq<Token>): (r: Parsed<Type>)
    ensures r.Parsed? ==> |r.rest| < |ts|
  {
    match Head(ts)
    case KwI64 => Parsed(I64, ts[1..])
    case KwBool => Parsed(Bool, ts[1..])
    case KwString => Parsed(String, ts[1..])
    case KwUnit => Parsed(Unit, ts[1..])
    case _ => Rejected
  }

  /** An optional information label: flow [public], or flow [secret, tenant:name, purpose:name]. */
  function ParseLabel(ts: seq<Token>): (r: Parsed<Option<Label>>)
    ensures r.Parsed? ==> |r.rest| <= |ts|
  {
    if Head(ts) != Identifier("flow") then Parsed(None, ts)
    else if [LeftBracket, Identifier("public"), RightBracket] <= ts[1..] then Parsed(Some(Public), ts[4..])
    else if |ts| < 12 then Rejected
    else if ts[1..6] == [LeftBracket, Identifier("secret"), Comma, Identifier("tenant"), Colon] && ts[6].Identifier?
            && ts[7..10] == [Comma, Identifier("purpose"), Colon] && ts[10].Identifier? && ts[11] == RightBracket
    then Parsed(Some(Secret(ts[6].name, ts[10].name)), ts[12..])
    else Rejected
  }

  function ParseParameter(ts: seq<Token>): (r: Parsed<Parameter>)
    ensures r.Parsed? ==> |r.rest| < |ts|
  {
    if !Head(ts).Identifier? || Head(ts[1..]) != Colon then Rejected
    else
      match ParseType(ts[2..])
      case Rejected => Rejected
      case Parsed(ty, rest) =>
        match ParseLabel(rest)
        case Rejected => Rejected
        case Parsed(information, rest') => Parsed(Parameter(ts[0].name, ty, information), rest')
  }

  function ParseParameterList(ts: seq<Token>): (r: Parsed<seq<Parameter>>)
    ensures r.Parsed? ==> |r.rest| < |ts|
    decreases |ts|
  {
    match ParseParameter(ts)
    case Rejected => Rejected
    case Parsed(first, rest) =>
      if Head(rest) != Comma then Parsed([first], rest)
      else
        match ParseParameterList(rest[1..])
        case Rejected => Rejected
        case Parsed(more, rest') => Parsed([first] + more, rest')
  }

  function ParseNameList(ts: seq<Token>): (r: Parsed<seq<string>>)
    ensures r.Parsed? ==> |r.rest| < |ts|
    decreases |ts|
  {
    if !Head(ts).Identifier? then Rejected
    else if Head(ts[1..]) != Comma then Parsed([ts[0].name], ts[1..])
    else
      match ParseNameList(ts[2..])
      case Rejected => Rejected
      case Parsed(more, rest) => Parsed([ts[0].name] + more, rest)
  }

  function ParseAuthorityList(ts: seq<Token>): (r: Parsed<seq<Authority>>)
    ensures r.Parsed? ==> |r.rest| < |ts|
    decreases |ts|
  {
    if |ts| < 3 || !ts[0].Identifier? || ts[1] != Colon || !ts[2].Identifier? then Rejected
    else
      var first := Authority(ts[0].name, ts[2].name);
      if Head(ts[3..]) != Comma then Parsed([first], ts[3..])
      else
        match ParseAuthorityList(ts[4..])
        case Rejected => Rejected
        case Parsed(more, rest) => Parsed([first] + more, rest)
  }

  function ParseParameters(ts: seq<Token>): (r: Parsed<seq<Parameter>>)
    ensures r.Parsed? ==> |r.rest| < |ts|
  {
    if Head(ts) != LeftParen then Rejected
    else if Head(ts[1..]) == RightParen then Parsed([], ts[2..])
    else
      match ParseParameterList(ts[1..])
      case Rejected => Rejected
      case Parsed(items, rest) => if Head(rest) == RightParen then Parsed(items, rest[1..]) else Rejected
  }

  function ParseEffects(ts: seq<Token>): (r: Parsed<seq<string>>)
    ensures r.Parsed? ==> |r.rest| < |ts|
  {
    if Head(ts) != LeftBracket then Rejected
    else if Head(ts[1..]) == RightBracket then Parsed([], ts[2..])
    else
      match ParseNameList(ts[1..])
      case Rejected => Rejected
      case Parsed(items, rest) => if Head(rest) == RightBracket then Parsed(items, rest[1..]) else Rejected
  }

  function ParseAuthorities(ts: seq<Token>): (r: Parsed<Option<seq<Authority>>>)
    ensures r.Parsed? ==> |r.rest| <= |ts|
  {
    if Head(ts) != Identifier("authorities") then Parsed(None, ts)
    else if Head(ts[1..]) != LeftBracket then Rejected
    else if Head(ts[2..]) == RightBracket then Parsed(Some([]), ts[3..])
    else
      match ParseAuthorityList(ts[2..])
      case Rejected => Rejected
      case Parsed(items, rest) => if Head(rest) == RightBracket then Parsed(Some(items), rest[1..]) else Rejected
  }

  // ---------- statements ----------

  function ParseLet(ts: seq<Token>): (r: Parsed<Statement<i64>>)
    ensures r.Parsed? ==> |r.rest| < |ts|
  {
    if Head(ts) != KwLet || !Head(ts[1..]).Identifier? || Head(ts[2..]) != Colon then Rejected
    else
      match ParseType(ts[3..])
      case Rejected => Rejected
      case Parsed(ty, r1) =>
        match ParseLabel(r1)
        case Rejected => Rejected
        case Parsed(information, r2) =>
          if Head(r2) != Assign then Rejected
          else
            match ParseLevel(1, r2[1..])
            case Rejected => Rejected
            case Parsed(value, r3) =>
              if Head(r3) != Semicolon then Rejected
              else Parsed(LetStatement(ts[1].name, ty, information, value), r3[1..])
  }

  function ParseReturn(ts: seq<Token>): (r: Parsed<Statement<i64>>)
    ensures r.Parsed? ==> |r.rest| < |ts|
  {
    if Head(ts) != KwReturn then Rejected
    else if Head(ts[1..]) == Semicolon then Parsed(ReturnStatement(None), ts[2..])
    else
      match ParseLevel(1, ts[1..])
      case Rejected => Rejected
      case Parsed(value, rest) =>
        if Head(rest) != Semicolon then Rejected else Parsed(ReturnStatement(Some(value)), rest[1..])
  }

  /** An optional authority slot: using name. */
  function ParseUsing(ts: seq<Token>): (r: Parsed<Option<string>>)
    ensures r.Parsed? ==> |r.rest| <= |ts|
  {
    if Head(ts) != Identifier("using") then Parsed(None, ts)
    else if !Head(ts[1..]).Identifier? then Rejected
    else Parsed(Some(ts[1].name), ts[2..])
  }

  function ParseRequest(ts: seq<Token>): (r: Parsed<Statement<i64>>)
    ensures r.Parsed? ==> |r.rest| < |ts|
  {
    if Head(ts) != KwRequest || !Head(ts[1..]).Identifier? then Rejected
    else
      match ParseArguments(ts[2..])
      case Rejected => Rejected
      case Parsed(arguments, r1) =>
        match ParseUsing(r1)
        case Rejected => Rejected
        case Parsed(authority, r2) =>
          match ParseLabel(r2)
          case Rejected => Rejected
          case Parsed(information, r3) =>
            if Head(r3) != Semicolon then Rejected
            else Parsed(RequestStatement(ts[1].name, authority, information, arguments), r3[1..])
  }

  function ParseStatement(ts: seq<Token>): (r: Parsed<Statement<i64>>)
    ensures r.Parsed? ==> |r.rest| < |ts|
  {
    match Head(ts)
    case KwLet => ParseLet(ts)
    case KwReturn => ParseReturn(ts)
    case KwRequest => ParseRequest(ts)
    case _ =>
      match ParseLevel(1, ts)
      case Rejected => Rejected
      case Parsed(e, rest) => if Head(rest) != Semicolon then Rejected else Parsed(ExpressionStatement(e), rest[1..])
  }

  /** Statements up to the closing brace. */
  function ParseStatements(ts: seq<Token>): (r: Parsed<seq<Statement<i64>>>)
    ensures r.Parsed? ==> |r.rest| < |ts|
    decreases |ts|
  {
    if Head(ts) == RightBrace then Parsed([], ts[1..])
    else if Head(ts) == Eof then Rejected
    else
      match ParseStatement(ts)
      case Rejected => Rejected
      case Parsed(s, rest) =>
        match ParseStatements(rest)
        case Rejected => Rejected
        case Parsed(more, rest') => Parsed([s] + more, rest')
  }

  function ParseBlock(ts: seq<Token>): (r: Parsed<seq<Statement<i64>>>)
    ensures r.Parsed? ==> |r.rest| < |ts|
  {
    if Head(ts) != LeftBrace then Rejected else ParseStatements(ts[1..])
  }

  // ---------- functions and programs ----------

  // What comes before the effect row, and what comes from there on.
  datatype Signature = Signature(name: string, parameters: seq<Parameter>, returnType: Type, returnInformation: Option<Label>)

  datatype Rows = Rows(effects: seq<string>, authorities: Option<seq<Authority>>)

  function ParseSignature(ts: seq<Token>): (r: Parsed<Signature>)
    ensures r.Parsed? ==> |r.rest| < |ts|
  {
    if Head(ts) != KwFn || !Head(ts[1..]).Identifier? then Rejected
    else
      match ParseParameters(ts[2..])
      case Rejected => Rejected
      case Parsed(parameters, r1) =>
        if Head(r1) != Arrow then Rejected
        else
          match ParseType(r1[1..])
          case Rejected => Rejected
          case Parsed(returnType, r2) =>
            match ParseLabel(r2)
            case Rejected => Rejected
            case Parsed(information, r3) => Parsed(Signature(ts[1].name, parameters, returnType, information), r3)
  }

  function ParseRows(ts: seq<Token>): (r: Parsed<Rows>)
    ensures r.Parsed? ==> |r.rest| < |ts|
  {
    if Head(ts) != KwEffects then Rejected
    else
      match ParseEffects(ts[1..])
      case Rejected => Rejected
      case Parsed(effects, r1) =>
        match ParseAuthorities(r1)
        case Rejected => Rejected
        case Parsed(authorities, r2) => Parsed(Rows(effects, authorities), r2)
  }

  function ParseFunction(ts: seq<Token>): (r: Parsed<Function<i64>>)
    ensures r.Parsed? ==> |r.rest| < |ts|
  {
    match ParseSignature(ts)
    case Rejected => Rejected
    case Parsed(s, r1) =>
      match ParseRows(r1)
      case Rejected => Rejected
      case Parsed(rows, r2) =>
        match ParseBlock(r2)
        case Rejected => Rejected
        case Parsed(body, r3) =>
          Parsed(Function(s.name, s.parameters, s.returnType, s.returnInformation, rows.effects, rows.authorities, body), r3)
  }

  function ParseFunctions(ts: seq<Token>): (r: Parsed<seq<Function<i64>>>)
    decreases |ts|
  {
    if Head(ts) == Eof then Parsed([], ts)
    else
      match ParseFunction(ts)
      case Rejected => Rejected
      case Parsed(f, rest) =>
        match ParseFunctions(rest)
        case Rejected => Rejected
        case Parsed(more, rest') => Parsed([f] + more, rest')
  }

  /** A module: its name, its profile, and at least one function. */
  function ParseModule(ts: seq<Token>): Option<Program> {
    if Head(ts) != KwModule || !Head(ts[1..]).Identifier? then None
    else
      var flow := Head(ts[2..]) == Identifier("flow");
      var r := if flow then ts[3..] else ts[2..];
      if Head(r) != Semicolon then None
      else
        match ParseFunctions(r[1..])
        case Rejected => None
        case Parsed(functions, _) => if functions == [] then None else Some(Program(flow, ts[1].name, functions))
  }

  /** What parse accepts. */
  function ParseSource(source: string): Option<Program> {
    match Lex(source)
    case None => None
    case Some(tokens) => ParseModule(tokens)
  }
}
