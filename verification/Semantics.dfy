// What a canonical program means: a strict, left-to-right big-step evaluation
// that knows nothing of stacks, slots or budgets. A call may nest at most k
// deep; Correctness shows that any k from the number of functions on is enough.
module Semantics {
  import opened Prelude
  import opened Ast
  import opened Bytecode
  import opened Machine

  // One recorded request, without the numbering that the machine adds.
  datatype Event = Event(function_: string, effect: string, authority: Option<string>,
                         information: Option<Label>, arguments: seq<Value>)

  // A request may be too large to be identified. Stuck is a type, name or profile error, which
  // checked programs never meet.
  datatype Stop = ArithmeticStop(failure: ArithmeticFailure) | UnencodableStop | Stuck | TooDeep

  datatype Outcome<T> = Finished(result: T, log: seq<Event>) | Stopped(stop: Stop)

  type Env = map<string, Value>

  /** The position of each function name; of equal names the last one counts. */
  function FunctionIndexes<N>(functions: seq<Function<N>>): (r: map<string, nat>)
    ensures forall name :: name in r ==> r[name] < |functions| && functions[r[name]].name == name
  {
    if functions == [] then map[]
    else
      var n := |functions| - 1;
      FunctionIndexes(functions[..n])[functions[n].name := n]
  }

  /** Arithmetic over the integers, stopped when the result is not an i64. */
  function Exact(n: int, failure: ArithmeticFailure): Result<Value, Stop> {
    if InI64(n) then Ok(IntValue(n)) else Err(ArithmeticStop(failure))
  }

  function EvalUnary(op: UnaryOperator, v: Value): Result<Value, Stop> {
    match (op, v)
    case (Minus, IntValue(n)) => Exact(0 - n, NegationOverflow)
    case (Bang, BoolValue(b)) => Ok(BoolValue(!b))
    case (_, _) => Err(Stuck)
  }

  /** The quotient toward zero exists and is an i64. */
  predicate Divisible(l: int, r: int) {
    r != 0 && InI64(TruncDiv(l, r))
  }

  function EvalIntegers(op: BinaryOperator, l: i64, r: i64): Result<Value, Stop> {
    match op
    case Add => Exact(l + r, AdditionFailed)
    case Subtract => Exact(l - r, SubtractionFailed)
    case Multiply => Exact(l * r, MultiplicationFailed)
    case Divide => if Divisible(l, r) then Exact(TruncDiv(l, r), DivisionFailed) else Err(ArithmeticStop(DivisionFailed))
    case Remainder => if Divisible(l, r) then Exact(TruncRem(l, r), RemainderFailed) else Err(ArithmeticStop(RemainderFailed))
    case Less => Ok(BoolValue(l < r))
    case LessEqual => Ok(BoolValue(l <= r))
    case Greater => Ok(BoolValue(l > r))
    case GreaterEqual => Ok(BoolValue(l >= r))
    case _ => Err(Stuck)
  }

  /** Both operands are already values: && and || do not short-circuit. */
  function EvalBinary(op: BinaryOperator, l: Value, r: Value): Result<Value, Stop> {
    if op.Equal? then Ok(BoolValue(l == r))
    else if op.NotEqual? then Ok(BoolValue(l != r))
    else
      match (l, r)
      case (IntValue(m), IntValue(n)) => EvalIntegers(op, m, n)
      case (BoolValue(a), BoolValue(b)) =>
        if op.And? then Ok(BoolValue(a && b)) else if op.Or? then Ok(BoolValue(a || b)) else Err(Stuck)
      case (_, _) => Err(Stuck)
  }

  function Apply(result: Result<Value, Stop>, log: seq<Event>): Outcome<Value> {
    match result
    case Ok(v) => Finished(v, log)
    case Err(stop) => Stopped(stop)
  }

  function Bind(parameters: seq<Parameter>, arguments: seq<Value>): Env
    requires |parameters| == |arguments|
  {
    if parameters == [] then map[]
    else
      var n := |parameters| - 1;
      Bind(parameters[..n], arguments[..n])[parameters[n].name := arguments[n]]
  }

  ghost function EvalExpression(ast: CanonicalProgram, env: Env, e: Expression<string>, log: seq<Event>, k: nat): Outcome<Value>
    decreases k, 1, e, 1
  {
    match e
    case Integer(text) =>
      (match ParseI64(text)
       case Some(n) => Finished(IntValue(n), log)
       case None => Stopped(Stuck))
    case Boolean(b) => Finished(BoolValue(b), log)
    case Text(s) => Finished(TextValue(s), log)
    case Variable(name) => if name in env then Finished(env[name], log) else Stopped(Stuck)
    case Unary(op, operand) =>
      (match EvalExpression(ast, env, operand, log, k)
       case Finished(v, log1) => Apply(EvalUnary(op, v), log1)
       case Stopped(stop) => Stopped(stop))
    case Binary(op, left, right) =>
      (match EvalExpression(ast, env, left, log, k)
       case Stopped(stop) => Stopped(stop)
       case Finished(l, log1) =>
         match EvalExpression(ast, env, right, log1, k)
         case Stopped(stop) => Stopped(stop)
         case Finished(r, log2) => Apply(EvalBinary(op, l, r), log2))
    case Call(callee, arguments) =>
      (match EvalArguments(ast, env, arguments, log, k)
       case Stopped(stop) => Stopped(stop)
       case Finished(values, log1) =>
         if callee !in FunctionIndexes(ast.functions) then Stopped(Stuck)
         else if k == 0 then Stopped(TooDeep)
         else EvalFunction(ast, FunctionIndexes(ast.functions)[callee], values, log1, k - 1))
  }

  ghost function EvalArguments(ast: CanonicalProgram, env: Env, es: seq<Expression<string>>, log: seq<Event>, k: nat): (r: Outcome<seq<Value>>)
    ensures r.Finished? ==> |r.result| == |es|
    decreases k, 1, es, 0
  {
    if es == [] then Finished([], log)
    else
      match EvalExpression(ast, env, es[0], log, k)
      case Stopped(stop) => Stopped(stop)
      case Finished(v, log1) =>
        match EvalArguments(ast, env, es[1..], log1, k)
        case Stopped(stop) => Stopped(stop)
        case Finished(vs, log2) => Finished([v] + vs, log2)
  }

  /** What identifies the request that is recorded next. */
  function EventId(ast: CanonicalProgram, e: Event, index: nat): Option<RequestId> {
    ProfileId(ast.schema, IdentityOf(ast).digest, index, e.function_, e.effect, e.authority, e.information, e.arguments)
  }

  /** Recording a request takes the slot and the label of the profile, and an encoding within the bounds. */
  ghost function Recorded(ast: CanonicalProgram, env: Env, e: Event, log: seq<Event>): Progress {
    match EventId(ast, e, |log|)
    case None => Halts(Stuck)
    case Some(id) => if IdEncodes(id) then Continues(env, log + [e]) else Halts(UnencodableStop)
  }

  // A statement goes on, returns from the function, or stops.
  datatype Progress = Continues(env: Env, log: seq<Event>) | Returns(result: Value, log: seq<Event>) | Halts(stop: Stop)

  ghost function EvalStatement(ast: CanonicalProgram, name: string, env: Env, s: Statement<string>, log: seq<Event>, k: nat): Progress
    decreases k, 2, 0
  {
    match s
    case LetStatement(x, _, _, value) =>
      (match EvalExpression(ast, env, value, log, k)
       case Stopped(stop) => Halts(stop)
       case Finished(v, log1) => Continues(env[x := v], log1))
    case ReturnStatement(None) => Returns(UnitValue, log)
    case ReturnStatement(Some(e)) =>
      (match EvalExpression(ast, env, e, log, k)
       case Stopped(stop) => Halts(stop)
       case Finished(v, log1) => Returns(v, log1))
    case RequestStatement(effect, authority, information, arguments) =>
      (match EvalArguments(ast, env, arguments, log, k)
       case Stopped(stop) => Halts(stop)
       case Finished(values, log1) =>
         Recorded(ast, env, Event(name, effect, authority, information, values), log1))
    case ExpressionStatement(e) =>
      (match EvalExpression(ast, env, e, log, k)
       case Stopped(stop) => Halts(stop)
       case Finished(_, log1) => Continues(env, log1))
  }

  ghost function EvalBody(ast: CanonicalProgram, name: string, env: Env, body: seq<Statement<string>>, log: seq<Event>, k: nat): Outcome<Value>
    decreases k, 3, |body|
  {
    if body == [] then Stopped(Stuck)
    else
      match EvalStatement(ast, name, env, body[0], log, k)
      case Continues(env1, log1) => EvalBody(ast, name, env1, body[1..], log1, k)
      case Returns(v, log1) => Finished(v, log1)
      case Halts(stop) => Stopped(stop)
  }

  ghost function EvalFunction(ast: CanonicalProgram, f: nat, arguments: seq<Value>, log: seq<Event>, k: nat): Outcome<Value>
    requires f < |ast.functions|
    decreases k, 4
  {
    var function_ := ast.functions[f];
    if |arguments| != |function_.parameters| then Stopped(Stuck)
    else EvalBody(ast, function_.name, Bind(function_.parameters, arguments), function_.body, log, k)
  }
}
