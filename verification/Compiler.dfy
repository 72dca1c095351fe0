// Code generation. The functions are the pure form of the emitter that
// joan-bytecode runs independently; class Emitter is the one of joan-compiler,
// which appends to its instruction list, and is proved to produce the same code.
module Compiler {
  import opened Prelude
  import opened Ast
  import opened Bytecode
  import opened Semantics

  type Slots = map<string, nat>

  /** Each slot is below the number of slots handed out. */
  predicate Tight(slots: Slots) {
    forall x :: x in slots ==> slots[x] < |slots|
  }

  function BinaryInstruction(op: BinaryOperator): Instruction {
    Operate(match op
            case Add => AddI64
            case Subtract => SubI64
            case Multiply => MulI64
            case Divide => DivI64
            case Remainder => RemI64
            case Equal => EqualAny
            case NotEqual => NotEqualAny
            case Less => LessI64
            case LessEqual => LessEqualI64
            case Greater => GreaterI64
            case GreaterEqual => GreaterEqualI64
            case And => AndBool
            case Or => OrBool)
  }

  function UnaryInstruction(op: UnaryOperator): Instruction {
    match op
    case Minus => Negate
    case Bang => Not
  }

  function Emit(e: Expression<string>, slots: Slots, indexes: map<string, nat>): Option<seq<Instruction>>
    decreases e, 1
  {
    match e
    case Integer(text) =>
      (match ParseI64(text)
       case Some(n) => Some([Push(IntValue(n))])
       case None => None)
    case Boolean(b) => Some([Push(BoolValue(b))])
    case Text(s) => Some([Push(TextValue(s))])
    case Variable(name) => if name in slots then Some([LoadLocal(slots[name])]) else None
    case Unary(op, operand) =>
      (match Emit(operand, slots, indexes)
       case None => None
       case Some(code) => Some(code + [UnaryInstruction(op)]))
    case Binary(op, left, right) =>
      (match (Emit(left, slots, indexes), Emit(right, slots, indexes))
       case (Some(c1), Some(c2)) => Some(c1 + c2 + [BinaryInstruction(op)])
       case (_, _) => None)
    case Call(callee, arguments) =>
      (match EmitAll(arguments, slots, indexes)
       case None => None
       case Some(code) =>
         if callee in indexes then Some(code + [Invoke(indexes[callee], |arguments|)]) else None)
  }

  function EmitAll(es: seq<Expression<string>>, slots: Slots, indexes: map<string, nat>): Option<seq<Instruction>>
    decreases es, 0
  {
    if es == [] then Some([])
    else
      match (Emit(es[0], slots, indexes), EmitAll(es[1..], slots, indexes))
      case (Some(c1), Some(c2)) => Some(c1 + c2)
      case (_, _) => None
  }

  function EmitStatement(s: Statement<string>, slots: Slots, indexes: map<string, nat>): Option<seq<Instruction>> {
    match s
    case LetStatement(_, _, _, value) =>
      (match Emit(value, slots, indexes)
       case None => None
       case Some(code) => Some(code + [StoreLocal(|slots|)]))
    case ReturnStatement(None) => Some([Push(UnitValue), Return])
    case ReturnStatement(Some(e)) =>
      (match Emit(e, slots, indexes)
       case None => None
       case Some(code) => Some(code + [Return]))
    case RequestStatement(effect, authority, information, arguments) =>
      (match EmitAll(arguments, slots, indexes)
       case None => None
       case Some(code) => Some(code + [Request(effect, authority, information, |arguments|)]))
    case ExpressionStatement(e) =>
      (match Emit(e, slots, indexes)
       case None => None
       case Some(code) => Some(code + [Pop]))
  }

  /** A let binding takes the next slot. */
  function SlotsAfter(s: Statement<string>, slots: Slots): Slots {
    if s.LetStatement? then slots[s.name := |slots|] else slots
  }

  function EmitBody(body: seq<Statement<string>>, slots: Slots, indexes: map<string, nat>): Option<seq<Instruction>> {
    if body == [] then Some([])
    else
      match (EmitStatement(body[0], slots, indexes), EmitBody(body[1..], SlotsAfter(body[0], slots), indexes))
      case (Some(c1), Some(c2)) => Some(c1 + c2)
      case (_, _) => None
  }

  function ParameterSlots(parameters: seq<Parameter>): Slots {
    if parameters == [] then map[]
    else
      var n := |parameters| - 1;
      ParameterSlots(parameters[..n])[parameters[n].name := n]
  }

  function ParameterTypes(parameters: seq<Parameter>): (r: seq<Type>)
    ensures |r| == |parameters|
    ensures forall i :: 0 <= i < |r| ==> r[i] == parameters[i].valueType
  {
    seq(|parameters|, i requires 0 <= i < |parameters| => parameters[i].valueType)
  }

  function ParameterLabels(parameters: seq<Parameter>): Option<seq<Label>> {
    if parameters == [] then Some([])
    else
      match (parameters[0].information, ParameterLabels(parameters[1..]))
      case (Some(l), Some(rest)) => Some([l] + rest)
      case (_, _) => None
  }

  function LetTypes(body: seq<Statement<string>>): seq<Type> {
    if body == [] then []
    else (if body[0].LetStatement? then [body[0].valueType] else []) + LetTypes(body[1..])
  }

  function LetLabels(body: seq<Statement<string>>): Option<seq<Label>> {
    if body == [] then Some([])
    else if !body[0].LetStatement? then LetLabels(body[1..])
    else
      match (body[0].information, LetLabels(body[1..]))
      case (Some(l), Some(rest)) => Some([l] + rest)
      case (_, _) => None
  }

  /** Everything but the code: frame tables, labels, signature and slots. */
  function Header(f: Function<string>): Option<BytecodeFunction> {
    var flow := f.returnInformation.Some?;
    var parameterLabels := ParameterLabels(f.parameters);
    var letLabels := LetLabels(f.body);
    var types := ParameterTypes(f.parameters);
    if flow && (parameterLabels.None? || letLabels.None?) then None
    else
      Some(BytecodeFunction(
             f.name,
             |types|, types,
             if flow then parameterLabels else None,
             |types| + |LetTypes(f.body)|, types + LetTypes(f.body),
             if flow then Some(parameterLabels.value + letLabels.value) else None,
             f.returnType, f.returnInformation, f.effects, f.authorities, []))
  }

  function CompileFunction(f: Function<string>, indexes: map<string, nat>): Option<BytecodeFunction> {
    match (Header(f), EmitBody(f.body, ParameterSlots(f.parameters), indexes))
    case (Some(header), Some(code)) => Some(header.(instructions := code))
    case (_, _) => None
  }

  function CompileFunctions(fs: seq<Function<string>>, indexes: map<string, nat>): (r: Option<seq<BytecodeFunction>>)
    ensures r.Some? ==> |r.value| == |fs|
    ensures r.Some? ==> forall i :: 0 <= i < |fs| ==> CompileFunction(fs[i], indexes) == Some(r.value[i])
  {
    if fs == [] then Some([])
    else
      match (CompileFunction(fs[0], indexes), CompileFunctions(fs[1..], indexes))
      case (Some(f), Some(rest)) => Some([f] + rest)
      case (_, _) => None
  }

  /** Bytecode for a canonical tree, bound to the tree's identity. */
  function CompileCanonical(ast: CanonicalProgram): Option<BytecodeProgram> {
    var indexes := FunctionIndexes(ast.functions);
    if "main" !in indexes then None
    else
      match CompileFunctions(ast.functions, indexes)
      case None => None
      case Some(functions) =>
        var identity := IdentityOf(ast);
        Some(BytecodeProgram(ast.schema, ast.moduleName, identity.digest, identity, ast, indexes["main"], functions))
  }
}
