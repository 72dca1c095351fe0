// The static rules of joan-check: for each construct, the value it has and how
// many diagnostics the checker reports for it. A program is accepted when there
// are none and its call graph has no cycle.
module CheckRules {
  import opened Prelude
  import opened CallGraph
  import opened Ast

  const CHECK_MAX_FUNCTIONS: nat := 1024
  const CHECK_MAX_PARAMETERS: nat := 64
  const CHECK_MAX_STATEMENTS: nat := 100_000

  datatype ValueInfo = ValueInfo(ty: Type, information: Label)

  datatype Signature = Signature(parameters: seq<ValueInfo>, returnValue: ValueInfo, effects: set<string>)

  type Signatures = map<string, Signature>

  type Locals = map<string, ValueInfo>

  // What an expression check reports: the value, if it has one, and the number of diagnostics.
  datatype Typed = Typed(info: Option<ValueInfo>, errors: nat)

  function One(b: bool): nat {
    if b then 1 else 0
  }

  function InfoOf(parameter: Parameter): ValueInfo {
    ValueInfo(parameter.valueType, LabelOr(parameter.information))
  }

  function InfosOf(parameters: seq<Parameter>): (r: seq<ValueInfo>)
    ensures |r| == |parameters|
    ensures forall i :: 0 <= i < |r| ==> r[i] == InfoOf(parameters[i])
  {
    seq(|parameters|, i requires 0 <= i < |parameters| => InfoOf(parameters[i]))
  }

  function EffectSet(effects: seq<string>): set<string> {
    set e | e in effects
  }

  function SignatureOf(f: Function<i64>): Signature {
    Signature(InfosOf(f.parameters), ValueInfo(f.returnType, LabelOr(f.returnInformation)), EffectSet(f.effects))
  }

  /** A later declaration replaces an earlier one of the same name. */
  function SignaturesOf(functions: seq<Function<i64>>): Signatures {
    if functions == [] then map[]
    else
      var n := |functions| - 1;
      SignaturesOf(functions[..n])[functions[n].name := SignatureOf(functions[n])]
  }

  /** How many entries repeat an earlier one. */
  function Repeats(names: seq<string>): nat {
    if names == [] then 0
    else
      var n := |names| - 1;
      Repeats(names[..n]) + One(names[n] in names[..n])
  }

  // ---------- expressions ----------

  function RequireType(expected: Type, actual: Option<ValueInfo>): nat {
    One(actual.Some? && actual.value.ty != expected)
  }

  function RequireFlow(flow: bool, actual: Option<ValueInfo>, destination: Label): nat {
    One(flow && actual.Some? && !actual.value.information.CanFlowTo(destination))
  }

  function LabelOfInfo(info: Option<ValueInfo>): Label {
    if info.Some? then info.value.information else Public
  }

  function OperandType(op: UnaryOperator): Type {
    if op.Minus? then I64 else Bool
  }

  predicate TakesIntegers(op: BinaryOperator) {
    op.Add? || op.Subtract? || op.Multiply? || op.Divide? || op.Remainder?
    || op.Less? || op.LessEqual? || op.Greater? || op.GreaterEqual?
  }

  predicate GivesInteger(op: BinaryOperator) {
    op.Add? || op.Subtract? || op.Multiply? || op.Divide? || op.Remainder?
  }

  function BinaryRule(op: BinaryOperator, left: Option<ValueInfo>, right: Option<ValueInfo>): Typed {
    var typeErrors :=
      if TakesIntegers(op) then RequireType(I64, left) + RequireType(I64, right)
      else if op.And? || op.Or? then RequireType(Bool, left) + RequireType(Bool, right)
      else One(left.Some? && right.Some? && left.value.ty != right.value.ty);
    var joined := LabelOfInfo(left).Join(LabelOfInfo(right));
    var information := if joined.Some? then joined.value else Public;
    Typed(Some(ValueInfo(if GivesInteger(op) then I64 else Bool, information)),
          typeErrors + One(joined.None?))
  }

  function TypeExpression(sigs: Signatures, flow: bool, effects: set<string>, locals: Locals, e: Expression<i64>): Typed
    decreases e, 1
  {
    match e
    case Integer(_) => Typed(Some(ValueInfo(I64, Public)), 0)
    case Boolean(_) => Typed(Some(ValueInfo(Bool, Public)), 0)
    case Text(_) => Typed(Some(ValueInfo(String, Public)), 0)
    case Variable(name) => if name in locals then Typed(Some(locals[name]), 0) else Typed(None, 1)
    case Unary(op, operand) =>
      var t := TypeExpression(sigs, flow, effects, locals, operand);
      Typed(Some(ValueInfo(OperandType(op), LabelOfInfo(t.info))), t.errors + RequireType(OperandType(op), t.info))
    case Binary(op, left, right) =>
      var l := TypeExpression(sigs, flow, effects, locals, left);
      var r := TypeExpression(sigs, flow, effects, locals, right);
      var t := BinaryRule(op, l.info, r.info);
      Typed(t.info, l.errors + r.errors + t.errors)
    case Call(callee, arguments) =>
      if callee !in sigs then Typed(None, 1 + TypeArguments(sigs, flow, effects, locals, arguments, []))
      else
        var sig := sigs[callee];
        Typed(Some(sig.returnValue),
              One(|arguments| != |sig.parameters|)
              + TypeArguments(sigs, flow, effects, locals, arguments, sig.parameters)
              + |sig.effects - effects|)
  }

  /** Diagnostics of an argument list against the parameters still expected. */
  function TypeArguments(sigs: Signatures, flow: bool, effects: set<string>, locals: Locals, es: seq<Expression<i64>>,
                         expected: seq<ValueInfo>): nat
    decreases es, 0
  {
    if es == [] then 0
    else
      var t := TypeExpression(sigs, flow, effects, locals, es[0]);
      var mismatch :=
        if expected == [] then 0
        else RequireType(expected[0].ty, t.info) + RequireFlow(flow, t.info, expected[0].information);
      t.errors + mismatch +
      TypeArguments(sigs, flow, effects, locals, es[1..], if expected == [] then [] else expected[1..])
  }

  /** Arguments of a request all flow into the sink. */
  function SinkArguments(sigs: Signatures, flow: bool, effects: set<string>, locals: Locals, es: seq<Expression<i64>>, sink: Label): nat {
    if es == [] then 0
    else
      var t := TypeExpression(sigs, flow, effects, locals, es[0]);
      t.errors + RequireFlow(flow, t.info, sink) + SinkArguments(sigs, flow, effects, locals, es[1..], sink)
  }

  // ---------- functions ----------

  // What the rules of a body look up, apart from its locals.
  datatype Scope = Scope(
    sigs: Signatures,
    flow: bool,
    linear: bool,
    effects: set<string>,
    slots: map<string, string>,
    returnType: Type,
    returnLabel: Label)

  // Progress through a body: diagnostics so far, locals in scope, slots not used yet.
  datatype BodyState = BodyState(errors: nat, locals: Locals, available: set<string>, returned: bool)

  function CheckReturn(scope: Scope, locals: Locals, result: Option<Expression<i64>>): nat {
    match result
    case None => One(scope.returnType != Unit)
    case Some(e) =>
      if scope.returnType == Unit then 1
      else
        var t := TypeExpression(scope.sigs, scope.flow, scope.effects, locals, e);
        t.errors + RequireType(scope.returnType, t.info) + RequireFlow(scope.flow, t.info, scope.returnLabel)
  }

  function CheckRequest(scope: Scope, s: Statement<i64>, b: BodyState): BodyState
    requires s.RequestStatement?
  {
    var errors := One(s.effect !in scope.effects) +
                  SinkArguments(scope.sigs, scope.flow, scope.effects, b.locals, s.arguments, LabelOr(s.information));
    if !scope.linear then b.(errors := b.errors + errors)
    else if s.authority.None? || s.authority.value !in scope.slots
            || scope.slots[s.authority.value] != s.effect || s.authority.value !in b.available then
      b.(errors := b.errors + errors + 1)
    else
      b.(errors := b.errors + errors, available := b.available - {s.authority.value})
  }

  function CheckLet(scope: Scope, s: Statement<i64>, b: BodyState): BodyState
    requires s.LetStatement?
  {
    var t := TypeExpression(scope.sigs, scope.flow, scope.effects, b.locals, s.value);
    var destination := LabelOr(s.information);
    var errors := One(s.valueType == Unit) + t.errors + RequireType(s.valueType, t.info)
                  + RequireFlow(scope.flow, t.info, destination) + One(s.name in b.locals);
    b.(errors := b.errors + errors, locals := b.locals[s.name := ValueInfo(s.valueType, destination)])
  }

  function CheckStatement(scope: Scope, s: Statement<i64>, b: BodyState): BodyState {
    if b.returned then b.(errors := b.errors + 1)
    else
      match s
      case LetStatement(_, _, _, _) => CheckLet(scope, s, b)
      case ReturnStatement(result) =>
        b.(errors := b.errors + CheckReturn(scope, b.locals, result), returned := true)
      case RequestStatement(_, _, _, _) => CheckRequest(scope, s, b)
      case ExpressionStatement(e) =>
        b.(errors := b.errors + TypeExpression(scope.sigs, scope.flow, scope.effects, b.locals, e).errors)
  }

  function CheckStatements(scope: Scope, body: seq<Statement<i64>>, b: BodyState): BodyState {
    if body == [] then b else CheckStatements(scope, body[1..], CheckStatement(scope, body[0], b))
  }

  function ParameterLocals(parameters: seq<Parameter>): Locals {
    if parameters == [] then map[]
    else
      var n := |parameters| - 1;
      ParameterLocals(parameters[..n])[parameters[n].name := InfoOf(parameters[n])]
  }

  function ParameterNames(parameters: seq<Parameter>): (r: seq<string>)
    ensures |r| == |parameters|
    ensures forall i :: 0 <= i < |r| ==> r[i] == parameters[i].name
  {
    seq(|parameters|, i requires 0 <= i < |parameters| => parameters[i].name)
  }

  function UnitParameters(parameters: seq<Parameter>): nat {
    if parameters == [] then 0 else One(parameters[0].valueType == Unit) + UnitParameters(parameters[1..])
  }

  function UndeclaredEffects(items: seq<Authority>, effects: set<string>): nat {
    if items == [] then 0 else One(items[0].effect !in effects) + UndeclaredEffects(items[1..], effects)
  }

  /** Slots of a function: nothing outside the linear profile, an error if they are missing inside it. */
  function DeclaredSlots(linear: bool, f: Function<i64>): seq<Authority> {
    if linear && f.authorities.Some? then f.authorities.value else []
  }

  function ScopeOf(sigs: Signatures, flow: bool, linear: bool, f: Function<i64>): Scope {
    Scope(sigs, flow, linear, EffectSet(f.effects), AuthorityMap(DeclaredSlots(linear, f)),
          f.returnType, LabelOr(f.returnInformation))
  }

  function InitialBody(linear: bool, f: Function<i64>): BodyState {
    BodyState(0, ParameterLocals(f.parameters), AuthorityMap(DeclaredSlots(linear, f)).Keys, false)
  }

  function HeaderErrors(linear: bool, f: Function<i64>): nat {
    var slots := DeclaredSlots(linear, f);
    Repeats(AuthorityNames(slots)) + UndeclaredEffects(slots, EffectSet(f.effects))
    + UnitParameters(f.parameters) + Repeats(ParameterNames(f.parameters))
  }

  function CheckFunction(sigs: Signatures, flow: bool, linear: bool, f: Function<i64>): nat {
    if linear && f.authorities.None? then 1
    else if f.body == [] then HeaderErrors(linear, f) + 1
    else
      var b := CheckStatements(ScopeOf(sigs, flow, linear, f), f.body, InitialBody(linear, f));
      HeaderErrors(linear, f) + b.errors + One(!b.returned) + (if linear then |b.available| else 0)
  }

  // ---------- declarations ----------

  /** Labels are present everywhere in a flow module and nowhere else. */
  function ShapeError(flow: bool, information: Option<Label>): nat {
    One(flow != information.Some?)
  }

  function ParameterShape(flow: bool, parameters: seq<Parameter>): nat {
    if parameters == [] then 0 else ShapeError(flow, parameters[0].information) + ParameterShape(flow, parameters[1..])
  }

  function BodyShape(flow: bool, body: seq<Statement<i64>>): nat {
    if body == [] then 0
    else
      (if body[0].LetStatement? || body[0].RequestStatement? then ShapeError(flow, body[0].information) else 0)
      + BodyShape(flow, body[1..])
  }

  function InformationShape(flow: bool, f: Function<i64>): nat {
    ShapeError(flow, f.returnInformation) + ParameterShape(flow, f.parameters) + BodyShape(flow, f.body)
  }

  function DeclarationErrors(flow: bool, functions: seq<Function<i64>>): nat {
    if functions == [] then 0
    else
      var n := |functions| - 1;
      var f := functions[n];
      DeclarationErrors(flow, functions[..n]) + InformationShape(flow, f) + One(|f.parameters| > CHECK_MAX_PARAMETERS)
      + Repeats(f.effects)
  }

  function StatementCount<N>(functions: seq<Function<N>>): nat {
    if functions == [] then 0
    else
      var n := |functions| - 1;
      StatementCount(functions[..n]) + |functions[n].body|
  }

  function SignatureErrors(p: Program): nat {
    One(|p.functions| > CHECK_MAX_FUNCTIONS) + DeclarationErrors(p.informationFlow, p.functions)
    + Repeats(FunctionNames(p.functions)) + One(StatementCount(p.functions) > CHECK_MAX_STATEMENTS)
  }

  function EntryErrors(sigs: Signatures): nat {
    if "main" !in sigs then 1 else One(sigs["main"].parameters != [])
  }

  function BodyErrors(sigs: Signatures, flow: bool, linear: bool, functions: seq<Function<i64>>): nat {
    if functions == [] then 0
    else
      var n := |functions| - 1;
      BodyErrors(sigs, flow, linear, functions[..n]) + CheckFunction(sigs, flow, linear, functions[n])
  }

  predicate LinearProfile(p: Program) {
    p.informationFlow || MentionsAuthority(p.functions)
  }

  // ---------- calls ----------

  /** Callees in the order the checker meets them; unknown names are reported, not recorded. */
  function CalleesOf(sigs: Signatures, e: Expression<i64>): seq<string>
    decreases e, 1
  {
    match e
    case Unary(_, operand) => CalleesOf(sigs, operand)
    case Binary(_, left, right) => CalleesOf(sigs, left) + CalleesOf(sigs, right)
    case Call(callee, arguments) => (if callee in sigs then [callee] else []) + CalleesOfAll(sigs, arguments)
    case _ => []
  }

  function CalleesOfAll(sigs: Signatures, es: seq<Expression<i64>>): seq<string>
    decreases es, 0
  {
    if es == [] then [] else CalleesOf(sigs, es[0]) + CalleesOfAll(sigs, es[1..])
  }

  function CalleesOfStatement(sigs: Signatures, s: Statement<i64>): seq<string> {
    match s
    case LetStatement(_, _, _, value) => CalleesOf(sigs, value)
    case ReturnStatement(None) => []
    case ReturnStatement(Some(e)) => CalleesOf(sigs, e)
    case RequestStatement(_, _, _, arguments) => CalleesOfAll(sigs, arguments)
    case ExpressionStatement(e) => CalleesOf(sigs, e)
  }

  function CalleesOfBody(sigs: Signatures, body: seq<Statement<i64>>): seq<string> {
    if body == [] then [] else CalleesOfStatement(sigs, body[0]) + CalleesOfBody(sigs, body[1..])
  }

  /** Who calls whom, by name. */
  function CallsByName(sigs: Signatures, functions: seq<Function<i64>>): Graph<string> {
    if functions == [] then map[]
    else
      var n := |functions| - 1;
      CallsByName(sigs, functions[..n])[functions[n].name := CalleesOfBody(sigs, functions[n].body)]
  }

  // ---------- acceptance ----------

  function StaticErrors(p: Program): nat {
    var sigs := SignaturesOf(p.functions);
    SignatureErrors(p) + EntryErrors(sigs) + BodyErrors(sigs, p.informationFlow, LinearProfile(p), p.functions)
  }

  /** What check accepts. */
  ghost predicate CheckAccepts(p: Program) {
    StaticErrors(p) == 0 && Acyclic(CallsByName(SignaturesOf(p.functions), p.functions))
  }
}
