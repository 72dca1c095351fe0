// The static rules of JOAN, stated as rules: which values expressions have, which statements
// are in order, which modules are well formed. Nothing here counts diagnostics or depends on
// the order in which a checker goes through a module.
module StaticRules {
  import opened Prelude
  import opened Ast

  // The type and the label of a value.
  datatype Kind = Kind(ty: Type, information: Label)

  // ---------- labels ----------

  /** A boundary without a label is public. */
  predicate Labelled(information: Option<Label>, l: Label) {
    information == Some(l) || (information.None? && l.Public?)
  }

  /** Public values go anywhere, secret ones to boundaries of the same tenant and purpose. */
  predicate MayEnter(source: Label, boundary: Option<Label>) {
    source.Public? || boundary == Some(source)
  }

  /** What is made of two values has the label of one of them, and the other is public or labelled alike. */
  predicate Combine(a: Label, b: Label, c: Label) {
    (c == a && (b.Public? || b == a)) || (c == b && (a.Public? || a == b))
  }

  /** The information-flow profile also keeps track of labels. */
  predicate Fits(flow: bool, v: Kind, ty: Type, boundary: Option<Label>) {
    v.ty == ty && (flow ==> MayEnter(v.information, boundary))
  }

  // ---------- expressions ----------

  predicate Declares(q: Parameter, name: string, v: Kind) {
    q.name == name && q.valueType == v.ty && Labelled(q.information, v.information)
  }

  predicate Binds(s: Statement<i64>, name: string, v: Kind) {
    s.LetStatement? && s.name == name && s.valueType == v.ty && Labelled(s.information, v.information)
  }

  /** Before statement k, a name stands for a parameter or for an earlier binding. */
  ghost predicate InScope(f: Function<i64>, k: nat, name: string, v: Kind)
    requires k <= |f.body|
  {
    || (exists i :: 0 <= i < |f.parameters| && Declares(f.parameters[i], name, v))
    || (exists j :: 0 <= j < k && Binds(f.body[j], name, v))
  }

  predicate UnaryRule(op: UnaryOperator, ty: Type) {
    match op
    case Minus => ty == I64
    case Bang => ty == Bool
  }

  predicate OperatorRule(op: BinaryOperator, left: Type, right: Type, result: Type) {
    match op
    case Add | Subtract | Multiply | Divide | Remainder => left == I64 && right == I64 && result == I64
    case Less | LessEqual | Greater | GreaterEqual => left == I64 && right == I64 && result == Bool
    case And | Or => left == Bool && right == Bool && result == Bool
    case Equal | NotEqual => left == right && result == Bool
  }

  /** A call takes no effect that the caller does not declare, and gives what the callee declares. */
  predicate CallRule(f: Function<i64>, g: Function<i64>, callee: string, v: Kind) {
    && g.name == callee
    && (forall effect :: effect in g.effects ==> effect in f.effects)
    && g.returnType == v.ty && Labelled(g.returnInformation, v.information)
  }

  /** The value of an expression before statement k of a function. */
  ghost predicate HasValue(p: Program, f: Function<i64>, k: nat, e: Expression<i64>, v: Kind)
    requires k <= |f.body|
    decreases e, 1
  {
    match e
    case Integer(_) => v == Kind(I64, Public)
    case Boolean(_) => v == Kind(Bool, Public)
    case Text(_) => v == Kind(String, Public)
    case Variable(name) => InScope(f, k, name, v)
    case Unary(op, operand) => UnaryRule(op, v.ty) && HasValue(p, f, k, operand, v)
    case Binary(op, left, right) =>
      exists a, b ::
        && HasValue(p, f, k, left, a) && HasValue(p, f, k, right, b)
        && OperatorRule(op, a.ty, b.ty, v.ty) && Combine(a.information, b.information, v.information)
    case Call(callee, arguments) =>
      exists i :: 0 <= i < |p.functions| && CallRule(f, p.functions[i], callee, v)
                  && AreAccepted(p, f, k, arguments, p.functions[i].parameters)
  }

  /** Arguments match the parameters one by one. */
  ghost predicate AreAccepted(p: Program, f: Function<i64>, k: nat, es: seq<Expression<i64>>, parameters: seq<Parameter>)
    requires k <= |f.body|
    decreases es, 0
  {
    |es| == |parameters| && forall i :: 0 <= i < |es| ==> IsAccepted(p, f, k, es[i], parameters[i].valueType, parameters[i].information)
  }

  /** The expression has a value of the type that may enter the boundary. */
  ghost predicate IsAccepted(p: Program, f: Function<i64>, k: nat, e: Expression<i64>, ty: Type, boundary: Option<Label>)
    requires k <= |f.body|
    decreases e, 2
  {
    exists a :: HasValue(p, f, k, e, a) && Fits(p.informationFlow, a, ty, boundary)
  }

  // ---------- statements ----------

  predicate RequestsWithSlot(f: Function<i64>) {
    exists k :: 0 <= k < |f.body| && f.body[k].RequestStatement? && f.body[k].authority.Some?
  }

  /** Flow modules and modules that mention a slot anywhere keep linear authority everywhere. */
  predicate KeepsAuthority(p: Program) {
    p.informationFlow
    || exists i :: 0 <= i < |p.functions| && (p.functions[i].authorities.Some? || RequestsWithSlot(p.functions[i]))
  }

  /** No parameter and no earlier binding has the name. */
  predicate IsFresh(f: Function<i64>, k: nat, name: string)
    requires k <= |f.body|
  {
    && (forall i :: 0 <= i < |f.parameters| ==> f.parameters[i].name != name)
    && (forall j :: 0 <= j < k && f.body[j].LetStatement? ==> f.body[j].name != name)
  }

  /** A request before statement k moves the slot. */
  predicate Used(f: Function<i64>, k: nat, slot: string)
    requires k <= |f.body|
  {
    exists j :: 0 <= j < k && f.body[j].RequestStatement? && f.body[j].authority == Some(slot)
  }

  /** A slot is declared for the effect, and this is the first request with it. */
  predicate SlotRule(f: Function<i64>, k: nat, effect: string, slot: Option<string>)
    requires k <= |f.body|
  {
    slot.Some? && f.authorities.Some? && Authority(slot.value, effect) in f.authorities.value && !Used(f, k, slot.value)
  }

  /** The expression has a value that may enter the boundary, whatever its type. */
  ghost predicate Enters(p: Program, f: Function<i64>, k: nat, e: Expression<i64>, boundary: Option<Label>)
    requires k <= |f.body|
  {
    exists a :: HasValue(p, f, k, e, a) && (p.informationFlow ==> MayEnter(a.information, boundary))
  }

  ghost predicate StatementRule(p: Program, f: Function<i64>, k: nat)
    requires k < |f.body|
  {
    match f.body[k]
    case LetStatement(name, ty, information, value) =>
      ty != Unit && IsFresh(f, k, name) && IsAccepted(p, f, k, value, ty, information)
    case ReturnStatement(None) => f.returnType == Unit
    case ReturnStatement(Some(e)) =>
      f.returnType != Unit && IsAccepted(p, f, k, e, f.returnType, f.returnInformation)
    case RequestStatement(effect, slot, information, arguments) =>
      && effect in f.effects
      && (KeepsAuthority(p) ==> SlotRule(f, k, effect, slot))
      && forall i :: 0 <= i < |arguments| ==> Enters(p, f, k, arguments[i], information)
    case ExpressionStatement(e) => exists a :: HasValue(p, f, k, e, a)
  }

  // ---------- functions ----------

  predicate LabelledEverywhere(flow: bool, f: Function<i64>) {
    && f.returnInformation.Some? == flow
    && (forall i :: 0 <= i < |f.parameters| ==> f.parameters[i].information.Some? == flow)
    && (forall k :: 0 <= k < |f.body| ==>
                      match f.body[k]
                      case LetStatement(_, _, information, _) => information.Some? == flow
                      case RequestStatement(_, _, information, _) => information.Some? == flow
                      case _ => true)
  }

  predicate ParametersRule(f: Function<i64>) {
    && |f.parameters| <= 64
    && (forall i :: 0 <= i < |f.parameters| ==> f.parameters[i].valueType != Unit)
    && (forall i, j :: 0 <= i < j < |f.parameters| ==> f.parameters[i].name != f.parameters[j].name)
  }

  /** Slots have different names and declared effects, and every one of them is used. */
  predicate SlotsRule(f: Function<i64>) {
    && f.authorities.Some?
    && var slots := f.authorities.value;
       && (forall i, j :: 0 <= i < j < |slots| ==> slots[i].name != slots[j].name)
       && (forall i :: 0 <= i < |slots| ==> slots[i].effect in f.effects)
       && (forall i :: 0 <= i < |slots| ==> Used(f, |f.body|, slots[i].name))
  }

  /** A function returns at its end and nowhere else. */
  predicate ReturnsLast(f: Function<i64>) {
    && f.body != []
    && forall k :: 0 <= k < |f.body| ==> (f.body[k].ReturnStatement? <==> k == |f.body| - 1)
  }

  ghost predicate FunctionRule(p: Program, f: Function<i64>) {
    && ParametersRule(f)
    && (forall i, j :: 0 <= i < j < |f.effects| ==> f.effects[i] != f.effects[j])
    && LabelledEverywhere(p.informationFlow, f)
    && (KeepsAuthority(p) ==> SlotsRule(f))
    && ReturnsLast(f)
    && forall k :: 0 <= k < |f.body| ==> StatementRule(p, f, k)
  }

  // ---------- modules ----------

  function Statements(functions: seq<Function<i64>>): nat {
    if functions == [] then 0 else |functions[0].body| + Statements(functions[1..])
  }

  ghost predicate ModuleRule(p: Program) {
    && |p.functions| <= 1_024 && Statements(p.functions) <= 100_000
    && (forall i, j :: 0 <= i < j < |p.functions| ==> p.functions[i].name != p.functions[j].name)
    && (exists i :: 0 <= i < |p.functions| && p.functions[i].name == "main" && p.functions[i].parameters == [])
    && forall i :: 0 <= i < |p.functions| ==> FunctionRule(p, p.functions[i])
  }

  // ---------- recursion ----------

  predicate Mentions(e: Expression<i64>, name: string) {
    match e
    case Unary(_, operand) => Mentions(operand, name)
    case Binary(_, left, right) => Mentions(left, name) || Mentions(right, name)
    case Call(callee, arguments) => callee == name || exists i :: 0 <= i < |arguments| && Mentions(arguments[i], name)
    case _ => false
  }

  predicate StatementMentions(s: Statement<i64>, name: string) {
    match s
    case LetStatement(_, _, _, value) => Mentions(value, name)
    case ReturnStatement(result) => result.Some? && Mentions(result.value, name)
    case RequestStatement(_, _, _, arguments) => exists i :: 0 <= i < |arguments| && Mentions(arguments[i], name)
    case ExpressionStatement(e) => Mentions(e, name)
  }

  predicate Calls(p: Program, a: nat, b: nat) {
    && a < |p.functions| && b < |p.functions|
    && exists k :: 0 <= k < |p.functions[a].body| && StatementMentions(p.functions[a].body[k], p.functions[b].name)
  }

  /** Functions that call each other in a circle. */
  predicate CallCircle(p: Program, q: seq<nat>) {
    && |q| >= 2 && q[0] == q[|q| - 1]
    && forall i :: 0 <= i < |q| - 1 ==> Calls(p, q[i], q[i + 1])
  }

  ghost predicate NoRecursion(p: Program) {
    forall q :: !CallCircle(p, q)
  }
}
