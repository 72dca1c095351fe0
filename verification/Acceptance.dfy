// From the static rules to the bytecode verifier: the code of a well-typed body
// runs through the abstract interpreter, with the types and labels the checker
// gave its expressions, exactly when it stays within the stack limit.
module Acceptance {
  import opened Prelude
  import opened Ast
  import opened CheckRules
  import opened Bytecode
  import opened Verifier
  import opened Compiler

  // ---------- how much stack a tree needs ----------

  function Need(e: Expression<string>): (n: nat)
    ensures n >= 1
    decreases e, 1
  {
    match e
    case Unary(_, operand) => Need(operand)
    case Binary(_, left, right) => Max(Need(left), 1 + Need(right))
    case Call(_, arguments) => Max(1, NeedAll(arguments))
    case _ => 1
  }

  function NeedAll(es: seq<Expression<string>>): (n: nat)
    ensures n >= |es|
    decreases es, 0
  {
    if es == [] then 0 else Max(Need(es[0]), 1 + NeedAll(es[1..]))
  }

  function StatementNeed(s: Statement<string>): nat {
    match s
    case LetStatement(_, _, _, value) => Need(value)
    case ReturnStatement(None) => 1
    case ReturnStatement(Some(e)) => Need(e)
    case RequestStatement(_, _, _, arguments) => NeedAll(arguments)
    case ExpressionStatement(e) => Need(e)
  }

  function BodyNeed(body: seq<Statement<string>>): nat {
    if body == [] then 0 else Max(StatementNeed(body[0]), BodyNeed(body[1..]))
  }

  // ---------- concatenation ----------

  predicate NoReturn(code: seq<Instruction>) {
    forall i :: 0 <= i < |code| ==> !code[i].Return?
  }

  lemma LastIsIrrelevant(p: BytecodeProgram, f: BytecodeFunction, i: Instruction, last: bool, a: AbstractState)
    requires TablesFit(f) && |a.initialized| == f.localCount && !i.Return?
    ensures AbstractStep(p, f, i, last, a) == AbstractStep(p, f, i, false, a)
  {
  }

  lemma {:induction false} AbstractRunAppend(p: BytecodeProgram, f: BytecodeFunction, c1: seq<Instruction>, c2: seq<Instruction>,
                                             a: AbstractState)
    requires TablesFit(f) && |a.initialized| == f.localCount && NoReturn(c1)
    ensures AbstractRun(p, f, c1 + c2, a) ==
            match AbstractRun(p, f, c1, a)
            case None => None
            case Some(a') => AbstractRun(p, f, c2, a')
    decreases |c1|
  {
    if c1 == [] {
      assert c1 + c2 == c2;
    } else {
      assert (c1 + c2)[1..] == c1[1..] + c2;
      LastIsIrrelevant(p, f, c1[0], |c1| == 1, a);
      LastIsIrrelevant(p, f, c1[0], |c1 + c2| == 1, a);
      match AbstractStep(p, f, c1[0], false, a)
      case None =>
      case Some(a') => AbstractRunAppend(p, f, c1[1..], c2, a');
    }
  }

  lemma AbstractRunOne(p: BytecodeProgram, f: BytecodeFunction, i: Instruction, a: AbstractState)
    requires TablesFit(f) && |a.initialized| == f.localCount
    ensures AbstractRun(p, f, [i], a) == AbstractStep(p, f, i, true, a)
  {
    var r := AbstractStep(p, f, i, true, a);
    if r.Some? {
      assert AbstractRun(p, f, [], r.value) == r;
    }
  }

  // ---------- what the checker knows and the verifier sees ----------

  // The surroundings of a body: rules on one side, compiled program on the other.
  datatype World = World(
    p: BytecodeProgram,
    fn: BytecodeFunction,
    sigs: Signatures,
    indexes: map<string, nat>,
    flow: bool,
    effects: set<string>)

  predicate SignatureMatches(flow: bool, sig: Signature, target: BytecodeFunction) {
    && target.parameterCount == |target.parameterTypes| == |sig.parameters|
    && (forall k :: 0 <= k < |sig.parameters| ==> target.parameterTypes[k] == sig.parameters[k].ty)
    && target.returnType == sig.returnValue.ty
    && LabelOr(target.returnInformation) == sig.returnValue.information
    && EffectSet(target.effects) == sig.effects
    && (if flow then
          && target.parameterInformation.Some?
          && |target.parameterInformation.value| == |sig.parameters|
          && forall k :: 0 <= k < |sig.parameters| ==> target.parameterInformation.value[k] == sig.parameters[k].information
        else target.parameterInformation.None? && sig.returnValue.information.Public?)
  }

  predicate KnownAt(w: World, name: string) {
    && name in w.sigs && name in w.indexes
    && w.indexes[name] < |w.p.functions|
    && SignatureMatches(w.flow, w.sigs[name], w.p.functions[w.indexes[name]])
  }

  predicate WorldOk(w: World) {
    && TablesFit(w.fn)
    && w.flow == w.p.canonicalAst.schema.IsInformationFlow()
    && w.effects == EffectSet(w.fn.effects)
    && (forall name {:trigger KnownAt(w, name)} :: name in w.sigs ==> KnownAt(w, name))
  }

  /** Every local of the rules has an initialized slot of its type and label. */
  predicate LocalsMatch(w: World, locals: Locals, slots: Slots, a: AbstractState)
    requires TablesFit(w.fn)
  {
    && |a.initialized| == w.fn.localCount
    && locals.Keys == slots.Keys
    && forall x :: x in slots ==>
                     && slots[x] < w.fn.localCount && a.initialized[slots[x]]
                     && w.fn.localTypes[slots[x]] == locals[x].ty
                     && SlotLabel(w.fn, slots[x]) == locals[x].information
                     && (!w.flow ==> locals[x].information.Public?)
  }

  function Type_(w: World, locals: Locals, e: Expression<i64>): Typed {
    TypeExpression(w.sigs, w.flow, w.effects, locals, e)
  }

  function Abstract(info: ValueInfo): AbstractValue {
    AbstractValue(info.ty, info.information)
  }

  /** The run pushed exactly these values and touched nothing else that matters later. */
  predicate Pushed(a: AbstractState, a': AbstractState, values: seq<AbstractValue>) {
    && a'.stack == a.stack + values
    && a'.initialized == a.initialized
    && a'.consumed == a.consumed
  }

  predicate FitsStack(a: AbstractState, need: nat) {
    |a.stack| + need <= MAX_STACK_DEPTH
  }

  lemma TypedHasInfo(w: World, locals: Locals, e: Expression<i64>)
    requires Type_(w, locals, e).errors == 0
    ensures Type_(w, locals, e).info.Some?
  {
  }

  // ---------- expressions ----------

  /** The abstract run of an expression's code, in terms of the checker's verdict. */
  ghost predicate Runs(w: World, code: Option<seq<Instruction>>, a: AbstractState, values: seq<AbstractValue>, need: nat)
    requires TablesFit(w.fn) && |a.initialized| == w.fn.localCount
  {
    && code.Some?
    && NoReturn(code.value)
    && (FitsStack(a, need) <==> AbstractRun(w.p, w.fn, code.value, a).Some?)
    && (FitsStack(a, need) ==> Pushed(a, AbstractRun(w.p, w.fn, code.value, a).value, values))
  }

  /** An instruction that turns the pushed values into one result. */
  lemma RunsThenStep(w: World, c: seq<Instruction>, i: Instruction, a: AbstractState, values: seq<AbstractValue>,
                     result: AbstractValue, need: nat)
    requires TablesFit(w.fn) && |a.initialized| == w.fn.localCount
    requires Runs(w, Some(c), a, values, need) && !i.Return?
    requires FitsStack(a, need) ==>
               var mid := AbstractRun(w.p, w.fn, c, a).value;
               var step := AbstractStep(w.p, w.fn, i, true, mid);
               && (step.Some? <==> |a.stack| + 1 <= MAX_STACK_DEPTH)
               && (step.Some? ==> Pushed(mid.(stack := a.stack), step.value, [result]))
    ensures Runs(w, Some(c + [i]), a, [result], Max(1, need))
  {
    AbstractRunAppend(w.p, w.fn, c, [i], a);
    if FitsStack(a, need) {
      AbstractRunOne(w.p, w.fn, i, AbstractRun(w.p, w.fn, c, a).value);
    }
  }

  /** One value, and on top of it the values of the rest. */
  lemma RunsThenRuns(w: World, c1: seq<Instruction>, c2: seq<Instruction>, a: AbstractState, v: AbstractValue,
                     values: seq<AbstractValue>, need1: nat, need2: nat)
    requires TablesFit(w.fn) && |a.initialized| == w.fn.localCount
    requires Runs(w, Some(c1), a, [v], need1) && NoReturn(c2) && need1 >= 1
    requires FitsStack(a, need1) ==> Runs(w, Some(c2), AbstractRun(w.p, w.fn, c1, a).value, values, need2)
    ensures Runs(w, Some(c1 + c2), a, [v] + values, Max(need1, 1 + need2))
  {
    AbstractRunAppend(w.p, w.fn, c1, c2, a);
    assert a.stack + [v] + values == a.stack + ([v] + values);
  }

  lemma {:induction false} ExpressionRuns(w: World, locals: Locals, slots: Slots, e: Expression<i64>, a: AbstractState)
    requires WorldOk(w) && LocalsMatch(w, locals, slots, a) && |a.stack| <= MAX_STACK_DEPTH
    requires Type_(w, locals, e).errors == 0
    ensures Type_(w, locals, e).info.Some?
    ensures Runs(w, Emit(CanonicalExpression(e), slots, w.indexes), a, [Abstract(Type_(w, locals, e).info.value)],
                 Need(CanonicalExpression(e)))
    ensures !w.flow ==> Type_(w, locals, e).info.value.information.Public?
    decreases e, 1
  {
    TypedHasInfo(w, locals, e);
    hide TypeExpression, Emit, CanonicalExpression, Need, AbstractRun, Runs;
    match e
    case Unary(_, _) => UnaryRuns(w, locals, slots, e, a);
    case Binary(_, _, _) => BinaryRuns(w, locals, slots, e, a);
    case Call(_, _) => CallRuns(w, locals, slots, e, a);
    case Variable(_) => VariableRuns(w, locals, slots, e, a);
    case _ => ConstantRuns(w, locals, slots, e, a);
  }

  lemma ConstantRuns(w: World, locals: Locals, slots: Slots, e: Expression<i64>, a: AbstractState)
    requires WorldOk(w) && LocalsMatch(w, locals, slots, a) && |a.stack| <= MAX_STACK_DEPTH
    requires e.Integer? || e.Boolean? || e.Text?
    ensures Runs(w, Emit(CanonicalExpression(e), slots, w.indexes), a, [Abstract(Type_(w, locals, e).info.value)],
                 Need(CanonicalExpression(e)))
    ensures Type_(w, locals, e).info.value.information.Public?
  {
    if e.Integer? {
      DecimalRoundTrip(e.value);
    }
    AbstractRunOne(w.p, w.fn, Emit(CanonicalExpression(e), slots, w.indexes).value[0], a);
  }

  lemma VariableRuns(w: World, locals: Locals, slots: Slots, e: Expression<i64>, a: AbstractState)
    requires WorldOk(w) && LocalsMatch(w, locals, slots, a) && |a.stack| <= MAX_STACK_DEPTH
    requires e.Variable? && Type_(w, locals, e).errors == 0
    ensures Runs(w, Emit(CanonicalExpression(e), slots, w.indexes), a, [Abstract(Type_(w, locals, e).info.value)],
                 Need(CanonicalExpression(e)))
    ensures !w.flow ==> Type_(w, locals, e).info.value.information.Public?
  {
    AbstractRunOne(w.p, w.fn, LoadLocal(slots[e.name]), a);
  }

  lemma {:induction false} UnaryRuns(w: World, locals: Locals, slots: Slots, e: Expression<i64>, a: AbstractState)
    requires WorldOk(w) && LocalsMatch(w, locals, slots, a) && |a.stack| <= MAX_STACK_DEPTH && e.Unary?
    requires Type_(w, locals, e).errors == 0
    ensures Runs(w, Emit(CanonicalExpression(e), slots, w.indexes), a, [Abstract(Type_(w, locals, e).info.value)],
                 Need(CanonicalExpression(e)))
    ensures !w.flow ==> Type_(w, locals, e).info.value.information.Public?
    decreases e, 0
  {
    ExpressionRuns(w, locals, slots, e.operand, a);
    var c, i := Emit(CanonicalExpression(e.operand), slots, w.indexes).value, UnaryInstruction(e.unop);
    var operand := Type_(w, locals, e.operand).info.value;
    RunsThenStep(w, c, i, a, [Abstract(operand)], Abstract(operand), Need(CanonicalExpression(e.operand)));
  }

  lemma BinaryRests(stack: seq<AbstractValue>, base: seq<AbstractValue>, l: ValueInfo, r: ValueInfo)
    requires stack == base + [Abstract(l), Abstract(r)]
    ensures stack[..|stack| - 1] == base + [Abstract(l)] && stack[..|stack| - 2] == base
    ensures (base + [Abstract(l)])[..|base|] == base
  {
  }

  lemma BinaryStepRuns(w: World, op: BinaryOperator, a: AbstractState, base: seq<AbstractValue>, l: ValueInfo, r: ValueInfo)
    requires TablesFit(w.fn) && |a.initialized| == w.fn.localCount
    requires a.stack == base + [Abstract(l), Abstract(r)] && |a.stack| <= MAX_STACK_DEPTH
    requires BinaryRule(op, Some(l), Some(r)).errors == 0
    ensures var step := AbstractStep(w.p, w.fn, BinaryInstruction(op), true, a);
            && step.Some?
            && Pushed(a.(stack := base), step.value, [Abstract(BinaryRule(op, Some(l), Some(r)).info.value)])
  {
    BinaryRests(a.stack, base, l, r);
    JoinIsLeastUpperBound(l.information, r.information);
  }

  lemma {:induction false} BinaryRuns(w: World, locals: Locals, slots: Slots, e: Expression<i64>, a: AbstractState)
    requires WorldOk(w) && LocalsMatch(w, locals, slots, a) && |a.stack| <= MAX_STACK_DEPTH && e.Binary?
    requires Type_(w, locals, e).errors == 0
    ensures Runs(w, Emit(CanonicalExpression(e), slots, w.indexes), a, [Abstract(Type_(w, locals, e).info.value)],
                 Need(CanonicalExpression(e)))
    ensures !w.flow ==> Type_(w, locals, e).info.value.information.Public?
    decreases e, 0
  {
    BinaryParts(w, locals, e);
    BinaryEmits(w, slots, e);
    var left, right := CanonicalExpression(e.left), CanonicalExpression(e.right);
    var l, r := Type_(w, locals, e.left).info.value, Type_(w, locals, e.right).info.value;
    hide Emit, TypeExpression, CanonicalExpression, Need, AbstractStep;
    ExpressionRuns(w, locals, slots, e.left, a);
    ExpressionRuns(w, locals, slots, e.right, a);
    var c1, c2 := Emit(left, slots, w.indexes).value, Emit(right, slots, w.indexes).value;
    if FitsStack(a, Need(left)) {
      ExpressionRuns(w, locals, slots, e.right, AbstractRun(w.p, w.fn, c1, a).value);
    }
    RunsThenRuns(w, c1, c2, a, Abstract(l), [Abstract(r)], Need(left), Need(right));
    assert [Abstract(l)] + [Abstract(r)] == [Abstract(l), Abstract(r)];
    var need := Max(Need(left), 1 + Need(right));
    if FitsStack(a, need) {
      BinaryStepRuns(w, e.binop, AbstractRun(w.p, w.fn, c1 + c2, a).value, a.stack, l, r);
    }
    RunsThenStep(w, c1 + c2, BinaryInstruction(e.binop), a, [Abstract(l), Abstract(r)],
                 Abstract(Type_(w, locals, e).info.value), need);
  }

  /** Type, code and stack need of a binary expression come from those of its operands. */
  lemma BinaryParts(w: World, locals: Locals, e: Expression<i64>)
    requires e.Binary? && Type_(w, locals, e).errors == 0
    ensures Type_(w, locals, e.left).errors == 0 && Type_(w, locals, e.left).info.Some?
    ensures Type_(w, locals, e.right).errors == 0 && Type_(w, locals, e.right).info.Some?
    ensures var rule := BinaryRule(e.binop, Type_(w, locals, e.left).info, Type_(w, locals, e.right).info);
            rule.errors == 0 && Type_(w, locals, e).info == rule.info
  {
    TypedHasInfo(w, locals, e.left);
    TypedHasInfo(w, locals, e.right);
  }

  lemma BinaryEmits(w: World, slots: Slots, e: Expression<i64>)
    requires e.Binary?
    ensures var left, right := CanonicalExpression(e.left), CanonicalExpression(e.right);
            && Need(CanonicalExpression(e)) == Max(Need(left), 1 + Need(right))
            && Emit(CanonicalExpression(e), slots, w.indexes) ==
               match (Emit(left, slots, w.indexes), Emit(right, slots, w.indexes))
               case (Some(c1), Some(c2)) => Some(c1 + c2 + [BinaryInstruction(e.binop)])
               case (_, _) => None
  {
  }

  // ---------- argument lists ----------

  /** All of the list is well typed, and these are its values. */
  predicate AllTyped(w: World, locals: Locals, es: seq<Expression<i64>>, infos: seq<ValueInfo>) {
    && |infos| == |es|
    && forall k :: 0 <= k < |es| ==> Type_(w, locals, es[k]) == Typed(Some(infos[k]), 0)
  }

  function Abstracts(infos: seq<ValueInfo>): (r: seq<AbstractValue>)
    ensures |r| == |infos|
    ensures forall k :: 0 <= k < |r| ==> r[k] == Abstract(infos[k])
  {
    seq(|infos|, k requires 0 <= k < |infos| => Abstract(infos[k]))
  }

  lemma TypedSplit(w: World, locals: Locals, es: seq<Expression<i64>>, infos: seq<ValueInfo>)
    requires AllTyped(w, locals, es, infos) && es != []
    ensures Type_(w, locals, es[0]) == Typed(Some(infos[0]), 0) && AllTyped(w, locals, es[1..], infos[1..])
    ensures [Abstract(infos[0])] + Abstracts(infos[1..]) == Abstracts(infos)
  {
  }

  lemma ListEmits(es: seq<Expression<i64>>, slots: Slots, indexes: map<string, nat>)
    requires es != []
    ensures var first, rest := CanonicalExpression(es[0]), CanonicalExpressions(es[1..]);
            && NeedAll(CanonicalExpressions(es)) == Max(Need(first), 1 + NeedAll(rest))
            && EmitAll(CanonicalExpressions(es), slots, indexes) ==
               match (Emit(first, slots, indexes), EmitAll(rest, slots, indexes))
               case (Some(c1), Some(c2)) => Some(c1 + c2)
               case (_, _) => None
  {
    var canonical := CanonicalExpressions(es);
    assert canonical[0] == CanonicalExpression(es[0]) && canonical[1..] == CanonicalExpressions(es[1..]);
  }

  lemma {:induction false} AllRun(w: World, locals: Locals, slots: Slots, es: seq<Expression<i64>>, infos: seq<ValueInfo>, a: AbstractState)
    requires WorldOk(w) && LocalsMatch(w, locals, slots, a) && |a.stack| <= MAX_STACK_DEPTH
    requires AllTyped(w, locals, es, infos)
    ensures Runs(w, EmitAll(CanonicalExpressions(es), slots, w.indexes), a, Abstracts(infos), NeedAll(CanonicalExpressions(es)))
    ensures !w.flow ==> forall k :: 0 <= k < |infos| ==> infos[k].information.Public?
    decreases es, 0
  {
    if es == [] {
      assert a.stack + Abstracts(infos) == a.stack;
    } else {
      TypedSplit(w, locals, es, infos);
      ListEmits(es, slots, w.indexes);
      var first, rest := CanonicalExpression(es[0]), CanonicalExpressions(es[1..]);
      ExpressionRuns(w, locals, slots, es[0], a);
      var c1 := Emit(first, slots, w.indexes).value;
      AllRun(w, locals, slots, es[1..], infos[1..], a);
      var c2 := EmitAll(rest, slots, w.indexes).value;
      if FitsStack(a, Need(first)) {
        AllRun(w, locals, slots, es[1..], infos[1..], AbstractRun(w.p, w.fn, c1, a).value);
      }
      RunsThenRuns(w, c1, c2, a, Abstract(infos[0]), Abstracts(infos[1..]), Need(first), NeedAll(rest));
    }
  }

  /** No diagnostics on a call's arguments: they have the parameter types and flow into the parameter labels. */
  lemma {:induction false} ArgumentsTyped(w: World, locals: Locals, es: seq<Expression<i64>>, expected: seq<ValueInfo>)
    returns (infos: seq<ValueInfo>)
    requires TypeArguments(w.sigs, w.flow, w.effects, locals, es, expected) == 0 && |es| == |expected|
    ensures AllTyped(w, locals, es, infos)
    ensures forall k :: 0 <= k < |infos| ==> infos[k].ty == expected[k].ty
    ensures w.flow ==> forall k :: 0 <= k < |infos| ==> infos[k].information.CanFlowTo(expected[k].information)
  {
    if es == [] {
      infos := [];
    } else {
      TypedHasInfo(w, locals, es[0]);
      var rest := ArgumentsTyped(w, locals, es[1..], expected[1..]);
      infos := [Type_(w, locals, es[0]).info.value] + rest;
    }
  }

  /** No diagnostics on a request's arguments: they all flow into the sink. */
  lemma {:induction false} SinkTyped(w: World, locals: Locals, es: seq<Expression<i64>>, sink: Label) returns (infos: seq<ValueInfo>)
    requires SinkArguments(w.sigs, w.flow, w.effects, locals, es, sink) == 0
    ensures AllTyped(w, locals, es, infos)
    ensures w.flow ==> forall k :: 0 <= k < |infos| ==> infos[k].information.CanFlowTo(sink)
  {
    if es == [] {
      infos := [];
    } else {
      TypedHasInfo(w, locals, es[0]);
      var rest := SinkTyped(w, locals, es[1..], sink);
      infos := [Type_(w, locals, es[0]).info.value] + rest;
    }
  }

  lemma EmptyDifference<T>(a: set<T>, b: set<T>)
    requires |a - b| == 0
    ensures a <= b
  {
    assert a - b == {};
    assert forall x :: x in a && x !in b ==> x in a - b;
  }

  lemma EffectsWithin(a: seq<string>, b: seq<string>)
    requires EffectSet(a) <= EffectSet(b)
    ensures forall e :: e in a ==> e in b
  {
    forall e | e in a ensures e in b {
      assert e in EffectSet(a);
    }
  }

  lemma ArgumentsFit(w: World, sig: Signature, target: BytecodeFunction, infos: seq<ValueInfo>, base: seq<AbstractValue>,
                     stack: seq<AbstractValue>)
    requires SignatureMatches(w.flow, sig, target)
    requires stack == base + Abstracts(infos) && |infos| == |sig.parameters|
    requires forall k :: 0 <= k < |infos| ==> infos[k].ty == sig.parameters[k].ty
    requires w.flow ==> forall k :: 0 <= k < |infos| ==> infos[k].information.CanFlowTo(sig.parameters[k].information)
    ensures |target.parameterTypes| == |infos| && stack[..|stack| - |infos|] == base
    ensures ArgumentsMatch(stack, target.parameterTypes, target.parameterInformation)
  {
  }

  lemma InvokeAccepted(w: World, callee: string, infos: seq<ValueInfo>, base: seq<AbstractValue>, a: AbstractState)
    requires WorldOk(w) && callee in w.sigs && KnownAt(w, callee)
    requires a.stack == base + Abstracts(infos)
    requires |infos| == |w.sigs[callee].parameters|
    requires forall k :: 0 <= k < |infos| ==> infos[k].ty == w.sigs[callee].parameters[k].ty
    requires w.flow ==> forall k :: 0 <= k < |infos| ==> infos[k].information.CanFlowTo(w.sigs[callee].parameters[k].information)
    requires w.sigs[callee].effects <= w.effects
    ensures var i := Invoke(w.indexes[callee], |infos|);
            var result := Abstract(w.sigs[callee].returnValue);
            AbstractInvoke(w.p, w.fn, i, a) == Some(a.(stack := base + [result], calls := a.calls + [i.target]))
  {
    var target := w.p.functions[w.indexes[callee]];
    EffectsWithin(target.effects, w.fn.effects);
    ArgumentsFit(w, w.sigs[callee], target, infos, base, a.stack);
  }

  lemma InvokeRuns(w: World, callee: string, infos: seq<ValueInfo>, base: seq<AbstractValue>, a: AbstractState)
    requires WorldOk(w) && |a.initialized| == w.fn.localCount && callee in w.sigs && KnownAt(w, callee)
    requires a.stack == base + Abstracts(infos)
    requires |infos| == |w.sigs[callee].parameters|
    requires forall k :: 0 <= k < |infos| ==> infos[k].ty == w.sigs[callee].parameters[k].ty
    requires w.flow ==> forall k :: 0 <= k < |infos| ==> infos[k].information.CanFlowTo(w.sigs[callee].parameters[k].information)
    requires w.sigs[callee].effects <= w.effects
    ensures var step := AbstractStep(w.p, w.fn, Invoke(w.indexes[callee], |infos|), true, a);
            && (step.Some? <==> |base| + 1 <= MAX_STACK_DEPTH)
            && (step.Some? ==> Pushed(a.(stack := base), step.value, [Abstract(w.sigs[callee].returnValue)]))
  {
    InvokeAccepted(w, callee, infos, base, a);
  }

  lemma {:induction false} CallRuns(w: World, locals: Locals, slots: Slots, e: Expression<i64>, a: AbstractState)
    requires WorldOk(w) && LocalsMatch(w, locals, slots, a) && |a.stack| <= MAX_STACK_DEPTH && e.Call?
    requires Type_(w, locals, e).errors == 0
    ensures Runs(w, Emit(CanonicalExpression(e), slots, w.indexes), a, [Abstract(Type_(w, locals, e).info.value)],
                 Need(CanonicalExpression(e)))
    ensures !w.flow ==> Type_(w, locals, e).info.value.information.Public?
    decreases e, 0
  {
    assert KnownAt(w, e.callee);
    var sig := w.sigs[e.callee];
    EmptyDifference(sig.effects, w.effects);
    var infos := ArgumentsTyped(w, locals, e.arguments, sig.parameters);
    var i := Invoke(w.indexes[e.callee], |e.arguments|);
    AllRun(w, locals, slots, e.arguments, infos, a);
    var arguments := CanonicalExpressions(e.arguments);
    var c := EmitAll(arguments, slots, w.indexes).value;
    if FitsStack(a, NeedAll(arguments)) {
      InvokeRuns(w, e.callee, infos, a.stack, AbstractRun(w.p, w.fn, c, a).value);
    }
    RunsThenStep(w, c, i, a, Abstracts(infos), Abstract(sig.returnValue), NeedAll(arguments));
  }

  // ---------- statements and bodies ----------

  /** The rules of the body and the tables of its compiled function speak of the same function. */
  predicate ScopeMatches(w: World, scope: Scope)
    requires TablesFit(w.fn)
  {
    && scope.sigs == w.sigs && scope.flow == w.flow && scope.effects == w.effects
    && scope.linear == w.p.canonicalAst.schema.IsLinear()
    && (scope.linear ==> scope.slots == SlotEffects(w.fn.authoritySlots))
    && scope.returnType == w.fn.returnType && scope.returnLabel == LabelOr(w.fn.returnInformation)
    && w.flow == w.fn.localInformation.Some?
  }

  /** Locals of the rules against slots of the frame, before looking at any abstract state. */
  predicate BodyStatic(w: World, scope: Scope, b: BodyState, slots: Slots)
    requires TablesFit(w.fn)
  {
    && b.locals.Keys == slots.Keys && |slots| <= w.fn.localCount && Tight(slots)
    && (forall x :: x in slots ==>
                      && w.fn.localTypes[slots[x]] == b.locals[x].ty
                      && SlotLabel(w.fn, slots[x]) == b.locals[x].information
                      && (!w.flow ==> b.locals[x].information.Public?))
    && b.available <= scope.slots.Keys
  }

  function Consumed(scope: Scope, b: BodyState): set<string> {
    if scope.linear then scope.slots.Keys - b.available else {}
  }

  /** Exactly the slots handed out are initialized; the consumed slots are those no longer available. */
  predicate BodyMatches(w: World, scope: Scope, b: BodyState, slots: Slots, a: AbstractState)
    requires TablesFit(w.fn)
  {
    && BodyStatic(w, scope, b, slots)
    && |a.initialized| == w.fn.localCount
    && (forall s :: 0 <= s < w.fn.localCount ==> (a.initialized[s] <==> s < |slots|))
    && a.stack == []
    && a.consumed == Consumed(scope, b)
  }

  lemma BodyLocalsMatch(w: World, scope: Scope, b: BodyState, slots: Slots, a: AbstractState)
    requires TablesFit(w.fn) && BodyMatches(w, scope, b, slots, a)
    ensures LocalsMatch(w, b.locals, slots, a)
  {
  }

  /** An abstract state that matches, whatever came before. */
  function StateFor(w: World, scope: Scope, b: BodyState, slots: Slots): AbstractState {
    AbstractState([], seq(w.fn.localCount, k => k < |slots|), Consumed(scope, b), [], 0)
  }

  /** What the canonical shape demands of a statement's own names and labels. */
  predicate StatementNamed(linear: bool, flow: bool, s: Statement<i64>) {
    && (s.LetStatement? ==> InformationPresence(flow, s.information))
    && (s.RequestStatement? ==>
          IsIdentifier(s.effect) && InformationPresence(flow, s.information) && s.authority.Some? == linear)
  }

  /** The frame tables continue with the lets of the body. */
  predicate TablesContinue(w: World, slots: Slots, body: seq<Statement<i64>>)
    requires TablesFit(w.fn)
  {
    var canonical := CanonicalBody(body);
    && |slots| + |LetTypes(canonical)| == w.fn.localCount
    && w.fn.localTypes[|slots|..] == LetTypes(canonical)
    && (w.flow ==>
          && LetLabels(canonical).Some? && w.fn.localInformation.Some?
          && w.fn.localInformation.value[|slots|..] == LetLabels(canonical).value)
  }

  /** The abstract run of a statement's code succeeds within the stack limit, and leaves the states matched. */
  ghost predicate StatementRuns(w: World, scope: Scope, code: Option<seq<Instruction>>, a: AbstractState, b': BodyState, slots': Slots,
                                need: nat)
    requires TablesFit(w.fn) && |a.initialized| == w.fn.localCount
  {
    && code.Some?
    && NoReturn(code.value)
    && BodyStatic(w, scope, b', slots')
    && (need <= MAX_STACK_DEPTH <==> AbstractRun(w.p, w.fn, code.value, a).Some?)
    && (need <= MAX_STACK_DEPTH ==> BodyMatches(w, scope, b', slots', AbstractRun(w.p, w.fn, code.value, a).value))
  }

  lemma StatementFrom(w: World, scope: Scope, c: seq<Instruction>, i: Instruction, a: AbstractState, values: seq<AbstractValue>,
                      need: nat, b': BodyState, slots': Slots)
    requires TablesFit(w.fn) && |a.initialized| == w.fn.localCount && a.stack == [] && !i.Return?
    requires Runs(w, Some(c), a, values, need) && BodyStatic(w, scope, b', slots')
    requires need <= MAX_STACK_DEPTH ==>
               var step := AbstractStep(w.p, w.fn, i, true, AbstractRun(w.p, w.fn, c, a).value);
               step.Some? && BodyMatches(w, scope, b', slots', step.value)
    ensures StatementRuns(w, scope, Some(c + [i]), a, b', slots', need)
  {
    AbstractRunAppend(w.p, w.fn, c, [i], a);
    if need <= MAX_STACK_DEPTH {
      AbstractRunOne(w.p, w.fn, i, AbstractRun(w.p, w.fn, c, a).value);
    }
  }

  lemma LetStatic(w: World, scope: Scope, s: Statement<i64>, b: BodyState, slots: Slots)
    requires TablesFit(w.fn) && BodyStatic(w, scope, b, slots)
    requires s.LetStatement? && s.name !in b.locals
    requires |slots| < w.fn.localCount && w.fn.localTypes[|slots|] == s.valueType
    requires SlotLabel(w.fn, |slots|) == LabelOr(s.information) && (!w.flow ==> s.information.None?)
    ensures BodyStatic(w, scope, b.(locals := b.locals[s.name := ValueInfo(s.valueType, LabelOr(s.information))]),
                       slots[s.name := |slots|])
  {
    assert |slots[s.name := |slots|]| == |slots| + 1;
  }

  lemma StoreStep(w: World, scope: Scope, s: Statement<i64>, info: ValueInfo, b: BodyState, slots: Slots, a: AbstractState)
    requires WorldOk(w) && ScopeMatches(w, scope) && BodyMatches(w, scope, b, slots, a.(stack := []))
    requires s.LetStatement? && s.name !in b.locals && a.stack == [Abstract(info)]
    requires info.ty == s.valueType && (if w.flow then info.information.CanFlowTo(LabelOr(s.information)) else info.information.Public?)
    requires |slots| < w.fn.localCount && w.fn.localTypes[|slots|] == s.valueType
    requires SlotLabel(w.fn, |slots|) == LabelOr(s.information) && (!w.flow ==> s.information.None?)
    ensures var step := AbstractStep(w.p, w.fn, StoreLocal(|slots|), true, a);
            && step.Some?
            && BodyMatches(w, scope, b.(locals := b.locals[s.name := ValueInfo(s.valueType, LabelOr(s.information))]),
                           slots[s.name := |slots|], step.value)
  {
    LetStatic(w, scope, s, b, slots);
    var slots' := slots[s.name := |slots|];
    assert |slots'| == |slots| + 1;
    hide BodyStatic;
  }

  /** A let without diagnostics: the initializer has the declared type and flows into the declared label. */
  lemma LetErrorFree(w: World, scope: Scope, s: Statement<i64>, b: BodyState)
    requires scope.sigs == w.sigs && scope.flow == w.flow && scope.effects == w.effects
    requires s.LetStatement? && CheckLet(scope, s, b).errors == 0
    ensures Type_(w, b.locals, s.value).errors == 0 && Type_(w, b.locals, s.value).info.Some?
    ensures var info := Type_(w, b.locals, s.value).info.value;
            info.ty == s.valueType && (w.flow ==> info.information.CanFlowTo(LabelOr(s.information)))
    ensures s.name !in b.locals && b.errors == 0
    ensures CheckLet(scope, s, b) == b.(locals := b.locals[s.name := ValueInfo(s.valueType, LabelOr(s.information))])
  {
  }

  lemma StoreRuns(w: World, scope: Scope, s: Statement<i64>, info: ValueInfo, c: seq<Instruction>, need: nat, b: BodyState,
                  slots: Slots, a: AbstractState)
    requires WorldOk(w) && ScopeMatches(w, scope) && BodyMatches(w, scope, b, slots, a)
    requires s.LetStatement? && s.name !in b.locals
    requires info.ty == s.valueType && (if w.flow then info.information.CanFlowTo(LabelOr(s.information)) else info.information.Public?)
    requires |slots| < w.fn.localCount && w.fn.localTypes[|slots|] == s.valueType
    requires SlotLabel(w.fn, |slots|) == LabelOr(s.information) && (!w.flow ==> s.information.None?)
    requires Runs(w, Some(c), a, [Abstract(info)], need)
    ensures StatementRuns(w, scope, Some(c + [StoreLocal(|slots|)]), a,
                          b.(locals := b.locals[s.name := ValueInfo(s.valueType, LabelOr(s.information))]),
                          slots[s.name := |slots|], need)
  {
    LetStatic(w, scope, s, b, slots);
    var b' := b.(locals := b.locals[s.name := ValueInfo(s.valueType, LabelOr(s.information))]);
    if need <= MAX_STACK_DEPTH {
      StoreStep(w, scope, s, info, b, slots, AbstractRun(w.p, w.fn, c, a).value);
    }
    StatementFrom(w, scope, c, StoreLocal(|slots|), a, [Abstract(info)], need, b', slots[s.name := |slots|]);
  }

  lemma LetRuns(w: World, scope: Scope, s: Statement<i64>, b: BodyState, slots: Slots, a: AbstractState)
    requires WorldOk(w) && ScopeMatches(w, scope) && BodyMatches(w, scope, b, slots, a)
    requires s.LetStatement? && CheckLet(scope, s, b).errors == 0
    requires |slots| < w.fn.localCount && w.fn.localTypes[|slots|] == s.valueType
    requires SlotLabel(w.fn, |slots|) == LabelOr(s.information) && (!w.flow ==> s.information.None?)
    ensures StatementRuns(w, scope, EmitStatement(CanonicalStatement(s), slots, w.indexes), a, CheckLet(scope, s, b),
                          SlotsAfter(CanonicalStatement(s), slots), StatementNeed(CanonicalStatement(s)))
  {
    LetErrorFree(w, scope, s, b);
    BodyLocalsMatch(w, scope, b, slots, a);
    ExpressionRuns(w, b.locals, slots, s.value, a);
    var c := Emit(CanonicalExpression(s.value), slots, w.indexes).value;
    StoreRuns(w, scope, s, Type_(w, b.locals, s.value).info.value, c, Need(CanonicalExpression(s.value)), b, slots, a);
  }

  lemma PopRuns(w: World, scope: Scope, e: Expression<i64>, b: BodyState, slots: Slots, a: AbstractState)
    requires WorldOk(w) && ScopeMatches(w, scope) && BodyMatches(w, scope, b, slots, a)
    requires Type_(w, b.locals, e).errors == 0
    ensures StatementRuns(w, scope, EmitStatement(ExpressionStatement(CanonicalExpression(e)), slots, w.indexes), a, b, slots,
                          Need(CanonicalExpression(e)))
  {
    BodyLocalsMatch(w, scope, b, slots, a);
    ExpressionRuns(w, b.locals, slots, e, a);
    var c := Emit(CanonicalExpression(e), slots, w.indexes).value;
    StatementFrom(w, scope, c, Pop, a, [Abstract(Type_(w, b.locals, e).info.value)], Need(CanonicalExpression(e)), b, slots);
  }

  lemma RequestAccepted(w: World, scope: Scope, s: Statement<i64>, infos: seq<ValueInfo>, b: BodyState, slots: Slots, a: AbstractState)
    requires WorldOk(w) && ScopeMatches(w, scope) && BodyMatches(w, scope, b, slots, a.(stack := []))
    requires s.RequestStatement? && CheckRequest(scope, s, b).errors == 0
    requires StatementNamed(scope.linear, w.flow, s)
    requires a.stack == Abstracts(infos) && |infos| == |s.arguments|
    requires forall k :: 0 <= k < |infos| ==> infos[k].information.CanFlowTo(LabelOr(s.information))
    ensures AbstractRequest(w.p, w.fn, Request(s.effect, s.authority, s.information, |s.arguments|), a)
         == Some(a.(stack := [], consumed := Consumed(scope, CheckRequest(scope, s, b))))
  {
    assert s.effect in EffectSet(w.fn.effects);
    assert a.stack[..0] == [];
    if scope.linear {
      var name := s.authority.value;
      assert scope.slots.Keys - (b.available - {name}) == (scope.slots.Keys - b.available) + {name};
    }
  }

  lemma RequestStepRuns(w: World, scope: Scope, s: Statement<i64>, infos: seq<ValueInfo>, b: BodyState, slots: Slots, a: AbstractState)
    requires WorldOk(w) && ScopeMatches(w, scope) && BodyMatches(w, scope, b, slots, a.(stack := []))
    requires s.RequestStatement? && CheckRequest(scope, s, b).errors == 0
    requires StatementNamed(scope.linear, w.flow, s)
    requires a.stack == Abstracts(infos) && |infos| == |s.arguments|
    requires forall k :: 0 <= k < |infos| ==> infos[k].information.CanFlowTo(LabelOr(s.information))
    ensures var i := Request(s.effect, s.authority, s.information, |s.arguments|);
            var step := AbstractStep(w.p, w.fn, i, true, a);
            && step.Some?
            && BodyMatches(w, scope, CheckRequest(scope, s, b), slots, step.value)
  {
    RequestAccepted(w, scope, s, infos, b, slots, a);
  }

  lemma RequestRuns(w: World, scope: Scope, s: Statement<i64>, b: BodyState, slots: Slots, a: AbstractState)
    requires WorldOk(w) && ScopeMatches(w, scope) && BodyMatches(w, scope, b, slots, a)
    requires s.RequestStatement? && CheckRequest(scope, s, b).errors == 0
    requires StatementNamed(scope.linear, w.flow, s)
    ensures StatementRuns(w, scope, EmitStatement(CanonicalStatement(s), slots, w.indexes), a, CheckRequest(scope, s, b), slots,
                          StatementNeed(CanonicalStatement(s)))
  {
    var infos := SinkTyped(w, b.locals, s.arguments, LabelOr(s.information));
    BodyLocalsMatch(w, scope, b, slots, a);
    AllRun(w, b.locals, slots, s.arguments, infos, a);
    var arguments := CanonicalExpressions(s.arguments);
    var c := EmitAll(arguments, slots, w.indexes).value;
    var i := Request(s.effect, s.authority, s.information, |s.arguments|);
    if NeedAll(arguments) <= MAX_STACK_DEPTH {
      var mid := AbstractRun(w.p, w.fn, c, a).value;
      assert mid.stack == Abstracts(infos);
      RequestStepRuns(w, scope, s, infos, b, slots, mid);
    }
    StatementFrom(w, scope, c, i, a, Abstracts(infos), NeedAll(arguments), CheckRequest(scope, s, b), slots);
  }

  /** A return ends the abstract run with an empty stack. */
  lemma ReturnRuns(w: World, scope: Scope, result: Option<Expression<i64>>, b: BodyState, slots: Slots, a: AbstractState)
    requires WorldOk(w) && ScopeMatches(w, scope) && BodyMatches(w, scope, b, slots, a)
    requires CheckReturn(scope, b.locals, result) == 0
    ensures EmitStatement(CanonicalStatement(ReturnStatement(result)), slots, w.indexes).Some?
    ensures var code := EmitStatement(CanonicalStatement(ReturnStatement(result)), slots, w.indexes).value;
            && EndsInReturn(code)
            && (StatementNeed(CanonicalStatement(ReturnStatement(result))) <= MAX_STACK_DEPTH <==>
                  AbstractRun(w.p, w.fn, code, a).Some?)
            && (AbstractRun(w.p, w.fn, code, a).Some? ==> AbstractRun(w.p, w.fn, code, a).value.consumed == a.consumed)
  {
    match result
    case None =>
      var c := [Push(UnitValue)];
      assert c + [Return] == [Push(UnitValue), Return];
      AbstractRunOne(w.p, w.fn, c[0], a);
      ThenReturn(w, c, a, AbstractValue(Unit, Public), 1);
    case Some(e) =>
      ReturnedValue(w, scope, e, b);
      BodyLocalsMatch(w, scope, b, slots, a);
      ExpressionRuns(w, b.locals, slots, e, a);
      ThenReturn(w, Emit(CanonicalExpression(e), slots, w.indexes).value, a, Abstract(Type_(w, b.locals, e).info.value),
                 Need(CanonicalExpression(e)));
  }

  /** Code for one value of the declared type and label, followed by a return. */
  lemma ThenReturn(w: World, c: seq<Instruction>, a: AbstractState, v: AbstractValue, need: nat)
    requires TablesFit(w.fn) && |a.initialized| == w.fn.localCount && a.stack == []
    requires Runs(w, Some(c), a, [v], need)
    requires v.ty == w.fn.returnType && v.information.CanFlowTo(LabelOr(w.fn.returnInformation))
    ensures EndsInReturn(c + [Return])
    ensures need <= MAX_STACK_DEPTH <==> AbstractRun(w.p, w.fn, c + [Return], a).Some?
    ensures AbstractRun(w.p, w.fn, c + [Return], a).Some? ==> AbstractRun(w.p, w.fn, c + [Return], a).value.consumed == a.consumed
  {
    hide AbstractRun, AbstractInvoke, AbstractRequest, AbstractOperate;
    AbstractRunAppend(w.p, w.fn, c, [Return], a);
    if need <= MAX_STACK_DEPTH {
      AbstractRunOne(w.p, w.fn, Return, AbstractRun(w.p, w.fn, c, a).value);
    }
  }

  lemma ReturnedValue(w: World, scope: Scope, e: Expression<i64>, b: BodyState)
    requires WorldOk(w) && ScopeMatches(w, scope) && CheckReturn(scope, b.locals, Some(e)) == 0
    ensures Type_(w, b.locals, e).errors == 0 && Type_(w, b.locals, e).info.Some?
    ensures var info := Type_(w, b.locals, e).info.value;
            info.ty == w.fn.returnType && (w.flow ==> info.information.CanFlowTo(LabelOr(w.fn.returnInformation)))
  {
    TypedHasInfo(w, b.locals, e);
  }

  lemma {:induction false} ErrorsGrow(scope: Scope, body: seq<Statement<i64>>, b: BodyState)
    ensures CheckStatements(scope, body, b).errors >= b.errors
  {
    if body != [] {
      ErrorsGrow(scope, body[1..], CheckStatement(scope, body[0], b));
    }
  }

  /** The frame tables continue after a statement; a let finds its own entry first. */
  lemma TablesAdvance(w: World, slots: Slots, body: seq<Statement<i64>>)
    requires TablesFit(w.fn) && body != [] && TablesContinue(w, slots, body)
    requires body[0].LetStatement? ==> body[0].name !in slots && InformationPresence(w.flow, body[0].information)
    requires !w.flow ==> w.fn.localInformation.None?
    ensures TablesContinue(w, SlotsAfter(CanonicalStatement(body[0]), slots), body[1..])
    ensures body[0].LetStatement? ==>
              && |slots| < w.fn.localCount && w.fn.localTypes[|slots|] == body[0].valueType
              && SlotLabel(w.fn, |slots|) == LabelOr(body[0].information)
              && (!w.flow ==> body[0].information.None?)
  {
    var canonical := CanonicalBody(body);
    assert canonical[0] == CanonicalStatement(body[0]) && canonical[1..] == CanonicalBody(body[1..]);
    if body[0].LetStatement? {
      var ty, information := body[0].valueType, body[0].information;
      assert LetTypes(canonical) == [ty] + LetTypes(canonical[1..]);
      assert w.fn.localTypes[|slots|..][0] == ty;
      assert w.fn.localTypes[|slots|..][1..] == w.fn.localTypes[|slots| + 1..];
      if w.flow {
        assert LetLabels(canonical).value == [information.value] + LetLabels(canonical[1..]).value;
        assert w.fn.localInformation.value[|slots|..][0] == information.value;
        assert w.fn.localInformation.value[|slots|..][1..] == w.fn.localInformation.value[|slots| + 1..];
      }
      assert |slots[body[0].name := |slots|]| == |slots| + 1;
    }
  }

  lemma OtherStatementRuns(w: World, scope: Scope, body: seq<Statement<i64>>, b: BodyState, slots: Slots, a: AbstractState)
    requires WorldOk(w) && ScopeMatches(w, scope) && BodyMatches(w, scope, b, slots, a)
    requires body != [] && !body[0].ReturnStatement?
    requires b.errors == 0 && !b.returned && CheckStatement(scope, body[0], b).errors == 0
    requires StatementNamed(scope.linear, w.flow, body[0])
    requires TablesContinue(w, slots, body)
    ensures StatementRuns(w, scope, EmitStatement(CanonicalStatement(body[0]), slots, w.indexes), a,
                          CheckStatement(scope, body[0], b), SlotsAfter(CanonicalStatement(body[0]), slots),
                          StatementNeed(CanonicalStatement(body[0])))
    ensures TablesContinue(w, SlotsAfter(CanonicalStatement(body[0]), slots), body[1..])
  {
    var s := body[0];
    if s.LetStatement? {
      LetErrorFree(w, scope, s, b);
    }
    TablesAdvance(w, slots, body);
    match s
    case LetStatement(_, _, _, _) => LetRuns(w, scope, s, b, slots, a);
    case RequestStatement(_, _, _, _) => RequestRuns(w, scope, s, b, slots, a);
    case ExpressionStatement(e) => PopRuns(w, scope, e, b, slots, a);
  }

  /** The abstract run of a body's code succeeds within the stack limit and consumes what the rules consumed. */
  ghost predicate BodyAccepted(w: World, scope: Scope, body: seq<Statement<i64>>, b: BodyState, slots: Slots, a: AbstractState)
    requires TablesFit(w.fn) && |a.initialized| == w.fn.localCount
  {
    && EmitBody(CanonicalBody(body), slots, w.indexes).Some?
    && var code := EmitBody(CanonicalBody(body), slots, w.indexes).value;
    && EndsInReturn(code)
    && (BodyNeed(CanonicalBody(body)) <= MAX_STACK_DEPTH <==> AbstractRun(w.p, w.fn, code, a).Some?)
    && (AbstractRun(w.p, w.fn, code, a).Some? ==>
          AbstractRun(w.p, w.fn, code, a).value.consumed == Consumed(scope, CheckStatements(scope, body, b)))
  }

  lemma {:induction false} BodyRuns(w: World, scope: Scope, body: seq<Statement<i64>>, b: BodyState, slots: Slots, a: AbstractState)
    requires WorldOk(w) && ScopeMatches(w, scope) && BodyMatches(w, scope, b, slots, a)
    requires b.errors == 0 && !b.returned
    requires CheckStatements(scope, body, b).errors == 0 && CheckStatements(scope, body, b).returned
    requires forall k :: 0 <= k < |body| ==> StatementNamed(scope.linear, w.flow, body[k])
    requires TablesContinue(w, slots, body)
    ensures BodyAccepted(w, scope, body, b, slots, a)
  {
    hide ScopeMatches, StatementNamed, TablesContinue, AbstractRun, EmitStatement, BodyAccepted;
    var s := body[0];
    BodyGoesOn(scope, body, b);
    if s.ReturnStatement? {
      LastStatementRuns(w, scope, body, b, slots, a);
    } else {
      var b' := CheckStatement(scope, s, b);
      OtherStatementRuns(w, scope, body, b, slots, a);
      var slots' := SlotsAfter(CanonicalStatement(s), slots);
      // Whether or not this statement fits, the rest of the body emits code that ends in a return.
      BodyRuns(w, scope, body[1..], b', slots', StateFor(w, scope, b', slots'));
      if StatementNeed(CanonicalStatement(s)) <= MAX_STACK_DEPTH {
        var c := EmitStatement(CanonicalStatement(s), slots, w.indexes).value;
        BodyRuns(w, scope, body[1..], b', slots', AbstractRun(w.p, w.fn, c, a).value);
      }
      FirstThenRest(w, scope, body, b, slots, a);
    }
  }

  /** In a body without diagnostics a return is last, and any other statement leaves such a body. */
  lemma BodyGoesOn(scope: Scope, body: seq<Statement<i64>>, b: BodyState)
    requires b.errors == 0 && !b.returned
    requires CheckStatements(scope, body, b).errors == 0 && CheckStatements(scope, body, b).returned
    ensures body != []
    ensures var b' := CheckStatement(scope, body[0], b);
            && b'.errors == 0
            && (body[0].ReturnStatement? ==> |body| == 1)
            && (!body[0].ReturnStatement? ==>
                  !b'.returned && CheckStatements(scope, body[1..], b').errors == 0 && CheckStatements(scope, body[1..], b').returned)
  {
    var b' := CheckStatement(scope, body[0], b);
    ErrorsGrow(scope, body[1..], b');
    if body[0].ReturnStatement? && body[1..] != [] {
      ErrorsGrow(scope, body[1..][1..], CheckStatement(scope, body[1], b'));
    }
  }

  lemma FirstThenRest(w: World, scope: Scope, body: seq<Statement<i64>>, b: BodyState, slots: Slots, a: AbstractState)
    requires TablesFit(w.fn) && |a.initialized| == w.fn.localCount && body != []
    requires var s := CanonicalStatement(body[0]);
             var b', slots' := CheckStatement(scope, body[0], b), SlotsAfter(s, slots);
             && StatementRuns(w, scope, EmitStatement(s, slots, w.indexes), a, b', slots', StatementNeed(s))
             && BodyAccepted(w, scope, body[1..], b', slots', StateFor(w, scope, b', slots'))
             && (StatementNeed(s) <= MAX_STACK_DEPTH ==>
                   BodyAccepted(w, scope, body[1..], b', slots',
                                AbstractRun(w.p, w.fn, EmitStatement(s, slots, w.indexes).value, a).value))
    ensures BodyAccepted(w, scope, body, b, slots, a)
  {
    hide CanonicalStatement, CanonicalBody, EmitStatement, EmitBody, SlotsAfter, CheckStatement, AbstractRun, BodyMatches, BodyStatic;
    var s := CanonicalStatement(body[0]);
    var c := EmitStatement(s, slots, w.indexes).value;
    var rest := EmitBody(CanonicalBody(body[1..]), SlotsAfter(s, slots), w.indexes).value;
    BodySplits(body, slots, w.indexes);
    AbstractRunAppend(w.p, w.fn, c, rest, a);
    assert (c + rest)[|c + rest| - 1] == rest[|rest| - 1];
  }

  lemma BodySplits(body: seq<Statement<i64>>, slots: Slots, indexes: map<string, nat>)
    requires body != []
    ensures var first, rest := CanonicalStatement(body[0]), CanonicalBody(body[1..]);
            && BodyNeed(CanonicalBody(body)) == Max(StatementNeed(first), BodyNeed(rest))
            && EmitBody(CanonicalBody(body), slots, indexes) ==
               match (EmitStatement(first, slots, indexes), EmitBody(rest, SlotsAfter(first, slots), indexes))
               case (Some(c1), Some(c2)) => Some(c1 + c2)
               case (_, _) => None
  {
    var canonical := CanonicalBody(body);
    assert canonical[0] == CanonicalStatement(body[0]) && canonical[1..] == CanonicalBody(body[1..]);
  }

  lemma LastStatementRuns(w: World, scope: Scope, body: seq<Statement<i64>>, b: BodyState, slots: Slots, a: AbstractState)
    requires WorldOk(w) && ScopeMatches(w, scope) && BodyMatches(w, scope, b, slots, a)
    requires |body| == 1 && body[0].ReturnStatement? && b.errors == 0 && !b.returned
    requires CheckStatements(scope, body, b).errors == 0
    ensures BodyAccepted(w, scope, body, b, slots, a)
  {
    assert CheckStatements(scope, body, b) == CheckStatement(scope, body[0], b);
    ReturnRuns(w, scope, body[0].result, b, slots, a);
    BodySplits(body, slots, w.indexes);
    var c := EmitStatement(CanonicalStatement(body[0]), slots, w.indexes).value;
    assert c + [] == c;
  }
}
