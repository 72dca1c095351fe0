// Verified bytecode cannot go wrong: what the verifier computes abstractly is
// what the machine does concretely, and the only failures left are an exhausted
// budget and checked arithmetic.
module Safety {
  import opened Prelude
  import opened CallGraph
  import opened Ast
  import opened Bytecode
  import opened Verifier
  import opened CycleSearch
  import opened Machine

  ghost predicate Accepted(p: BytecodeProgram, f: nat) {
    f < |p.functions| && FunctionOk(p, p.functions[f])
  }

  /** What the structural verifier establishes, with a rank that witnesses acyclicity. */
  ghost predicate WellFormed(p: BytecodeProgram, rank: seq<nat>) {
    && |p.functions| <= MAX_FUNCTIONS
    && (forall f {:trigger Accepted(p, f)} :: 0 <= f < |p.functions| ==> Accepted(p, f))
    && Ranked(p.functions, rank)
  }

  lemma Fits(p: BytecodeProgram, rank: seq<nat>, f: nat)
    requires WellFormed(p, rank) && f < |p.functions|
    ensures FrameOk(p.functions[f]) && TablesFit(p.functions[f])
    ensures |rank| == |p.functions| && rank[f] < |p.functions| <= MAX_CALL_DEPTH
  {
    assert Accepted(p, f) && RankedAt(p.functions, rank, f);
  }

  lemma Verified(p: BytecodeProgram, rank: seq<nat>, f: nat)
    requires WellFormed(p, rank) && f < |p.functions|
    ensures FrameOk(p.functions[f]) && TablesFit(p.functions[f])
    ensures AbstractRun(p, p.functions[f], p.functions[f].instructions, InitialState(p.functions[f])).Some?
    ensures EndsInReturn(p.functions[f].instructions)
    ensures |rank| == |p.functions| && rank[f] < |p.functions| <= MAX_CALL_DEPTH
    ensures CallsBelow(p.functions[f].instructions, rank, rank[f])
  {
    assert Accepted(p, f) && RankedAt(p.functions, rank, f);
  }

  lemma StepTargetsKnown(p: BytecodeProgram, f: BytecodeFunction, i: Instruction, last: bool, a: AbstractState)
    requires TablesFit(f) && |a.initialized| == f.localCount
    requires AbstractStep(p, f, i, last, a).Some?
    ensures i.Invoke? ==> i.target < |p.functions|
  {
  }

  lemma {:induction false} RunTargetsKnown(p: BytecodeProgram, f: BytecodeFunction, code: seq<Instruction>, a: AbstractState)
    requires TablesFit(f) && |a.initialized| == f.localCount
    requires AbstractRun(p, f, code, a).Some?
    ensures forall t :: t in Targets(code) ==> t < |p.functions|
    decreases |code|
  {
    if code != [] {
      StepTargetsKnown(p, f, code[0], |code| == 1, a);
      RunTargetsKnown(p, f, code[1..], AbstractStep(p, f, code[0], |code| == 1, a).value);
    }
  }

  lemma GraphIsClosed(p: BytecodeProgram)
    requires forall i :: 0 <= i < |p.functions| ==> FunctionOk(p, p.functions[i])
    ensures Closed(GraphOf(p.functions))
  {
    forall i, t | 0 <= i < |p.functions| && t in GraphOf(p.functions)[i] ensures t < |p.functions| {
      var f := p.functions[i];
      assert FunctionOk(p, f);
      RunTargetsKnown(p, f, f.instructions, InitialState(f));
    }
  }

  lemma AcyclicHasRank(functions: seq<BytecodeFunction>)
    requires Closed(GraphOf(functions)) && Acyclic(AsGraph(GraphOf(functions)))
    ensures exists rank: seq<nat> :: Ranked(functions, rank)
  {
    var order := TopologicalOrderExists(AsGraph(GraphOf(functions)), Below(|functions|), []);
    TopologicalRanks(functions, order);
  }

  lemma StructureIsWellFormed(p: BytecodeProgram)
    requires StructureOk(p)
    ensures exists rank: seq<nat> :: WellFormed(p, rank)
  {
    GraphIsClosed(p);
    AcyclicHasRank(p.functions);
    var rank: seq<nat> :| Ranked(p.functions, rank);
    forall f: nat | f < |p.functions| ensures Accepted(p, f) {
      assert FunctionOk(p, p.functions[f]);
    }
    assert WellFormed(p, rank);
  }

  // ---------- typed frames ----------

  predicate ValuesTyped(values: seq<Value>, types: seq<Type>) {
    |values| == |types| && forall i :: 0 <= i < |values| ==> TypeOf(values[i]) == types[i]
  }

  predicate StackTyped(stack: seq<Value>, types: seq<AbstractValue>) {
    |stack| == |types| && forall i :: 0 <= i < |stack| ==> TypeOf(stack[i]) == types[i].ty
  }

  predicate LocalsTyped(f: BytecodeFunction, initialized: seq<bool>, locals: seq<Value>) {
    && |locals| == |initialized| == |f.localTypes|
    && forall s :: 0 <= s < |locals| && initialized[s] ==> TypeOf(locals[s]) == f.localTypes[s]
  }

  predicate FrameTyped(f: BytecodeFunction, a: AbstractState, frame: Frame) {
    StackTyped(frame.stack, a.stack) && LocalsTyped(f, a.initialized, frame.locals)
  }

  /** What may stop verified code: the budget, checked arithmetic, and a request without an identity. */
  predicate Permitted(schema: Schema, e: VmError) {
    e.BudgetExhausted? || e.Arithmetic? || (e.UnencodableRequest? && schema.IsLinear())
  }

  lemma PrefixOfPrefix<T>(s: seq<T>, k: nat, n: nat)
    requires n <= k <= |s|
    ensures s[..k][..n] == s[..n]
  {
  }

  lemma OperateSafe(op: Opcode, stack: seq<Value>, types: seq<AbstractValue>)
    requires StackTyped(stack, types) && AbstractOperate(op, types).Some?
    ensures match OperateOn(op, stack)
            case Ok(result) => StackTyped(result, AbstractOperate(op, types).value)
            case Err(e) => e.Arithmetic?
  {
    var n := |stack|;
    assert n >= 2;
    var left, right := stack[n - 2], stack[n - 1];
    PrefixOfPrefix(stack, n - 1, n - 2);
    PrefixOfPrefix(types, n - 1, n - 2);
    assert TypeOf(left) == types[n - 2].ty && TypeOf(right) == types[n - 1].ty;
  }

  lemma LocalStepSafe(p: BytecodeProgram, f: BytecodeFunction, i: Instruction, last: bool, a: AbstractState, frame: Frame)
    requires TablesFit(f) && |a.initialized| == f.localCount && IsLocalStep(i)
    requires AbstractOp(p, f, i, last, a).Some? && FrameTyped(f, a, frame)
    ensures match LocalStep(i, frame)
            case Ok(frame') => FrameTyped(f, AbstractOp(p, f, i, last, a).value, frame')
            case Err(e) => e.Arithmetic?
  {
    if i.Operate? {
      OperateSafe(i.opcode, frame.stack, a.stack);
    }
  }

  lemma RequestSafe(p: BytecodeProgram, f: BytecodeFunction, i: Instruction, last: bool, a: AbstractState, frame: Frame,
                    m: MachineState)
    requires TablesFit(f) && |a.initialized| == f.localCount && i.Request?
    requires p.schema == p.canonicalAst.schema
    requires AbstractOp(p, f, i, last, a).Some? && FrameTyped(f, a, frame)
    ensures match RecordRequest(p, f.name, i, frame, m)
            case Running(frame', _) => FrameTyped(f, AbstractOp(p, f, i, last, a).value, frame')
            case Failed(e, _) => e.UnencodableRequest? && p.schema.IsLinear()
            case Returned(_, _) => false
  {
  }

  lemma InvokeSafe(p: BytecodeProgram, f: BytecodeFunction, i: Instruction, last: bool, a: AbstractState, frame: Frame, v: Value)
    requires TablesFit(f) && |a.initialized| == f.localCount && i.Invoke?
    requires AbstractOp(p, f, i, last, a).Some? && FrameTyped(f, a, frame)
    requires FrameOk(p.functions[i.target])
    ensures i.argumentCount <= |frame.stack|
    ensures var base := |frame.stack| - i.argumentCount;
            && ValuesTyped(frame.stack[base..], p.functions[i.target].parameterTypes)
            && (TypeOf(v) == p.functions[i.target].returnType ==>
                  FrameTyped(f, AbstractOp(p, f, i, last, a).value, frame.(stack := frame.stack[..base] + [v])))
  {
  }

  // ---------- runs ----------

  lemma {:induction false} CallSafe(p: BytecodeProgram, rank: seq<nat>, f: nat, arguments: seq<Value>, depth: nat, m: MachineState)
    requires WellFormed(p, rank) && p.schema == p.canonicalAst.schema
    requires f < |p.functions| == |rank| && depth + rank[f] < MAX_CALL_DEPTH
    requires ValuesTyped(arguments, p.functions[f].parameterTypes)
    ensures match RunCall(p, f, arguments, depth, m)
            case Returned(v, _) => TypeOf(v) == p.functions[f].returnType
            case Failed(e, _) => Permitted(p.schema, e)
            case Running(_, _) => true
    decreases Room(depth), 2, 0
  {
    var fn := p.functions[f];
    Verified(p, rank, f);
    var frame := EntryFrame(fn, arguments);
    assert FrameTyped(fn, InitialState(fn), frame);
    RunSafe(p, rank, f, depth, fn.instructions, InitialState(fn), frame, m.(entered := m.entered + [f]));
  }

  lemma {:induction false} RunSafe(p: BytecodeProgram, rank: seq<nat>, f: nat, depth: nat, code: seq<Instruction>, a: AbstractState,
                                   frame: Frame, m: MachineState)
    requires WellFormed(p, rank) && p.schema == p.canonicalAst.schema
    requires f < |p.functions| == |rank| && depth + rank[f] < MAX_CALL_DEPTH
    requires TablesFit(p.functions[f]) && |a.initialized| == p.functions[f].localCount
    requires AbstractRun(p, p.functions[f], code, a).Some?
    requires CallsBelow(code, rank, rank[f])
    requires FrameTyped(p.functions[f], a, frame)
    ensures match RunCode(p, f, depth, code, frame, m)
            case Running(frame', _) =>
              FrameTyped(p.functions[f], AbstractRun(p, p.functions[f], code, a).value, frame') && !EndsInReturn(code)
            case Returned(v, _) => TypeOf(v) == p.functions[f].returnType
            case Failed(e, _) => Permitted(p.schema, e)
    decreases Room(depth), 1, |code|
  {
    if code != [] {
      var fn := p.functions[f];
      var a' := AbstractStep(p, fn, code[0], |code| == 1, a).value;
      StepSafe(p, rank, f, depth, code[0], |code| == 1, a, frame, m);
      match RunStep(p, f, depth, code[0], frame, m)
      case Running(frame', m') =>
        assert EndsInReturn(code) && |code| > 1 ==> EndsInReturn(code[1..]);
        RunSafe(p, rank, f, depth, code[1..], a', frame', m');
      case _ =>
    }
  }

  lemma {:induction false} StepSafe(p: BytecodeProgram, rank: seq<nat>, f: nat, depth: nat, i: Instruction, last: bool, a: AbstractState,
                                    frame: Frame, m: MachineState)
    requires WellFormed(p, rank) && p.schema == p.canonicalAst.schema
    requires f < |p.functions| == |rank| && depth + rank[f] < MAX_CALL_DEPTH
    requires TablesFit(p.functions[f]) && |a.initialized| == p.functions[f].localCount
    requires AbstractStep(p, p.functions[f], i, last, a).Some?
    requires i.Invoke? ==> i.target < |rank| && rank[i.target] < rank[f]
    requires FrameTyped(p.functions[f], a, frame)
    ensures match RunStep(p, f, depth, i, frame, m)
            case Running(frame', _) =>
              FrameTyped(p.functions[f], AbstractStep(p, p.functions[f], i, last, a).value, frame') && !i.Return?
            case Returned(v, _) => TypeOf(v) == p.functions[f].returnType
            case Failed(e, _) => Permitted(p.schema, e)
    decreases Room(depth), 0, 1
  {
    if i.Invoke? {
      InvokeStepSafe(p, rank, f, depth, i, last, a, frame, m);
    } else {
      OtherStepSafe(p, f, depth, i, last, a, frame, m);
    }
  }

  lemma {:induction false} InvokeStepSafe(p: BytecodeProgram, rank: seq<nat>, f: nat, depth: nat, i: Instruction, last: bool,
                                          a: AbstractState, frame: Frame, m: MachineState)
    requires WellFormed(p, rank) && p.schema == p.canonicalAst.schema
    requires f < |p.functions| == |rank| && depth + rank[f] < MAX_CALL_DEPTH
    requires TablesFit(p.functions[f]) && |a.initialized| == p.functions[f].localCount
    requires i.Invoke? && AbstractStep(p, p.functions[f], i, last, a).Some?
    requires i.target < |rank| && rank[i.target] < rank[f]
    requires FrameTyped(p.functions[f], a, frame)
    ensures match RunStep(p, f, depth, i, frame, m)
            case Running(frame', _) => FrameTyped(p.functions[f], AbstractStep(p, p.functions[f], i, last, a).value, frame')
            case Returned(_, _) => false
            case Failed(e, _) => Permitted(p.schema, e)
    decreases Room(depth), 0, 0
  {
    var fn := p.functions[f];
    var m1 := m.(remaining := if m.remaining > 0 then m.remaining - 1 else 0, executed := m.executed + 1);
    Fits(p, rank, i.target);
    InvokeSafe(p, fn, i, last, a, frame, UnitValue);
    var arguments := frame.stack[|frame.stack| - i.argumentCount..];
    CallSafe(p, rank, i.target, arguments, depth + 1, m1);
    var called := RunCall(p, i.target, arguments, depth + 1, m1);
    if called.Returned? {
      InvokeSafe(p, fn, i, last, a, frame, called.value);
    }
  }

  lemma OtherStepSafe(p: BytecodeProgram, f: nat, depth: nat, i: Instruction, last: bool, a: AbstractState, frame: Frame,
                      m: MachineState)
    requires f < |p.functions| && depth < MAX_CALL_DEPTH && p.schema == p.canonicalAst.schema
    requires TablesFit(p.functions[f]) && |a.initialized| == p.functions[f].localCount
    requires !i.Invoke? && AbstractStep(p, p.functions[f], i, last, a).Some?
    requires FrameTyped(p.functions[f], a, frame)
    ensures match RunStep(p, f, depth, i, frame, m)
            case Running(frame', _) =>
              FrameTyped(p.functions[f], AbstractStep(p, p.functions[f], i, last, a).value, frame') && !i.Return?
            case Returned(v, _) => TypeOf(v) == p.functions[f].returnType
            case Failed(e, _) => Permitted(p.schema, e)
  {
    var fn := p.functions[f];
    var m1 := m.(remaining := if m.remaining > 0 then m.remaining - 1 else 0, executed := m.executed + 1);
    if i.Request? {
      RequestSafe(p, fn, i, last, a, frame, m1);
    } else if IsLocalStep(i) {
      LocalStepSafe(p, fn, i, last, a, frame);
    }
  }

  // ---------- the operand stack never exceeds the verified maximum ----------

  lemma {:induction false} DepthGrows(p: BytecodeProgram, f: BytecodeFunction, code: seq<Instruction>, a: AbstractState)
    requires TablesFit(f) && |a.initialized| == f.localCount
    requires AbstractRun(p, f, code, a).Some?
    ensures AbstractRun(p, f, code, a).value.maxDepth >= a.maxDepth
    ensures a.maxDepth <= MAX_STACK_DEPTH ==> AbstractRun(p, f, code, a).value.maxDepth <= MAX_STACK_DEPTH
    ensures |a.stack| <= a.maxDepth ==>
              |AbstractRun(p, f, code, a).value.stack| <= AbstractRun(p, f, code, a).value.maxDepth
    decreases |code|
  {
    if code != [] {
      DepthGrows(p, f, code[1..], AbstractStep(p, f, code[0], |code| == 1, a).value);
    }
  }

  lemma NotLastIsEnough(p: BytecodeProgram, f: BytecodeFunction, i: Instruction, last: bool, a: AbstractState)
    requires TablesFit(f) && |a.initialized| == f.localCount
    requires AbstractStep(p, f, i, false, a).Some?
    ensures AbstractStep(p, f, i, last, a) == AbstractStep(p, f, i, false, a)
  {
  }

  /** A list that can be run abstractly can be run in two parts; only the end may return. */
  lemma {:induction false} AbstractRunSplit(p: BytecodeProgram, f: BytecodeFunction, c1: seq<Instruction>, c2: seq<Instruction>,
                                            a: AbstractState)
    requires TablesFit(f) && |a.initialized| == f.localCount && c2 != []
    requires AbstractRun(p, f, c1 + c2, a).Some?
    ensures AbstractRun(p, f, c1, a).Some?
    ensures AbstractRun(p, f, c1 + c2, a) == AbstractRun(p, f, c2, AbstractRun(p, f, c1, a).value)
    decreases |c1|
  {
    if c1 == [] {
      assert c1 + c2 == c2;
    } else {
      assert (c1 + c2)[1..] == c1[1..] + c2;
      NotLastIsEnough(p, f, c1[0], |c1| == 1, a);
      AbstractRunSplit(p, f, c1[1..], c2, AbstractStep(p, f, c1[0], false, a).value);
    }
  }

  /** The maximum stack depth the verifier reports for a function. */
  function MaximumDepth(p: BytecodeProgram, f: BytecodeFunction): nat {
    if !TablesFit(f) then 0
    else
      match AbstractRun(p, f, f.instructions, InitialState(f))
      case None => 0
      case Some(a) => a.maxDepth
  }

  /** At every point of every call, the operand stack stays within the maximum the verifier computed. */
  lemma StackWithinMaximum(p: BytecodeProgram, rank: seq<nat>, f: nat, arguments: seq<Value>, depth: nat, m: MachineState, k: nat)
    requires WellFormed(p, rank) && p.schema == p.canonicalAst.schema
    requires f < |p.functions| == |rank| && depth + rank[f] < MAX_CALL_DEPTH
    requires ValuesTyped(arguments, p.functions[f].parameterTypes)
    requires k < |p.functions[f].instructions|
    ensures var r := RunCode(p, f, depth, p.functions[f].instructions[..k], EntryFrame(p.functions[f], arguments), m);
            r.Running? ==> |r.frame.stack| <= MaximumDepth(p, p.functions[f]) <= MAX_STACK_DEPTH
  {
    var fn := p.functions[f];
    Verified(p, rank, f);
    var a0 := InitialState(fn);
    var c1, c2 := fn.instructions[..k], fn.instructions[k..];
    assert fn.instructions == c1 + c2;
    AbstractRunSplit(p, fn, c1, c2, a0);
    DepthGrows(p, fn, c1, a0);
    DepthGrows(p, fn, c2, AbstractRun(p, fn, c1, a0).value);
    assert FrameTyped(fn, a0, EntryFrame(fn, arguments));
    RunSafe(p, rank, f, depth, c1, a0, EntryFrame(fn, arguments), m);
  }

  /** Type safety, for every function, every well-typed argument list and every budget. */
  lemma VerifiedCallsAreSafe(p: BytecodeProgram, f: nat, arguments: seq<Value>, budget: nat)
    requires StructureOk(p) && p.schema == p.canonicalAst.schema
    requires f < |p.functions| && ValuesTyped(arguments, p.functions[f].parameterTypes)
    ensures var r := RunCall(p, f, arguments, 0, MachineState(budget, 0, [], []));
            || (r.Returned? && TypeOf(r.value) == p.functions[f].returnType)
            || (r.Failed? && Permitted(p.schema, r.error))
  {
    StructureIsWellFormed(p);
    var rank: seq<nat> :| WellFormed(p, rank);
    Fits(p, rank, f);
    CallSafe(p, rank, f, arguments, 0, MachineState(budget, 0, [], []));
  }
}
