// Whole runs of native code: the simulation of the virtual machine, instruction
// by instruction and call by call, and what a caller of the backend observes.
module NativeSimulation {
  import opened Prelude
  import opened Ast
  import opened Bytecode
  import opened Verifier
  import opened Machine
  import opened Safety
  import opened NativeCode
  import opened NativeLowering
  import opened NativeRefinement

  // ---------- lowering verified code always succeeds ----------

  /** The names follow the abstract interpreter: as many as it has values, one for each initialized slot. */
  predicate ShapeFollows(shape: Shape, a: AbstractState) {
    && |shape.stack| == |a.stack|
    && |shape.locals| == |a.initialized|
    && forall s :: 0 <= s < |shape.locals| && a.initialized[s] ==> shape.locals[s].Some?
  }

  lemma LowersOne(p: BytecodeProgram, f: BytecodeFunction, i: Instruction, last: bool, a: AbstractState, shape: Shape)
    requires TablesFit(f) && |a.initialized| == f.localCount && InstructionInSubset(i)
    requires AbstractStep(p, f, i, last, a).Some? && ShapeFollows(shape, a)
    requires i.Invoke? ==> i.argumentCount == |p.functions[i.target].parameterTypes|
    ensures LowerInstruction(i, shape).Some?
    ensures ShapeFollows(LowerInstruction(i, shape).value.shape, AbstractStep(p, f, i, last, a).value)
  {
  }

  /** Signatures count their own types, so that a call leaves as many values as it should. */
  predicate SignaturesCount(p: BytecodeProgram) {
    forall t :: 0 <= t < |p.functions| ==> p.functions[t].parameterCount == |p.functions[t].parameterTypes|
  }

  lemma {:induction false} LowersAll(p: BytecodeProgram, f: BytecodeFunction, code: seq<Instruction>, a: AbstractState, shape: Shape)
    requires TablesFit(f) && |a.initialized| == f.localCount && SignaturesCount(p)
    requires forall k :: 0 <= k < |code| ==> InstructionInSubset(code[k])
    requires AbstractRun(p, f, code, a).Some? && ShapeFollows(shape, a)
    ensures LowerCode(code, shape).Some?
    decreases |code|
  {
    if code != [] {
      LowersOne(p, f, code[0], |code| == 1, a, shape);
      LowersAll(p, f, code[1..], AbstractStep(p, f, code[0], |code| == 1, a).value, LowerInstruction(code[0], shape).value.shape);
    }
  }

  lemma CountsAgree(p: BytecodeProgram, rank: seq<nat>)
    requires WellFormed(p, rank)
    ensures SignaturesCount(p)
  {
    forall t | 0 <= t < |p.functions| ensures p.functions[t].parameterCount == |p.functions[t].parameterTypes| {
      Fits(p, rank, t);
    }
  }

  /** Every function of a verified program in the subset can be lowered. */
  lemma VerifiedLowers(p: BytecodeProgram, rank: seq<nat>, f: nat)
    requires WellFormed(p, rank) && InSubset(p) && f < |p.functions|
    ensures LowerFunction(p.functions[f]).Some?
  {
    var fn := p.functions[f];
    Verified(p, rank, f);
    CountsAgree(p, rank);
    assert FunctionInSubset(fn);
    LowersAll(p, fn, fn.instructions, InitialState(fn), EntryShape(fn));
  }

  // ---------- one instruction ----------

  /** What native code does where the machine does r. */
  ghost predicate FlowRefines(r: Flow, n: NativeFlow, before: nat) {
    r.state.remaining <= before <= U64_MAX &&
    match r
    case Running(_, m) => n.Onward? && n.fuel == Pattern(m.remaining)
    case Returned(v, m) => NormalizeValue(v).Some? && n == Exited(STATUS_OK, NormalizeValue(v).value, Pattern(m.remaining))
    case Failed(e, m) => n == Exited(StatusOf(e), 0, Pattern(m.remaining))
  }

  ghost predicate StepRefines(r: Flow, n: NativeFlow, before: nat, shape: Shape, initialized: seq<bool>) {
    FlowRefines(r, n, before) && (r.Running? ==> FrameHolds(n.values, shape, initialized, r.frame))
  }

  /** An instruction inside the frame, without its fuel charge. */
  ghost predicate BodyRefines(r: Result<Frame, VmError>, n: NativeFlow, fuel: i64, shape: Shape, initialized: seq<bool>) {
    match r
    case Ok(frame) => n.Onward? && n.fuel == fuel && FrameHolds(n.values, shape, initialized, frame)
    case Err(e) => n == Exited(StatusOf(e), 0, fuel)
  }

  lemma TopOperands(op: Opcode, f: BytecodeFunction, a: AbstractState, shape: Shape, values: seq<i64>, frame: Frame)
    requires AbstractOperate(op, a.stack).Some? && FrameTyped(f, a, frame) && FrameHolds(values, shape, a.initialized, frame)
    ensures var n := |frame.stack|;
            && n >= 2 && |shape.stack| == n
            && Operands(op, frame.stack[n - 2], frame.stack[n - 1], shape.stack[n - 2], shape.stack[n - 1], values)
  {
    var n := |frame.stack|;
    assert NameHolds(values, shape.stack[n - 2], frame.stack[n - 2]) && NameHolds(values, shape.stack[n - 1], frame.stack[n - 1]);
    assert TypeOf(frame.stack[n - 2]) == a.stack[n - 2].ty && TypeOf(frame.stack[n - 1]) == a.stack[n - 1].ty;
    assert a.stack[..n - 1][n - 2] == a.stack[n - 2];
  }

  /** Where a frame goes when its top two values are replaced by the outcome of an opcode. */
  function Replaced(frame: Frame, outcome: Result<seq<Value>, VmError>): Result<Frame, VmError>
    requires |frame.stack| >= 2
  {
    match outcome
    case Ok(result) => Ok(frame.(stack := frame.stack[..|frame.stack| - 2] + result))
    case Err(e) => Err(e)
  }

  lemma ReplacedRefines(values: seq<i64>, run: NativeFlow, outcome: Result<seq<Value>, VmError>, name: nat, defined: nat, fuel: i64,
                        shape: Shape, initialized: seq<bool>, frame: Frame)
    requires FrameHolds(values, shape, initialized, frame) && |frame.stack| >= 2
    requires Computes(run, outcome, values, name, defined, fuel)
    ensures BodyRefines(Replaced(frame, outcome), run, fuel,
                        shape.(next := shape.next + defined, stack := shape.stack[..|shape.stack| - 2] + [name]), initialized)
  {
    if outcome.Ok? {
      KeepsHolding(values, run.values, shape, initialized, frame, |frame.stack| - 2, outcome.value, [name], defined);
    }
  }

  lemma OperateReplaces(op: Opcode, frame: Frame)
    requires |frame.stack| >= 2
    ensures var n := |frame.stack|;
            LocalStep(Operate(op), frame) == Replaced(frame, OperateOn(op, [frame.stack[n - 2], frame.stack[n - 1]]))
  {
    var n := |frame.stack|;
    OperateTopTwo(op, frame.stack);
    assert frame.stack[n - 2..] == [frame.stack[n - 2], frame.stack[n - 1]];
  }

  lemma OperateRefines(np: seq<NativeFunction>, op: Opcode, f: BytecodeFunction, a: AbstractState,
                       shape: Shape, values: seq<i64>, frame: Frame, fuel: i64, k: nat)
    requires AbstractOperate(op, a.stack).Some? && FrameTyped(f, a, frame) && FrameHolds(values, shape, a.initialized, frame)
    requires LowerBody(Operate(op), shape).Some?
    ensures var lowered := LowerBody(Operate(op), shape).value;
            BodyRefines(LocalStep(Operate(op), frame), NativeRun(np, lowered.ops, values, fuel, k), fuel, lowered.shape, a.initialized)
  {
    TopOperands(op, f, a, shape, values, frame);
    OperateRefinesTop(np, op, shape, a.initialized, values, frame, fuel, k);
  }

  lemma OperateRefinesTop(np: seq<NativeFunction>, op: Opcode, shape: Shape, initialized: seq<bool>, values: seq<i64>, frame: Frame,
                          fuel: i64, k: nat)
    requires FrameHolds(values, shape, initialized, frame) && |frame.stack| >= 2
    requires var n := |frame.stack|;
             Operands(op, frame.stack[n - 2], frame.stack[n - 1], shape.stack[n - 2], shape.stack[n - 1], values)
    ensures LowerBody(Operate(op), shape).Some?
    ensures var lowered := LowerBody(Operate(op), shape).value;
            BodyRefines(LocalStep(Operate(op), frame), NativeRun(np, lowered.ops, values, fuel, k), fuel, lowered.shape, initialized)
  {
    var n := |frame.stack|;
    var (ops, name, defined) := OperateOps(op, shape.stack[n - 2], shape.stack[n - 1], |values|);
    var outcome := OperateOn(op, [frame.stack[n - 2], frame.stack[n - 1]]);
    OperateRuns(np, op, frame.stack[n - 2], frame.stack[n - 1], shape.stack[n - 2], shape.stack[n - 1], values, fuel, k);
    OperateReplaces(op, frame);
    ReplacedRefines(values, NativeRun(np, ops, values, fuel, k), outcome, name, defined, fuel, shape, initialized, frame);
  }

  /** Popping some values, pushing others and defining new names keeps the frame held. */
  lemma KeepsHolding(values: seq<i64>, values': seq<i64>, shape: Shape, initialized: seq<bool>, frame: Frame, base: nat,
                     pushed: seq<Value>, names: seq<nat>, defined: nat)
    requires FrameHolds(values, shape, initialized, frame) && base <= |frame.stack|
    requires |values'| == |values| + defined && values'[..|values|] == values
    requires StackHolds(values', names, pushed)
    ensures FrameHolds(values', shape.(next := shape.next + defined, stack := shape.stack[..base] + names), initialized,
                       frame.(stack := frame.stack[..base] + pushed))
  {
    forall name: nat, v: Value | NameHolds(values, name, v) ensures NameHolds(values', name, v) {
      assert values[name] == values'[..|values|][name];
    }
  }

  lemma UnaryRefines(np: seq<NativeFunction>, p: BytecodeProgram, f: BytecodeFunction, i: Instruction, last: bool, a: AbstractState,
                     shape: Shape, values: seq<i64>, frame: Frame, fuel: i64, k: nat)
    requires TablesFit(f) && |a.initialized| == f.localCount && (i.Negate? || i.Not?)
    requires AbstractOp(p, f, i, last, a).Some? && FrameTyped(f, a, frame) && FrameHolds(values, shape, a.initialized, frame)
    requires LowerBody(i, shape).Some?
    ensures var lowered := LowerBody(i, shape).value;
            BodyRefines(LocalStep(i, frame), NativeRun(np, lowered.ops, values, fuel, k), fuel, lowered.shape, a.initialized)
  {
    var n := |frame.stack|;
    var v, name := frame.stack[n - 1], shape.stack[n - 1];
    assert NameHolds(values, name, v) && TypeOf(v) == a.stack[n - 1].ty;
    if i.Negate? {
      NegateRefines(np, shape, a.initialized, values, frame, fuel, k);
    } else {
      NotRefines(np, shape, a.initialized, values, frame, fuel, k);
    }
  }

  lemma NegateRefines(np: seq<NativeFunction>, shape: Shape, initialized: seq<bool>, values: seq<i64>, frame: Frame, fuel: i64, k: nat)
    requires FrameHolds(values, shape, initialized, frame) && |frame.stack| >= 1
    requires var top := |frame.stack| - 1; frame.stack[top].IntValue? && NameHolds(values, shape.stack[top], frame.stack[top])
    ensures LowerBody(Negate, shape).Some?
    ensures var lowered := LowerBody(Negate, shape).value;
            BodyRefines(LocalStep(Negate, frame), NativeRun(np, lowered.ops, values, fuel, k), fuel, lowered.shape, initialized)
  {
    var n := |frame.stack|;
    var name := shape.stack[n - 1];
    NegateRuns(np, name, values, fuel, k);
    var x: int := 0 - Read(values, name);
    if InI64(x) {
      KeepsHolding(values, values + [0, x, 0], shape, initialized, frame, n - 1, [IntValue(x)], [shape.next + 1], 3);
    }
  }

  lemma NotRefines(np: seq<NativeFunction>, shape: Shape, initialized: seq<bool>, values: seq<i64>, frame: Frame, fuel: i64, k: nat)
    requires FrameHolds(values, shape, initialized, frame) && |frame.stack| >= 1
    requires var top := |frame.stack| - 1; frame.stack[top].BoolValue? && NameHolds(values, shape.stack[top], frame.stack[top])
    ensures LowerBody(Not, shape).Some?
    ensures var lowered := LowerBody(Not, shape).value;
            BodyRefines(LocalStep(Not, frame), NativeRun(np, lowered.ops, values, fuel, k), fuel, lowered.shape, initialized)
  {
    var n := |frame.stack|;
    var v, name := frame.stack[n - 1], shape.stack[n - 1];
    FlagStep(np, name, name, v.bool_, v.bool_, values, fuel, k);
    OneRuns(np, BxorImm(name, 1), values, fuel, k);
    KeepsHolding(values, values + [Flag(!v.bool_)], shape, initialized, frame, n - 1, [BoolValue(!v.bool_)], [shape.next], 1);
  }

  lemma MovesRefine(np: seq<NativeFunction>, p: BytecodeProgram, f: BytecodeFunction, i: Instruction, last: bool, a: AbstractState,
                    shape: Shape, values: seq<i64>, frame: Frame, fuel: i64, k: nat)
    requires TablesFit(f) && |a.initialized| == f.localCount && (i.Push? || i.LoadLocal? || i.StoreLocal? || i.Pop?)
    requires AbstractOp(p, f, i, last, a).Some? && FrameTyped(f, a, frame) && FrameHolds(values, shape, a.initialized, frame)
    requires LowerBody(i, shape).Some?
    ensures var lowered := LowerBody(i, shape).value;
            BodyRefines(LocalStep(i, frame), NativeRun(np, lowered.ops, values, fuel, k), fuel, lowered.shape,
                        AbstractOp(p, f, i, last, a).value.initialized)
  {
    var n := |frame.stack|;
    match i
    case Push(v) =>
      var c := NormalizeValue(v).value;
      OneRuns(np, Iconst(c), values, fuel, k);
      KeepsHolding(values, values + [c], shape, a.initialized, frame, n, [v], [shape.next], 1);
      assert frame.stack[..n] == frame.stack && shape.stack[..n] == shape.stack;
    case LoadLocal(slot) =>
      assert NameHolds(values, shape.locals[slot].value, frame.locals[slot]);
    case StoreLocal(slot) =>
      assert NameHolds(values, shape.stack[n - 1], frame.stack[n - 1]);
    case Pop =>
  }

  lemma LocalRefines(np: seq<NativeFunction>, p: BytecodeProgram, f: BytecodeFunction, i: Instruction, last: bool, a: AbstractState,
                     shape: Shape, values: seq<i64>, frame: Frame, fuel: i64, k: nat)
    requires TablesFit(f) && |a.initialized| == f.localCount && IsLocalStep(i)
    requires AbstractOp(p, f, i, last, a).Some? && FrameTyped(f, a, frame) && FrameHolds(values, shape, a.initialized, frame)
    requires LowerBody(i, shape).Some?
    ensures var lowered := LowerBody(i, shape).value;
            BodyRefines(LocalStep(i, frame), NativeRun(np, lowered.ops, values, fuel, k), fuel, lowered.shape,
                        AbstractOp(p, f, i, last, a).value.initialized)
  {
    if i.Operate? {
      OperateRefines(np, i.opcode, f, a, shape, values, frame, fuel, k);
    } else if i.Negate? || i.Not? {
      UnaryRefines(np, p, f, i, last, a, shape, values, frame, fuel, k);
    } else {
      MovesRefine(np, p, f, i, last, a, shape, values, frame, fuel, k);
    }
  }

  // ---------- one step, with its charge ----------

  ghost predicate LoweredAt(p: BytecodeProgram, np: seq<NativeFunction>, f: nat) {
    f < |np| && f < |p.functions| && LowerFunction(p.functions[f]) == Some(np[f])
  }

  ghost predicate LoweredAll(p: BytecodeProgram, np: seq<NativeFunction>) {
    |np| == |p.functions| && forall f {:trigger LoweredAt(p, np, f)} :: 0 <= f < |np| ==> LoweredAt(p, np, f)
  }

  predicate Normalized(values: seq<Value>, numbers: seq<i64>) {
    |numbers| == |values| && forall k :: 0 <= k < |values| ==> NormalizeValue(values[k]) == Some(numbers[k])
  }

  /** After the charge, the body of an instruction decides how the step goes. */
  lemma ChargedStep(np: seq<NativeFunction>, body: seq<Op>, values: seq<i64>, shape: Shape, initialized: seq<bool>, frame: Frame,
                    remaining: u64, k: nat)
    returns (charged: seq<i64>)
    requires FrameHolds(values, shape, initialized, frame)
    ensures remaining == 0 ==>
              NativeRun(np, ChargeOps(shape.next) + body, values, Pattern(remaining), k) ==
              Exited(STATUS_BUDGET_EXHAUSTED, 0, Pattern(0))
    ensures remaining > 0 ==>
              && FrameHolds(charged, Charged(shape), initialized, frame)
              && NativeRun(np, ChargeOps(shape.next) + body, values, Pattern(remaining), k) ==
                 NativeRun(np, body, charged, Pattern(remaining - 1), k)
  {
    ChargeRuns(np, values, remaining, k);
    NativeRunAppend(np, ChargeOps(shape.next), body, values, Pattern(remaining), k);
    charged := [];
    if remaining > 0 {
      charged := NativeRun(np, ChargeOps(shape.next), values, Pattern(remaining), k).values;
      KeepsHolding(values, charged, shape, initialized, frame, |frame.stack|, [], [], 3);
      assert frame.stack[..|frame.stack|] + [] == frame.stack && shape.stack[..|shape.stack|] + [] == shape.stack;
    }
  }

  lemma LocalStepRefines(np: seq<NativeFunction>, p: BytecodeProgram, f: nat, depth: nat, k: nat, i: Instruction, last: bool,
                         a: AbstractState, shape: Shape, values: seq<i64>, frame: Frame, m: MachineState)
    requires f < |p.functions| && depth < MAX_CALL_DEPTH && m.remaining <= U64_MAX
    requires TablesFit(p.functions[f]) && |a.initialized| == p.functions[f].localCount && IsLocalStep(i)
    requires AbstractStep(p, p.functions[f], i, last, a).Some? && LowerInstruction(i, shape).Some?
    requires FrameTyped(p.functions[f], a, frame) && FrameHolds(values, shape, a.initialized, frame)
    ensures var lowered := LowerInstruction(i, shape).value;
            StepRefines(RunStep(p, f, depth, i, frame, m), NativeRun(np, lowered.ops, values, Pattern(m.remaining), k), m.remaining,
                        lowered.shape, AbstractStep(p, p.functions[f], i, last, a).value.initialized)
  {
    hide NativeRun, ChargeOps, LocalStep, AbstractOp;
    var body := LowerBody(i, Charged(shape)).value;
    var charged := ChargedStep(np, body.ops, values, shape, a.initialized, frame, m.remaining, k);
    if m.remaining > 0 {
      LocalRefines(np, p, p.functions[f], i, last, a, Charged(shape), charged, frame, Pattern(m.remaining - 1), k);
    }
  }

  lemma ReturnStepRefines(np: seq<NativeFunction>, p: BytecodeProgram, f: nat, depth: nat, k: nat, last: bool,
                          a: AbstractState, shape: Shape, values: seq<i64>, frame: Frame, m: MachineState)
    requires f < |p.functions| && depth < MAX_CALL_DEPTH && m.remaining <= U64_MAX
    requires TablesFit(p.functions[f]) && |a.initialized| == p.functions[f].localCount
    requires AbstractStep(p, p.functions[f], Return, last, a).Some? && LowerInstruction(Return, shape).Some?
    requires FrameTyped(p.functions[f], a, frame) && FrameHolds(values, shape, a.initialized, frame)
    ensures var lowered := LowerInstruction(Return, shape).value;
            StepRefines(RunStep(p, f, depth, Return, frame, m), NativeRun(np, lowered.ops, values, Pattern(m.remaining), k), m.remaining,
                        lowered.shape, a.initialized)
  {
    hide NativeRun, ChargeOps;
    var body := LowerBody(Return, Charged(shape)).value;
    var charged := ChargedStep(np, body.ops, values, shape, a.initialized, frame, m.remaining, k);
    if m.remaining > 0 {
      var top := |frame.stack| - 1;
      assert NameHolds(charged, shape.stack[top], frame.stack[top]);
      OneRuns(np, ReturnOk(shape.stack[top]), charged, Pattern(m.remaining - 1), k);
    }
  }

  // ---------- calls ----------

  /** The code of a call, given what the callee does. */
  lemma InvokeRuns(np: seq<NativeFunction>, target: nat, names: seq<nat>, values: seq<i64>, fuel: i64, k: nat, called: NativeFlow)
    requires k > 0 && AllDefined(values, names) && called.Exited?
    requires called == NativeCall(np, target, Selected(values, names), fuel, k - 1)
    ensures NativeRun(np, InvokeOps(target, names, |values|), values, fuel, k) ==
            if called.status == STATUS_OK then Onward(values + [0, called.value, 0], called.fuel)
            else Exited(called.status, 0, called.fuel)
  {
    var n := |values|;
    var ops := InvokeOps(target, names, n);
    var v1 := values + [called.status, called.value];
    var v2 := v1 + [Flag(called.status != 0)];
    assert ops == [ops[0]] + ([ops[1]] + [ops[2]]);
    NativeRunFirst(np, ops[0], [ops[1]] + [ops[2]], values, fuel, k);
    NativeRunFirst(np, ops[1], [ops[2]], v1, called.fuel, k);
    OneRuns(np, ops[2], v2, called.fuel, k);
    if called.status == STATUS_OK {
      assert v2 == values + [0, called.value, 0];
    }
  }

  lemma ArgumentsNormalized(values: seq<i64>, names: seq<nat>, stack: seq<Value>, base: nat)
    requires StackHolds(values, names, stack) && base <= |stack|
    ensures AllDefined(values, names[base..]) && Normalized(stack[base..], Selected(values, names[base..]))
  {
    assert forall j :: 0 <= j < |stack| - base ==> NameHolds(values, names[base..][j], stack[base..][j]);
  }

  /** A call instruction, given that the callee's code does what the callee's call does. */
  lemma InvokeReturns(np: seq<NativeFunction>, target: nat, values: seq<i64>, shape: Shape, initialized: seq<bool>, frame: Frame,
                      base: nat, remaining: u64, k: nat, r: Flow)
    requires FrameHolds(values, shape, initialized, frame) && base <= |frame.stack| && k > 0
    requires AllDefined(values, shape.stack[base..]) && !r.Running?
    requires FlowRefines(r, NativeCall(np, target, Selected(values, shape.stack[base..]), Pattern(remaining), k - 1), remaining)
    ensures var n := NativeRun(np, InvokeOps(target, shape.stack[base..], shape.next), values, Pattern(remaining), k);
            if r.Failed? then FlowRefines(r, n, remaining)
            else
              StepRefines(Running(frame.(stack := frame.stack[..base] + [r.value]), r.state), n, remaining,
                          shape.(next := shape.next + 3, stack := shape.stack[..base] + [shape.next + 1]), initialized)
  {
    var names := shape.stack[base..];
    var called := NativeCall(np, target, Selected(values, names), Pattern(remaining), k - 1);
    InvokeRuns(np, target, names, values, Pattern(remaining), k, called);
    if r.Returned? {
      KeepsHolding(values, values + [0, called.value, 0], shape, initialized, frame, base, [r.value], [shape.next + 1], 3);
    }
  }

  lemma InvokeReady(p: BytecodeProgram, rank: seq<nat>, f: nat, i: Instruction, last: bool, a: AbstractState, frame: Frame)
    requires WellFormed(p, rank) && f < |p.functions| && TablesFit(p.functions[f]) && |a.initialized| == p.functions[f].localCount
    requires i.Invoke? && AbstractStep(p, p.functions[f], i, last, a).Some? && FrameTyped(p.functions[f], a, frame)
    ensures i.target < |p.functions| && i.argumentCount <= |frame.stack|
    ensures ValuesTyped(frame.stack[|frame.stack| - i.argumentCount..], p.functions[i.target].parameterTypes)
    ensures AbstractStep(p, p.functions[f], i, last, a).value.initialized == a.initialized
  {
    Fits(p, rank, i.target);
    InvokeSafe(p, p.functions[f], i, last, a, frame, UnitValue);
  }

  lemma {:induction false} CallNative(np: seq<NativeFunction>, p: BytecodeProgram, rank: seq<nat>, f: nat, arguments: seq<Value>,
                                      numbers: seq<i64>, depth: nat, k: nat, m: MachineState)
    requires WellFormed(p, rank) && p.schema == p.canonicalAst.schema && InSubset(p) && LoweredAll(p, np)
    requires f < |p.functions| && depth + rank[f] < MAX_CALL_DEPTH && rank[f] <= k
    requires ValuesTyped(arguments, p.functions[f].parameterTypes) && Normalized(arguments, numbers)
    requires m.remaining <= U64_MAX
    ensures FlowRefines(RunCall(p, f, arguments, depth, m), NativeCall(np, f, numbers, Pattern(m.remaining), k), m.remaining)
    decreases Room(depth), 2, 0
  {
    var fn := p.functions[f];
    Verified(p, rank, f);
    assert LoweredAt(p, np, f) && FunctionInSubset(fn);
    var frame := EntryFrame(fn, arguments);
    assert FrameTyped(fn, InitialState(fn), frame);
    assert FrameHolds(numbers, EntryShape(fn), InitialState(fn).initialized, frame);
    RunSafe(p, rank, f, depth, fn.instructions, InitialState(fn), frame, m.(entered := m.entered + [f]));
    RunNative(np, p, rank, f, depth, k, fn.instructions, InitialState(fn), EntryShape(fn), numbers, frame, m.(entered := m.entered + [f]));
  }

  lemma {:induction false} RunNative(np: seq<NativeFunction>, p: BytecodeProgram, rank: seq<nat>, f: nat, depth: nat, k: nat,
                                     code: seq<Instruction>, a: AbstractState, shape: Shape, values: seq<i64>, frame: Frame, m: MachineState)
    requires WellFormed(p, rank) && p.schema == p.canonicalAst.schema && InSubset(p) && LoweredAll(p, np)
    requires f < |p.functions| == |rank| && depth + rank[f] < MAX_CALL_DEPTH && rank[f] <= k
    requires TablesFit(p.functions[f]) && |a.initialized| == p.functions[f].localCount
    requires AbstractRun(p, p.functions[f], code, a).Some? && LowerCode(code, shape).Some?
    requires CallsBelow(code, rank, rank[f]) && forall j :: 0 <= j < |code| ==> InstructionInSubset(code[j])
    requires FrameTyped(p.functions[f], a, frame) && FrameHolds(values, shape, a.initialized, frame)
    requires m.remaining <= U64_MAX
    ensures FlowRefines(RunCode(p, f, depth, code, frame, m),
                        NativeRun(np, LowerCode(code, shape).value, values, Pattern(m.remaining), k), m.remaining)
    decreases Room(depth), 1, |code|
  {
    if code != [] {
      var first := LowerInstruction(code[0], shape).value;
      var a' := AbstractStep(p, p.functions[f], code[0], |code| == 1, a).value;
      StepSafe(p, rank, f, depth, code[0], |code| == 1, a, frame, m);
      StepNative(np, p, rank, f, depth, k, code[0], |code| == 1, a, shape, values, frame, m);
      NativeRunAppend(np, first.ops, LowerCode(code[1..], first.shape).value, values, Pattern(m.remaining), k);
      var r := RunStep(p, f, depth, code[0], frame, m);
      if r.Running? {
        var n := NativeRun(np, first.ops, values, Pattern(m.remaining), k);
        RunNative(np, p, rank, f, depth, k, code[1..], a', first.shape, n.values, r.frame, r.state);
      }
    }
  }

  lemma {:induction false} StepNative(np: seq<NativeFunction>, p: BytecodeProgram, rank: seq<nat>, f: nat, depth: nat, k: nat, i: Instruction,
                                      last: bool, a: AbstractState, shape: Shape, values: seq<i64>, frame: Frame, m: MachineState)
    requires WellFormed(p, rank) && p.schema == p.canonicalAst.schema && InSubset(p) && LoweredAll(p, np)
    requires f < |p.functions| == |rank| && depth + rank[f] < MAX_CALL_DEPTH && rank[f] <= k
    requires TablesFit(p.functions[f]) && |a.initialized| == p.functions[f].localCount
    requires AbstractStep(p, p.functions[f], i, last, a).Some? && LowerInstruction(i, shape).Some? && InstructionInSubset(i)
    requires i.Invoke? ==> i.target < |rank| && rank[i.target] < rank[f]
    requires FrameTyped(p.functions[f], a, frame) && FrameHolds(values, shape, a.initialized, frame)
    requires m.remaining <= U64_MAX
    ensures var lowered := LowerInstruction(i, shape).value;
            StepRefines(RunStep(p, f, depth, i, frame, m), NativeRun(np, lowered.ops, values, Pattern(m.remaining), k), m.remaining,
                        lowered.shape, AbstractStep(p, p.functions[f], i, last, a).value.initialized)
    decreases Room(depth), 0, 1
  {
    if i.Invoke? {
      InvokeNative(np, p, rank, f, depth, k, i, last, a, shape, values, frame, m);
    } else if i.Return? {
      ReturnStepRefines(np, p, f, depth, k, last, a, shape, values, frame, m);
    } else {
      LocalStepRefines(np, p, f, depth, k, i, last, a, shape, values, frame, m);
    }
  }

  lemma {:induction false} InvokeNative(np: seq<NativeFunction>, p: BytecodeProgram, rank: seq<nat>, f: nat, depth: nat, k: nat,
                                        i: Instruction, last: bool, a: AbstractState, shape: Shape, values: seq<i64>, frame: Frame,
                                        m: MachineState)
    requires WellFormed(p, rank) && p.schema == p.canonicalAst.schema && InSubset(p) && LoweredAll(p, np)
    requires f < |p.functions| == |rank| && depth + rank[f] < MAX_CALL_DEPTH && rank[f] <= k
    requires TablesFit(p.functions[f]) && |a.initialized| == p.functions[f].localCount
    requires i.Invoke? && AbstractStep(p, p.functions[f], i, last, a).Some? && LowerInstruction(i, shape).Some?
    requires i.target < |rank| && rank[i.target] < rank[f]
    requires FrameTyped(p.functions[f], a, frame) && FrameHolds(values, shape, a.initialized, frame)
    requires m.remaining <= U64_MAX
    ensures var lowered := LowerInstruction(i, shape).value;
            StepRefines(RunStep(p, f, depth, i, frame, m), NativeRun(np, lowered.ops, values, Pattern(m.remaining), k), m.remaining,
                        lowered.shape, AbstractStep(p, p.functions[f], i, last, a).value.initialized)
    decreases Room(depth), 0, 0
  {
    hide NativeRun, NativeCall, RunCall, AbstractStep, ChargeOps, InvokeOps;
    var body := LowerBody(i, Charged(shape)).value;
    var charged := ChargedStep(np, body.ops, values, shape, a.initialized, frame, m.remaining, k);
    InvokeReady(p, rank, f, i, last, a, frame);
    if m.remaining > 0 {
      var base := |frame.stack| - i.argumentCount;
      var m1 := m.(remaining := m.remaining - 1, executed := m.executed + 1);
      var names, arguments := shape.stack[base..], frame.stack[base..];
      ArgumentsNormalized(charged, shape.stack, frame.stack, base);
      CallNative(np, p, rank, i.target, arguments, Selected(charged, names), depth + 1, k - 1, m1);
      InvokeReturns(np, i.target, charged, Charged(shape), a.initialized, frame, base, m1.remaining, k,
                    RunCall(p, i.target, arguments, depth + 1, m1));
    }
  }
}
