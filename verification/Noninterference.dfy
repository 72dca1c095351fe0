// Information flow over whole runs: what an observer may see of a completed run
// of verified information-flow bytecode depends only on what it may see of the
// arguments.
module Noninterference {
  import opened Prelude
  import opened Ast
  import opened Bytecode
  import opened Verifier
  import opened Machine
  import opened Safety
  import opened Fuel

  /** The observer at label o sees the values whose label may flow to o. */
  predicate Visible(o: Label, l: Label) {
    l.CanFlowTo(o)
  }

  predicate ValuesAgree(o: Label, labels: seq<Label>, v1: seq<Value>, v2: seq<Value>) {
    && |v1| == |v2| == |labels|
    && forall i :: 0 <= i < |labels| && Visible(o, labels[i]) ==> v1[i] == v2[i]
  }

  predicate StacksAgree(o: Label, types: seq<AbstractValue>, s1: seq<Value>, s2: seq<Value>) {
    && |s1| == |s2| == |types|
    && forall i :: 0 <= i < |types| && Visible(o, types[i].information) ==> s1[i] == s2[i]
  }

  predicate LocalsAgree(o: Label, f: BytecodeFunction, initialized: seq<bool>, l1: seq<Value>, l2: seq<Value>)
    requires TablesFit(f)
  {
    && |l1| == |l2| == |initialized| == f.localCount
    && forall s :: 0 <= s < f.localCount && initialized[s] && Visible(o, SlotLabel(f, s)) ==> l1[s] == l2[s]
  }

  predicate FramesAgree(o: Label, f: BytecodeFunction, a: AbstractState, f1: Frame, f2: Frame)
    requires TablesFit(f)
  {
    StacksAgree(o, a.stack, f1.stack, f2.stack) && LocalsAgree(o, f, a.initialized, f1.locals, f2.locals)
  }

  /** Same function, effect, slot and sink label; same arguments if the sink is visible. */
  predicate RequestsAgree(o: Label, q1: EffectRequest, q2: EffectRequest) {
    && q1.function_ == q2.function_
    && q1.effect == q2.effect
    && q1.authoritySlot == q2.authoritySlot
    && q1.information == q2.information
    && (Visible(o, LabelOr(q1.information)) ==> q1.arguments == q2.arguments)
  }

  predicate LogsAgree(o: Label, log1: seq<EffectRequest>, log2: seq<EffectRequest>) {
    |log1| == |log2| && forall k :: 0 <= k < |log1| ==> RequestsAgree(o, log1[k], log2[k])
  }

  lemma JoinVisible(o: Label, a: Label, b: Label)
    requires a.Join(b).Some?
    ensures Visible(o, a.Join(b).value) <==> Visible(o, a) && Visible(o, b)
  {
    JoinIsLeastUpperBound(a, b);
  }

  lemma AbstractOperateShape(op: Opcode, types: seq<AbstractValue>)
    requires AbstractOperate(op, types).Some? && |types| >= 2
    ensures var n := |types|;
            var joined := types[n - 2].information.Join(types[n - 1].information);
            var result := AbstractOperate(op, types).value;
            && joined.Some? && |result| == n - 1
            && result[..n - 2] == types[..n - 2] && result[n - 2].information == joined.value
  {
    var n := |types|;
    assert types[..n - 1][..n - 2] == types[..n - 2];
  }

  lemma OperateAgrees(o: Label, op: Opcode, types: seq<AbstractValue>, s1: seq<Value>, s2: seq<Value>)
    requires AbstractOperate(op, types).Some? && StacksAgree(o, types, s1, s2)
    requires OperateOn(op, s1).Ok? && OperateOn(op, s2).Ok?
    ensures StacksAgree(o, AbstractOperate(op, types).value, OperateOn(op, s1).value, OperateOn(op, s2).value)
  {
    var n := |types|;
    OperateNeedsTwo(op, s1);
    OperateTopTwo(op, s1);
    OperateTopTwo(op, s2);
    var left, right := types[n - 2].information, types[n - 1].information;
    AbstractOperateShape(op, types);
    JoinVisible(o, left, right);
    OperateGivesOne(op, s1[n - 2..]);
    OperateGivesOne(op, s2[n - 2..]);
    hide OperateOn, AbstractOperate, Visible;
    var out := AbstractOperate(op, types).value;
    var r1, r2 := OperateOn(op, s1[n - 2..]).value, OperateOn(op, s2[n - 2..]).value;
    if Visible(o, out[n - 2].information) {
      TopTwoEqual(s1, s2);
    }
    TopReplaced(o, types, out, s1, s2, r1, r2);
  }

  lemma TopTwoEqual(s1: seq<Value>, s2: seq<Value>)
    requires |s1| == |s2| >= 2 && s1[|s1| - 2] == s2[|s1| - 2] && s1[|s1| - 1] == s2[|s1| - 1]
    ensures s1[|s1| - 2..] == s2[|s1| - 2..]
  {
  }

  lemma OperateGivesOne(op: Opcode, stack: seq<Value>)
    requires |stack| == 2 && OperateOn(op, stack).Ok?
    ensures |OperateOn(op, stack).value| == 1
  {
  }

  /** The two top entries of agreeing stacks give way to one on each side that agrees. */
  lemma TopReplaced(o: Label, types: seq<AbstractValue>, out: seq<AbstractValue>, s1: seq<Value>, s2: seq<Value>,
                    r1: seq<Value>, r2: seq<Value>)
    requires |types| >= 2 && StacksAgree(o, types, s1, s2) && |r1| == |r2| == 1 && |out| == |types| - 1
    requires out[..|types| - 2] == types[..|types| - 2]
    requires Visible(o, out[|types| - 2].information) ==> r1 == r2
    ensures StacksAgree(o, out, s1[..|types| - 2] + r1, s2[..|types| - 2] + r2)
  {
    forall i | 0 <= i < |types| - 2 ensures out[i] == types[i] {
      assert out[i] == out[..|types| - 2][i];
    }
  }

  lemma LocalStepAgrees(o: Label, p: BytecodeProgram, f: BytecodeFunction, i: Instruction, last: bool, a: AbstractState, f1: Frame, f2: Frame)
    requires TablesFit(f) && |a.initialized| == f.localCount && IsLocalStep(i)
    requires AbstractOp(p, f, i, last, a).Some? && FramesAgree(o, f, a, f1, f2)
    requires LocalStep(i, f1).Ok? && LocalStep(i, f2).Ok?
    ensures FramesAgree(o, f, AbstractOp(p, f, i, last, a).value, LocalStep(i, f1).value, LocalStep(i, f2).value)
  {
    if i.Operate? {
      OperateAgrees(o, i.opcode, a.stack, f1.stack, f2.stack);
    }
  }

  lemma RequestAgrees(o: Label, p: BytecodeProgram, f: BytecodeFunction, i: Instruction, last: bool, a: AbstractState,
                      f1: Frame, f2: Frame, m1: MachineState, m2: MachineState)
    requires TablesFit(f) && |a.initialized| == f.localCount && i.Request?
    requires AbstractOp(p, f, i, last, a).Some? && FramesAgree(o, f, a, f1, f2)
    requires LogsAgree(o, m1.requests, m2.requests)
    requires RecordRequest(p, f.name, i, f1, m1).Running? && RecordRequest(p, f.name, i, f2, m2).Running?
    ensures var r1, r2 := RecordRequest(p, f.name, i, f1, m1), RecordRequest(p, f.name, i, f2, m2);
            && FramesAgree(o, f, AbstractOp(p, f, i, last, a).value, r1.frame, r2.frame)
            && LogsAgree(o, r1.state.requests, r2.state.requests)
  {
    var base := |a.stack| - i.argumentCount;
    if Visible(o, LabelOr(i.information)) {
      assert f1.stack[base..] == f2.stack[base..];
    }
  }

  /** Arguments that reach a call agree wherever the callee's parameter labels are visible. */
  lemma ArgumentsAgree(o: Label, p: BytecodeProgram, f: BytecodeFunction, i: Instruction, last: bool, a: AbstractState, f1: Frame, f2: Frame)
    requires TablesFit(f) && |a.initialized| == f.localCount && i.Invoke?
    requires AbstractOp(p, f, i, last, a).Some? && FramesAgree(o, f, a, f1, f2)
    requires FrameOk(p.functions[i.target]) && p.functions[i.target].parameterInformation.Some?
    requires |p.functions[i.target].parameterInformation.value| == p.functions[i.target].parameterCount
    ensures i.argumentCount <= |a.stack|
    ensures var base := |a.stack| - i.argumentCount;
            ValuesAgree(o, p.functions[i.target].parameterInformation.value, f1.stack[base..], f2.stack[base..])
  {
  }

  lemma ResultsAgree(o: Label, p: BytecodeProgram, f: BytecodeFunction, i: Instruction, last: bool, a: AbstractState, f1: Frame, f2: Frame,
                     v1: Value, v2: Value)
    requires TablesFit(f) && |a.initialized| == f.localCount && i.Invoke?
    requires AbstractOp(p, f, i, last, a).Some? && FramesAgree(o, f, a, f1, f2)
    requires FrameOk(p.functions[i.target])
    requires Visible(o, LabelOr(p.functions[i.target].returnInformation)) ==> v1 == v2
    ensures i.argumentCount <= |a.stack|
    ensures var base := |a.stack| - i.argumentCount;
            FramesAgree(o, f, AbstractOp(p, f, i, last, a).value,
                        f1.(stack := f1.stack[..base] + [v1]), f2.(stack := f2.stack[..base] + [v2]))
  {
  }

  /** The label tables of an information-flow function. */
  lemma FlowTables(p: BytecodeProgram, rank: seq<nat>, f: nat)
    requires WellFormed(p, rank) && f < |p.functions| && p.canonicalAst.schema.Information?
    ensures var fn := p.functions[f];
            && TablesFit(fn) && fn.parameterInformation.Some? && fn.localInformation.Some?
            && |fn.parameterInformation.value| == fn.parameterCount
            && fn.parameterInformation.value <= fn.localInformation.value
  {
    assert Accepted(p, f);
  }

  lemma EntryAgrees(o: Label, p: BytecodeProgram, rank: seq<nat>, f: nat, args1: seq<Value>, args2: seq<Value>)
    requires WellFormed(p, rank) && f < |p.functions| && p.canonicalAst.schema.Information?
    requires TablesFit(p.functions[f]) && p.functions[f].parameterInformation.Some?
    requires ValuesAgree(o, p.functions[f].parameterInformation.value, args1, args2)
    ensures FramesAgree(o, p.functions[f], InitialState(p.functions[f]), EntryFrame(p.functions[f], args1),
                        EntryFrame(p.functions[f], args2))
  {
    var fn := p.functions[f];
    FlowTables(p, rank, f);
    forall s | 0 <= s < fn.parameterCount ensures SlotLabel(fn, s) == fn.parameterInformation.value[s] {
    }
  }

  lemma {:induction false} CallAgrees(o: Label, p: BytecodeProgram, rank: seq<nat>, f: nat, args1: seq<Value>, args2: seq<Value>,
                                      depth: nat, m1: MachineState, m2: MachineState)
    requires WellFormed(p, rank) && f < |p.functions| && p.canonicalAst.schema.Information?
    requires p.functions[f].parameterInformation.Some?
    requires ValuesAgree(o, p.functions[f].parameterInformation.value, args1, args2)
    requires LogsAgree(o, m1.requests, m2.requests)
    requires RunCall(p, f, args1, depth, m1).Returned? && RunCall(p, f, args2, depth, m2).Returned?
    ensures var r1, r2 := RunCall(p, f, args1, depth, m1), RunCall(p, f, args2, depth, m2);
            && LogsAgree(o, r1.state.requests, r2.state.requests)
            && (Visible(o, LabelOr(p.functions[f].returnInformation)) ==> r1.value == r2.value)
    decreases Room(depth), 2, 0
  {
    var fn := p.functions[f];
    Verified(p, rank, f);
    EntryAgrees(o, p, rank, f, args1, args2);
    RunAgrees(o, p, rank, f, depth, fn.instructions, InitialState(fn), EntryFrame(fn, args1), EntryFrame(fn, args2),
              m1.(entered := m1.entered + [f]), m2.(entered := m2.entered + [f]));
  }

  lemma {:induction false} RunAgrees(o: Label, p: BytecodeProgram, rank: seq<nat>, f: nat, depth: nat, code: seq<Instruction>,
                                     a: AbstractState, f1: Frame, f2: Frame, m1: MachineState, m2: MachineState)
    requires WellFormed(p, rank) && f < |p.functions| && p.canonicalAst.schema.Information? && depth < MAX_CALL_DEPTH
    requires TablesFit(p.functions[f]) && |a.initialized| == p.functions[f].localCount
    requires AbstractRun(p, p.functions[f], code, a).Some?
    requires FramesAgree(o, p.functions[f], a, f1, f2) && LogsAgree(o, m1.requests, m2.requests)
    requires !RunCode(p, f, depth, code, f1, m1).Failed? && !RunCode(p, f, depth, code, f2, m2).Failed?
    ensures var r1, r2 := RunCode(p, f, depth, code, f1, m1), RunCode(p, f, depth, code, f2, m2);
            && LogsAgree(o, r1.state.requests, r2.state.requests)
            && (r1.Returned? && r2.Returned? && Visible(o, LabelOr(p.functions[f].returnInformation)) ==>
                  r1.value == r2.value)
    decreases Room(depth), 1, |code|
  {
    if code != [] {
      var i, last := code[0], |code| == 1;
      var a' := AbstractStep(p, p.functions[f], i, last, a).value;
      if i.Invoke? {
        InvokeAgrees(o, p, rank, f, depth, i, last, a, f1, f2, m1, m2);
      } else {
        OtherStepAgrees(o, p, f, depth, i, last, a, f1, f2, m1, m2);
      }
      var r1, r2 := RunStep(p, f, depth, i, f1, m1), RunStep(p, f, depth, i, f2, m2);
      if r1.Running? {
        RunAgrees(o, p, rank, f, depth, code[1..], a', r1.frame, r2.frame, r1.state, r2.state);
      }
    }
  }

  ghost predicate StepsAgree(o: Label, f: BytecodeFunction, a: AbstractState, r1: Flow, r2: Flow)
    requires TablesFit(f)
  {
    && r1.Running? == r2.Running?
    && LogsAgree(o, r1.state.requests, r2.state.requests)
    && (r1.Running? ==> FramesAgree(o, f, a, r1.frame, r2.frame))
    && (r1.Returned? && r2.Returned? && Visible(o, LabelOr(f.returnInformation)) ==> r1.value == r2.value)
  }

  lemma {:induction false} InvokeAgrees(o: Label, p: BytecodeProgram, rank: seq<nat>, f: nat, depth: nat, i: Instruction, last: bool,
                                        a: AbstractState, f1: Frame, f2: Frame, m1: MachineState, m2: MachineState)
    requires WellFormed(p, rank) && f < |p.functions| && p.canonicalAst.schema.Information? && depth < MAX_CALL_DEPTH
    requires TablesFit(p.functions[f]) && |a.initialized| == p.functions[f].localCount
    requires i.Invoke? && AbstractStep(p, p.functions[f], i, last, a).Some?
    requires FramesAgree(o, p.functions[f], a, f1, f2) && LogsAgree(o, m1.requests, m2.requests)
    requires !RunStep(p, f, depth, i, f1, m1).Failed? && !RunStep(p, f, depth, i, f2, m2).Failed?
    ensures StepsAgree(o, p.functions[f], AbstractStep(p, p.functions[f], i, last, a).value,
                       RunStep(p, f, depth, i, f1, m1), RunStep(p, f, depth, i, f2, m2))
    decreases Room(depth), 0, 0
  {
    var fn := p.functions[f];
    Fits(p, rank, i.target);
    FlowTables(p, rank, i.target);
    ArgumentsAgree(o, p, fn, i, last, a, f1, f2);
    var base := |a.stack| - i.argumentCount;
    var n1 := m1.(remaining := m1.remaining - 1, executed := m1.executed + 1);
    var n2 := m2.(remaining := m2.remaining - 1, executed := m2.executed + 1);
    var c1 := RunCall(p, i.target, f1.stack[base..], depth + 1, n1);
    var c2 := RunCall(p, i.target, f2.stack[base..], depth + 1, n2);
    CallAgrees(o, p, rank, i.target, f1.stack[base..], f2.stack[base..], depth + 1, n1, n2);
    ResultsAgree(o, p, fn, i, last, a, f1, f2, c1.value, c2.value);
  }

  lemma OtherStepAgrees(o: Label, p: BytecodeProgram, f: nat, depth: nat, i: Instruction, last: bool, a: AbstractState,
                        f1: Frame, f2: Frame, m1: MachineState, m2: MachineState)
    requires f < |p.functions| && depth < MAX_CALL_DEPTH
    requires TablesFit(p.functions[f]) && |a.initialized| == p.functions[f].localCount
    requires !i.Invoke? && AbstractStep(p, p.functions[f], i, last, a).Some?
    requires FramesAgree(o, p.functions[f], a, f1, f2) && LogsAgree(o, m1.requests, m2.requests)
    requires !RunStep(p, f, depth, i, f1, m1).Failed? && !RunStep(p, f, depth, i, f2, m2).Failed?
    ensures StepsAgree(o, p.functions[f], AbstractStep(p, p.functions[f], i, last, a).value,
                       RunStep(p, f, depth, i, f1, m1), RunStep(p, f, depth, i, f2, m2))
  {
    var fn := p.functions[f];
    var n1 := m1.(remaining := m1.remaining - 1, executed := m1.executed + 1);
    var n2 := m2.(remaining := m2.remaining - 1, executed := m2.executed + 1);
    if i.Request? {
      RequestAgrees(o, p, fn, i, last, a, f1, f2, n1, n2);
    } else if IsLocalStep(i) {
      LocalStepAgrees(o, p, fn, i, last, a, f1, f2);
    }
  }

  /**
   * Noninterference. Two completed runs of the same verified flow function, on arguments that agree wherever
   * the observer may look, make the same requests to the same sinks, carry the same arguments to every visible
   * sink, execute equally many instructions, and return the same value if the return is visible.
   * The budgets need not be equal.
   */
  lemma CompletedRunsDoNotInterfere(o: Label, p: BytecodeProgram, f: nat, args1: seq<Value>, args2: seq<Value>, budget1: nat, budget2: nat)
    requires StructureOk(p) && p.canonicalAst.schema.Information?
    requires f < |p.functions| && p.functions[f].parameterInformation.Some?
    requires ValuesAgree(o, p.functions[f].parameterInformation.value, args1, args2)
    ensures var r1 := RunCall(p, f, args1, 0, MachineState(budget1, 0, [], []));
            var r2 := RunCall(p, f, args2, 0, MachineState(budget2, 0, [], []));
            r1.Returned? && r2.Returned? ==>
              && LogsAgree(o, r1.state.requests, r2.state.requests)
              && (Visible(o, LabelOr(p.functions[f].returnInformation)) ==> r1.value == r2.value)
              && r1.state.executed == r2.state.executed
  {
    StructureIsWellFormed(p);
    ExactFuel(p, f, args1, budget1);
    ExactFuel(p, f, args2, budget2);
    var rank: seq<nat> :| WellFormed(p, rank);
    var m1, m2 := MachineState(budget1, 0, [], []), MachineState(budget2, 0, [], []);
    if RunCall(p, f, args1, 0, m1).Returned? && RunCall(p, f, args2, 0, m2).Returned? {
      CallAgrees(o, p, rank, f, args1, args2, 0, m1, m2);
    }
  }
}
