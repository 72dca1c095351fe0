// Exact static fuel: what a completed call costs is known before it runs, and
// beyond that cost the budget does not matter.
module Fuel {
  import opened Prelude
  import opened Ast
  import opened Bytecode
  import opened Verifier
  import opened Machine
  import opened Safety

  function Spent(before: MachineState, after: MachineState): int {
    after.executed - before.executed
  }

  function AddFuel(r: Flow, d: nat): Flow {
    match r
    case Running(frame, m) => Running(frame, m.(remaining := m.remaining + d))
    case Returned(v, m) => Returned(v, m.(remaining := m.remaining + d))
    case Failed(e, m) => Failed(e, m.(remaining := m.remaining + d))
  }

  predicate OutOfBudget(r: Flow) {
    r.Failed? && r.error.BudgetExhausted?
  }

  // ---------- any bytecode, verified or not ----------

  /** Executed plus remaining instructions is invariant, however a call ends. */
  lemma {:induction false} CallConservesFuel(p: BytecodeProgram, f: nat, arguments: seq<Value>, depth: nat, m: MachineState)
    ensures var r := RunCall(p, f, arguments, depth, m);
            r.state.executed + r.state.remaining == m.executed + m.remaining
    decreases Room(depth), 2, 0
  {
    if depth < MAX_CALL_DEPTH && f < |p.functions| {
      var fn := p.functions[f];
      RunConservesFuel(p, f, depth, fn.instructions, EntryFrame(fn, arguments), m.(entered := m.entered + [f]));
    }
  }

  lemma {:induction false} RunConservesFuel(p: BytecodeProgram, f: nat, depth: nat, code: seq<Instruction>, frame: Frame, m: MachineState)
    requires depth < MAX_CALL_DEPTH && f < |p.functions|
    ensures var r := RunCode(p, f, depth, code, frame, m);
            r.state.executed + r.state.remaining == m.executed + m.remaining
    decreases Room(depth), 1, |code|
  {
    if code != [] {
      StepConservesFuel(p, f, depth, code[0], frame, m);
      var r := RunStep(p, f, depth, code[0], frame, m);
      if r.Running? {
        RunConservesFuel(p, f, depth, code[1..], r.frame, r.state);
      }
    }
  }

  lemma {:induction false} StepConservesFuel(p: BytecodeProgram, f: nat, depth: nat, i: Instruction, frame: Frame, m: MachineState)
    requires depth < MAX_CALL_DEPTH && f < |p.functions|
    ensures var r := RunStep(p, f, depth, i, frame, m);
            r.state.executed + r.state.remaining == m.executed + m.remaining
    decreases Room(depth), 0, 0
  {
    if i.Invoke? && m.remaining > 0 && i.argumentCount <= |frame.stack| {
      var m1 := m.(remaining := m.remaining - 1, executed := m.executed + 1);
      CallConservesFuel(p, i.target, frame.stack[|frame.stack| - i.argumentCount..], depth + 1, m1);
    }
  }

  /** A run that does not exhaust its budget does the same thing with more budget. */
  lemma {:induction false} CallWithMoreFuel(p: BytecodeProgram, f: nat, arguments: seq<Value>, depth: nat, m: MachineState, d: nat)
    requires !OutOfBudget(RunCall(p, f, arguments, depth, m))
    ensures RunCall(p, f, arguments, depth, m.(remaining := m.remaining + d)) ==
            AddFuel(RunCall(p, f, arguments, depth, m), d)
    decreases Room(depth), 2, 0
  {
    if depth < MAX_CALL_DEPTH && f < |p.functions| && |arguments| == p.functions[f].parameterCount
       && |arguments| <= p.functions[f].localCount {
      var fn := p.functions[f];
      RunWithMoreFuel(p, f, depth, fn.instructions, EntryFrame(fn, arguments), m.(entered := m.entered + [f]), d);
    }
  }

  lemma {:induction false} RunWithMoreFuel(p: BytecodeProgram, f: nat, depth: nat, code: seq<Instruction>, frame: Frame, m: MachineState,
                                           d: nat)
    requires depth < MAX_CALL_DEPTH && f < |p.functions|
    requires !OutOfBudget(RunCode(p, f, depth, code, frame, m))
    ensures RunCode(p, f, depth, code, frame, m.(remaining := m.remaining + d)) ==
            AddFuel(RunCode(p, f, depth, code, frame, m), d)
    decreases Room(depth), 1, |code|
  {
    if code != [] {
      StepWithMoreFuel(p, f, depth, code[0], frame, m, d);
      var r := RunStep(p, f, depth, code[0], frame, m);
      if r.Running? {
        RunWithMoreFuel(p, f, depth, code[1..], r.frame, r.state, d);
      }
    }
  }

  lemma {:induction false} StepWithMoreFuel(p: BytecodeProgram, f: nat, depth: nat, i: Instruction, frame: Frame, m: MachineState, d: nat)
    requires depth < MAX_CALL_DEPTH && f < |p.functions|
    requires !OutOfBudget(RunStep(p, f, depth, i, frame, m))
    ensures RunStep(p, f, depth, i, frame, m.(remaining := m.remaining + d)) ==
            AddFuel(RunStep(p, f, depth, i, frame, m), d)
    decreases Room(depth), 0, 0
  {
    var m1 := m.(remaining := m.remaining - 1, executed := m.executed + 1);
    if i.Invoke? && i.argumentCount <= |frame.stack| {
      CallWithMoreFuel(p, i.target, frame.stack[|frame.stack| - i.argumentCount..], depth + 1, m1, d);
    }
  }

  // ---------- the static cost ----------

  /** Instruction count plus the cost of every call contained; k bounds the call depth looked at. */
  function Cost(p: BytecodeProgram, f: nat, k: nat): nat
    decreases k, 1, 0
  {
    if k == 0 || f >= |p.functions| then 0 else CodeCost(p, p.functions[f].instructions, k - 1)
  }

  function CodeCost(p: BytecodeProgram, code: seq<Instruction>, k: nat): nat
    decreases k, 2, |code|
  {
    if code == [] then 0
    else 1 + (if code[0].Invoke? then Cost(p, code[0].target, k) else 0) + CodeCost(p, code[1..], k)
  }

  function StaticCost(p: BytecodeProgram, f: nat): nat {
    Cost(p, f, |p.functions|)
  }

  predicate ReturnsOnlyLast(code: seq<Instruction>) {
    forall i :: 0 <= i < |code| - 1 ==> !code[i].Return?
  }

  predicate StraightLine(p: BytecodeProgram) {
    forall f :: 0 <= f < |p.functions| ==> ReturnsOnlyLast(p.functions[f].instructions)
  }

  lemma {:induction false} CallCost(p: BytecodeProgram, rank: seq<nat>, f: nat, arguments: seq<Value>, depth: nat, k: nat, m: MachineState)
    requires StraightLine(p) && Ranked(p.functions, rank)
    requires f < |p.functions| && rank[f] < k
    ensures var r := RunCall(p, f, arguments, depth, m);
            && (r.Returned? ==> Spent(m, r.state) == Cost(p, f, k))
            && (m.remaining >= Cost(p, f, k) ==> !OutOfBudget(r))
    decreases Room(depth), 2, 0
  {
    if depth < MAX_CALL_DEPTH {
      var fn := p.functions[f];
      assert RankedAt(p.functions, rank, f);
      RunCost(p, rank, f, depth, k - 1, fn.instructions, EntryFrame(fn, arguments), m.(entered := m.entered + [f]));
    }
  }

  lemma {:induction false} RunCost(p: BytecodeProgram, rank: seq<nat>, f: nat, depth: nat, k: nat, code: seq<Instruction>, frame: Frame,
                                   m: MachineState)
    requires StraightLine(p) && Ranked(p.functions, rank)
    requires depth < MAX_CALL_DEPTH && f < |p.functions| && rank[f] <= k
    requires ReturnsOnlyLast(code) && CallsBelow(code, rank, rank[f])
    ensures var r := RunCode(p, f, depth, code, frame, m);
            && (!r.Failed? ==> Spent(m, r.state) == CodeCost(p, code, k))
            && (m.remaining >= CodeCost(p, code, k) ==> !OutOfBudget(r))
    decreases Room(depth), 1, |code|
  {
    if code != [] {
      StepCost(p, rank, f, depth, k, code[0], frame, m);
      var r := RunStep(p, f, depth, code[0], frame, m);
      if r.Running? {
        RunCost(p, rank, f, depth, k, code[1..], r.frame, r.state);
      }
    }
  }

  function InstructionCost(p: BytecodeProgram, i: Instruction, k: nat): nat {
    1 + (if i.Invoke? then Cost(p, i.target, k) else 0)
  }

  lemma {:induction false} StepCost(p: BytecodeProgram, rank: seq<nat>, f: nat, depth: nat, k: nat, i: Instruction, frame: Frame,
                                    m: MachineState)
    requires StraightLine(p) && Ranked(p.functions, rank)
    requires depth < MAX_CALL_DEPTH && f < |p.functions| && rank[f] <= k
    requires i.Invoke? ==> i.target < |rank| && rank[i.target] < rank[f]
    ensures var r := RunStep(p, f, depth, i, frame, m);
            && r.state.executed + r.state.remaining == m.executed + m.remaining
            && (!r.Failed? ==> Spent(m, r.state) == InstructionCost(p, i, k))
            && (m.remaining >= InstructionCost(p, i, k) ==> !OutOfBudget(r))
            && (r.Returned? ==> i.Return?)
    decreases Room(depth), 0, 0
  {
    StepConservesFuel(p, f, depth, i, frame, m);
    if i.Invoke? && m.remaining > 0 && i.argumentCount <= |frame.stack| {
      var arguments := frame.stack[|frame.stack| - i.argumentCount..];
      var m1 := m.(remaining := m.remaining - 1, executed := m.executed + 1);
      CallCost(p, rank, i.target, arguments, depth + 1, k, m1);
    }
  }

  lemma {:induction false} VerifiedReturnsOnlyLast(p: BytecodeProgram, f: BytecodeFunction, code: seq<Instruction>, a: AbstractState)
    requires TablesFit(f) && |a.initialized| == f.localCount
    requires AbstractRun(p, f, code, a).Some?
    ensures ReturnsOnlyLast(code)
    decreases |code|
  {
    if code != [] {
      VerifiedReturnsOnlyLast(p, f, code[1..], AbstractStep(p, f, code[0], |code| == 1, a).value);
      assert forall i :: 0 < i < |code| - 1 ==> code[i] == code[1..][i - 1];
    }
  }

  lemma VerifiedStraightLine(p: BytecodeProgram, rank: seq<nat>)
    requires WellFormed(p, rank)
    ensures StraightLine(p)
  {
    forall f | 0 <= f < |p.functions| ensures ReturnsOnlyLast(p.functions[f].instructions) {
      Verified(p, rank, f);
      VerifiedReturnsOnlyLast(p, p.functions[f], p.functions[f].instructions, InitialState(p.functions[f]));
    }
  }

  /** The cost does not depend on how deep one looks, once every call is covered. */
  lemma {:induction false} CostIsStable(p: BytecodeProgram, rank: seq<nat>, f: nat, k1: nat, k2: nat)
    requires Ranked(p.functions, rank) && f < |p.functions| && rank[f] < k1 && rank[f] < k2
    ensures Cost(p, f, k1) == Cost(p, f, k2)
    decreases rank[f], 1, 0
  {
    assert RankedAt(p.functions, rank, f);
    CodeCostIsStable(p, rank, p.functions[f].instructions, rank[f], k1 - 1, k2 - 1);
  }

  lemma {:induction false} CodeCostIsStable(p: BytecodeProgram, rank: seq<nat>, code: seq<Instruction>, bound: nat, k1: nat, k2: nat)
    requires Ranked(p.functions, rank) && CallsBelow(code, rank, bound) && bound <= k1 && bound <= k2
    ensures CodeCost(p, code, k1) == CodeCost(p, code, k2)
    decreases bound, 0, |code|
  {
    if code != [] {
      if code[0].Invoke? {
        CostIsStable(p, rank, code[0].target, k1, k2);
      }
      CodeCostIsStable(p, rank, code[1..], bound, k1, k2);
    }
  }

  /** Sum of the static costs of the functions an instruction list calls. */
  function CallCosts(p: BytecodeProgram, code: seq<Instruction>): nat {
    if code == [] then 0
    else (if code[0].Invoke? then StaticCost(p, code[0].target) else 0) + CallCosts(p, code[1..])
  }

  /** The equation that defines the static cost of verified bytecode. */
  lemma StaticCostEquation(p: BytecodeProgram, f: nat)
    requires StructureOk(p) && f < |p.functions|
    ensures StaticCost(p, f) == |p.functions[f].instructions| + CallCosts(p, p.functions[f].instructions)
  {
    StructureIsWellFormed(p);
    var rank: seq<nat> :| WellFormed(p, rank);
    Verified(p, rank, f);
    CodeCostSplits(p, rank, p.functions[f].instructions, rank[f], |p.functions| - 1);
  }

  lemma {:induction false} CodeCostSplits(p: BytecodeProgram, rank: seq<nat>, code: seq<Instruction>, bound: nat, k: nat)
    requires Ranked(p.functions, rank) && CallsBelow(code, rank, bound) && bound <= k < |p.functions|
    ensures CodeCost(p, code, k) == |code| + CallCosts(p, code)
  {
    if code != [] {
      if code[0].Invoke? {
        CostIsStable(p, rank, code[0].target, k, |p.functions|);
      }
      CodeCostSplits(p, rank, code[1..], bound, k);
    }
  }

  ghost predicate FuelIsExact(p: BytecodeProgram, f: nat, arguments: seq<Value>, budget: nat) {
    var cost := StaticCost(p, f);
    var r := RunCall(p, f, arguments, 0, MachineState(budget, 0, [], []));
    && r.state.executed + r.state.remaining == budget
    && (r.Returned? ==> r.state.executed == cost)
    && (budget < cost ==> !r.Returned?)
    && (budget >= cost ==>
          && !OutOfBudget(r)
          && r == AddFuel(RunCall(p, f, arguments, 0, MachineState(cost, 0, [], [])), budget - cost))
  }

  lemma RankedFuelIsExact(p: BytecodeProgram, rank: seq<nat>, f: nat, arguments: seq<Value>, budget: nat)
    requires StraightLine(p) && Ranked(p.functions, rank)
    requires f < |p.functions| && rank[f] < |p.functions|
    ensures FuelIsExact(p, f, arguments, budget)
  {
    var cost := StaticCost(p, f);
    var m := MachineState(budget, 0, [], []);
    var exact := MachineState(cost, 0, [], []);
    CallConservesFuel(p, f, arguments, 0, m);
    CallCost(p, rank, f, arguments, 0, |p.functions|, m);
    CallCost(p, rank, f, arguments, 0, |p.functions|, exact);
    if budget >= cost {
      CallWithMoreFuel(p, f, arguments, 0, exact, budget - cost);
      assert exact.(remaining := exact.remaining + (budget - cost)) == m;
    }
  }

  /**
   * Exact fuel. A completed call executes exactly its static cost, so no smaller budget completes;
   * every budget from the cost upwards gives the same outcome, and none of them runs out.
   */
  lemma ExactFuel(p: BytecodeProgram, f: nat, arguments: seq<Value>, budget: nat)
    requires StructureOk(p) && f < |p.functions|
    ensures FuelIsExact(p, f, arguments, budget)
  {
    StructureIsWellFormed(p);
    var rank: seq<nat> :| WellFormed(p, rank);
    Fits(p, rank, f);
    VerifiedStraightLine(p, rank);
    RankedFuelIsExact(p, rank, f, arguments, budget);
  }
}
