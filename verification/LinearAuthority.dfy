// Effects and linear authority over whole runs: what a verified call may
// request, that every slot is used once per invocation, and that request
// identities never repeat.
module LinearAuthority {
  import opened Prelude
  import opened CallGraph
  import opened Ast
  import opened Bytecode
  import opened Verifier
  import opened Machine
  import opened Safety

  // ---------- the request log of any bytecode ----------

  /** Requests are numbered by position, and each has the identity derived from what it says. */
  ghost predicate WellNumbered(p: BytecodeProgram, requests: seq<EffectRequest>) {
    forall k :: 0 <= k < |requests| ==>
                  && requests[k].index == k
                  && DerivedId(p.schema, p.semanticDigest, requests[k]) == Some(requests[k].id) && IdEncodes(requests[k].id)
  }

  lemma {:induction false} CallLog(p: BytecodeProgram, f: nat, arguments: seq<Value>, depth: nat, m: MachineState)
    ensures m.requests <= RunCall(p, f, arguments, depth, m).state.requests
    ensures WellNumbered(p, m.requests) ==> WellNumbered(p, RunCall(p, f, arguments, depth, m).state.requests)
    decreases Room(depth), 2, 0
  {
    if depth < MAX_CALL_DEPTH && f < |p.functions| {
      var fn := p.functions[f];
      RunLog(p, f, depth, fn.instructions, EntryFrame(fn, arguments), m.(entered := m.entered + [f]));
    }
  }

  lemma {:induction false} RunLog(p: BytecodeProgram, f: nat, depth: nat, code: seq<Instruction>, frame: Frame, m: MachineState)
    requires depth < MAX_CALL_DEPTH && f < |p.functions|
    ensures m.requests <= RunCode(p, f, depth, code, frame, m).state.requests
    ensures WellNumbered(p, m.requests) ==> WellNumbered(p, RunCode(p, f, depth, code, frame, m).state.requests)
    decreases Room(depth), 1, |code|
  {
    if code != [] {
      StepLog(p, f, depth, code[0], frame, m);
      hide RunStep, WellNumbered;
      var r := RunStep(p, f, depth, code[0], frame, m);
      if r.Running? {
        RunLog(p, f, depth, code[1..], r.frame, r.state);
      }
    }
  }

  lemma {:induction false} StepLog(p: BytecodeProgram, f: nat, depth: nat, i: Instruction, frame: Frame, m: MachineState)
    requires depth < MAX_CALL_DEPTH && f < |p.functions|
    ensures m.requests <= RunStep(p, f, depth, i, frame, m).state.requests
    ensures WellNumbered(p, m.requests) ==> WellNumbered(p, RunStep(p, f, depth, i, frame, m).state.requests)
    decreases Room(depth), 0, 0
  {
    if i.Invoke? && m.remaining > 0 && i.argumentCount <= |frame.stack| {
      var m1 := m.(remaining := m.remaining - 1, executed := m.executed + 1);
      CallLog(p, i.target, frame.stack[|frame.stack| - i.argumentCount..], depth + 1, m1);
    }
  }

  /** In any run of any bytecode, no two requests share an identity. */
  lemma RequestIdentitiesAreDistinct(p: BytecodeProgram, f: nat, arguments: seq<Value>, budget: nat)
    ensures var log := RunCall(p, f, arguments, 0, MachineState(budget, 0, [], [])).state.requests;
            forall j, k :: 0 <= j < k < |log| ==> log[j].id != log[k].id
  {
    CallLog(p, f, arguments, 0, MachineState(budget, 0, [], []));
  }

  // ---------- declared effects ----------

  /** The request comes from a function that declares its effect and, in the linear profiles, its slot. */
  predicate ByDeclaration(p: BytecodeProgram, q: EffectRequest) {
    exists g :: 0 <= g < |p.functions| && DeclaredBy(p, p.functions[g], q)
  }

  predicate DeclaredBy(p: BytecodeProgram, fn: BytecodeFunction, q: EffectRequest) {
    && q.function_ == fn.name
    && q.effect in fn.effects
    && (p.canonicalAst.schema.IsLinear() ==>
          && q.authoritySlot.Some?
          && q.authoritySlot.value in SlotEffects(fn.authoritySlots)
          && SlotEffects(fn.authoritySlots)[q.authoritySlot.value] == q.effect)
  }

  /** Everything logged from position `from` on is declared, and in the row of function f. */
  predicate WithinRow(p: BytecodeProgram, f: nat, from: nat, log: seq<EffectRequest>)
    requires f < |p.functions|
  {
    && from <= |log|
    && forall k :: from <= k < |log| ==> log[k].effect in p.functions[f].effects && ByDeclaration(p, log[k])
  }

  lemma {:induction false} CallEffects(p: BytecodeProgram, rank: seq<nat>, f: nat, arguments: seq<Value>, depth: nat, m: MachineState)
    requires WellFormed(p, rank) && f < |p.functions|
    ensures WithinRow(p, f, |m.requests|, RunCall(p, f, arguments, depth, m).state.requests)
    ensures m.requests <= RunCall(p, f, arguments, depth, m).state.requests
    decreases Room(depth), 2, 0
  {
    if depth < MAX_CALL_DEPTH {
      var fn := p.functions[f];
      Verified(p, rank, f);
      RunEffects(p, rank, f, depth, fn.instructions, InitialState(fn), EntryFrame(fn, arguments),
                 m.(entered := m.entered + [f]));
    }
  }

  lemma {:induction false} RunEffects(p: BytecodeProgram, rank: seq<nat>, f: nat, depth: nat, code: seq<Instruction>, a: AbstractState,
                                      frame: Frame, m: MachineState)
    requires WellFormed(p, rank) && f < |p.functions| && depth < MAX_CALL_DEPTH
    requires TablesFit(p.functions[f]) && |a.initialized| == p.functions[f].localCount
    requires AbstractRun(p, p.functions[f], code, a).Some?
    ensures WithinRow(p, f, |m.requests|, RunCode(p, f, depth, code, frame, m).state.requests)
    ensures m.requests <= RunCode(p, f, depth, code, frame, m).state.requests
    decreases Room(depth), 1, |code|
  {
    if code != [] {
      var i := code[0];
      var a' := AbstractStep(p, p.functions[f], i, |code| == 1, a).value;
      if i.Invoke? {
        InvokeEffects(p, rank, f, depth, i, |code| == 1, a, frame, m);
      } else {
        StepEffects(p, f, depth, i, |code| == 1, a, frame, m);
      }
      var r := RunStep(p, f, depth, i, frame, m);
      if r.Running? {
        RunEffects(p, rank, f, depth, code[1..], a', r.frame, r.state);
      }
    }
  }

  lemma {:induction false} InvokeEffects(p: BytecodeProgram, rank: seq<nat>, f: nat, depth: nat, i: Instruction, last: bool,
                                         a: AbstractState, frame: Frame, m: MachineState)
    requires WellFormed(p, rank) && f < |p.functions| && depth < MAX_CALL_DEPTH && i.Invoke?
    requires TablesFit(p.functions[f]) && |a.initialized| == p.functions[f].localCount
    requires AbstractStep(p, p.functions[f], i, last, a).Some?
    ensures WithinRow(p, f, |m.requests|, RunStep(p, f, depth, i, frame, m).state.requests)
    ensures m.requests <= RunStep(p, f, depth, i, frame, m).state.requests
    decreases Room(depth), 0, 0
  {
    if m.remaining > 0 && i.argumentCount <= |frame.stack| {
      var m1 := m.(remaining := m.remaining - 1, executed := m.executed + 1);
      CallEffects(p, rank, i.target, frame.stack[|frame.stack| - i.argumentCount..], depth + 1, m1);
    }
  }

  lemma StepEffects(p: BytecodeProgram, f: nat, depth: nat, i: Instruction, last: bool, a: AbstractState, frame: Frame, m: MachineState)
    requires f < |p.functions| && depth < MAX_CALL_DEPTH && !i.Invoke?
    requires TablesFit(p.functions[f]) && |a.initialized| == p.functions[f].localCount
    requires AbstractStep(p, p.functions[f], i, last, a).Some?
    ensures WithinRow(p, f, |m.requests|, RunStep(p, f, depth, i, frame, m).state.requests)
    ensures m.requests <= RunStep(p, f, depth, i, frame, m).state.requests
  {
    var log := RunStep(p, f, depth, i, frame, m).state.requests;
    if i.Request? && |log| > |m.requests| {
      assert DeclaredBy(p, p.functions[f], log[|m.requests|]);
    }
  }

  /** However a verified call ends, every request it made is in its declared effect row. */
  lemma EffectsStayInRow(p: BytecodeProgram, f: nat, arguments: seq<Value>, budget: nat)
    requires StructureOk(p) && f < |p.functions|
    ensures WithinRow(p, f, 0, RunCall(p, f, arguments, 0, MachineState(budget, 0, [], [])).state.requests)
  {
    StructureIsWellFormed(p);
    var rank: seq<nat> :| WellFormed(p, rank);
    CallEffects(p, rank, f, arguments, 0, MachineState(budget, 0, [], []));
  }

  // ---------- one use per invocation ----------

  function Uses(log: seq<EffectRequest>, name: string, slot: string): nat {
    if log == [] then 0
    else
      var q := log[|log| - 1];
      Uses(log[..|log| - 1], name, slot) + (if q.function_ == name && q.authoritySlot == Some(slot) then 1 else 0)
  }

  function Entries(entered: seq<nat>, g: nat): nat {
    if entered == [] then 0
    else Entries(entered[..|entered| - 1], g) + (if entered[|entered| - 1] == g then 1 else 0)
  }

  lemma UsesAppend(log: seq<EffectRequest>, q: EffectRequest, name: string, slot: string)
    ensures Uses(log + [q], name, slot) ==
            Uses(log, name, slot) + (if q.function_ == name && q.authoritySlot == Some(slot) then 1 else 0)
  {
    assert (log + [q])[..|log|] == log;
  }

  lemma EntriesAppend(entered: seq<nat>, f: nat, g: nat)
    ensures Entries(entered + [f], g) == Entries(entered, g) + (if f == g then 1 else 0)
  {
    assert (entered + [f])[..|entered|] == entered;
  }

  /** Uses of a slot of function g in excess of the invocations of g. */
  function Balance(p: BytecodeProgram, g: nat, slot: string, m: MachineState): int
    requires g < |p.functions|
  {
    Uses(m.requests, p.functions[g].name, slot) - Entries(m.entered, g)
  }

  function Held(a: AbstractState, slot: string): int {
    if slot in a.consumed then 1 else 0
  }

  predicate ConsumedDeclared(f: BytecodeFunction, a: AbstractState) {
    a.consumed <= SlotEffects(f.authoritySlots).Keys
  }

  lemma {:induction false} RunConsumesDeclared(p: BytecodeProgram, f: BytecodeFunction, code: seq<Instruction>, a: AbstractState)
    requires TablesFit(f) && |a.initialized| == f.localCount
    requires AbstractRun(p, f, code, a).Some? && ConsumedDeclared(f, a)
    ensures ConsumedDeclared(f, AbstractRun(p, f, code, a).value)
    decreases |code|
  {
    if code != [] {
      RunConsumesDeclared(p, f, code[1..], AbstractStep(p, f, code[0], |code| == 1, a).value);
    }
  }

  lemma SameSizeSubset<T>(a: set<T>, b: set<T>)
    requires a <= b && |a| == |b|
    ensures a == b
  {
    if a != b {
      var x :| x in b && x !in a;
      assert a <= b - {x};
      CardMono(a, b - {x});
    }
  }

  /** A verified body has consumed all its declared slots when it ends. */
  lemma BodyConsumesAll(p: BytecodeProgram, rank: seq<nat>, f: nat)
    requires WellFormed(p, rank) && f < |p.functions|
    ensures TablesFit(p.functions[f])
    ensures var fn := p.functions[f];
            var a := AbstractRun(p, fn, fn.instructions, InitialState(fn));
            a.Some? && a.value.consumed == SlotEffects(fn.authoritySlots).Keys
  {
    var fn := p.functions[f];
    assert Accepted(p, f);
    var a := AbstractRun(p, fn, fn.instructions, InitialState(fn)).value;
    RunConsumesDeclared(p, fn, fn.instructions, InitialState(fn));
    SameSizeSubset(a.consumed, SlotEffects(fn.authoritySlots).Keys);
  }

  lemma {:induction false} CallBalance(p: BytecodeProgram, rank: seq<nat>, f: nat, arguments: seq<Value>, depth: nat, m: MachineState,
                                       g: nat, slot: string)
    requires WellFormed(p, rank) && DistinctNames(p.functions) && p.canonicalAst.schema.IsLinear()
    requires f < |p.functions| && g < |p.functions| && slot in SlotEffects(p.functions[g].authoritySlots)
    ensures var r := RunCall(p, f, arguments, depth, m);
            r.Returned? ==> Balance(p, g, slot, r.state) == Balance(p, g, slot, m)
    decreases Room(depth), 2, 0
  {
    if depth < MAX_CALL_DEPTH {
      var fn := p.functions[f];
      Verified(p, rank, f);
      BodyConsumesAll(p, rank, f);
      EntriesAppend(m.entered, f, g);
      RunBalance(p, rank, f, depth, fn.instructions, InitialState(fn), EntryFrame(fn, arguments),
                 m.(entered := m.entered + [f]), g, slot);
    }
  }

  lemma {:induction false} RunBalance(p: BytecodeProgram, rank: seq<nat>, f: nat, depth: nat, code: seq<Instruction>, a: AbstractState,
                                      frame: Frame, m: MachineState, g: nat, slot: string)
    requires WellFormed(p, rank) && DistinctNames(p.functions) && p.canonicalAst.schema.IsLinear()
    requires f < |p.functions| && g < |p.functions| && slot in SlotEffects(p.functions[g].authoritySlots)
    requires depth < MAX_CALL_DEPTH
    requires TablesFit(p.functions[f]) && |a.initialized| == p.functions[f].localCount
    requires AbstractRun(p, p.functions[f], code, a).Some?
    ensures var r := RunCode(p, f, depth, code, frame, m);
            var a' := AbstractRun(p, p.functions[f], code, a).value;
            !r.Failed? ==>
              Balance(p, g, slot, r.state) ==
              Balance(p, g, slot, m) + (if g == f then Held(a', slot) - Held(a, slot) else 0)
    decreases Room(depth), 1, |code|
  {
    if code != [] {
      var i, last := code[0], |code| == 1;
      var a1 := AbstractStep(p, p.functions[f], i, last, a).value;
      if i.Invoke? {
        InvokeBalance(p, rank, f, depth, i, last, a, frame, m, g, slot);
      } else {
        StepBalance(p, f, depth, i, last, a, frame, m, g, slot);
      }
      var r := RunStep(p, f, depth, i, frame, m);
      if r.Running? {
        RunBalance(p, rank, f, depth, code[1..], a1, r.frame, r.state, g, slot);
      }
    }
  }

  lemma {:induction false} InvokeBalance(p: BytecodeProgram, rank: seq<nat>, f: nat, depth: nat, i: Instruction, last: bool,
                                         a: AbstractState, frame: Frame, m: MachineState, g: nat, slot: string)
    requires WellFormed(p, rank) && DistinctNames(p.functions) && p.canonicalAst.schema.IsLinear()
    requires f < |p.functions| && g < |p.functions| && slot in SlotEffects(p.functions[g].authoritySlots)
    requires depth < MAX_CALL_DEPTH && i.Invoke?
    requires TablesFit(p.functions[f]) && |a.initialized| == p.functions[f].localCount
    requires AbstractStep(p, p.functions[f], i, last, a).Some?
    ensures var r := RunStep(p, f, depth, i, frame, m);
            && (!r.Failed? ==> r.Running? && Balance(p, g, slot, r.state) == Balance(p, g, slot, m))
            && AbstractStep(p, p.functions[f], i, last, a).value.consumed == a.consumed
    decreases Room(depth), 0, 0
  {
    InvokeKeepsConsumed(p, p.functions[f], i, last, a);
    if m.remaining > 0 && i.argumentCount <= |frame.stack| {
      var m1 := m.(remaining := m.remaining - 1, executed := m.executed + 1);
      CallBalance(p, rank, i.target, frame.stack[|frame.stack| - i.argumentCount..], depth + 1, m1, g, slot);
    }
  }

  lemma InvokeKeepsConsumed(p: BytecodeProgram, f: BytecodeFunction, i: Instruction, last: bool, a: AbstractState)
    requires TablesFit(f) && |a.initialized| == f.localCount
    requires i.Invoke? && AbstractStep(p, f, i, last, a).Some?
    ensures AbstractStep(p, f, i, last, a).value.consumed == a.consumed
    ensures i.target < |p.functions|
  {
  }

  lemma StepBalance(p: BytecodeProgram, f: nat, depth: nat, i: Instruction, last: bool, a: AbstractState, frame: Frame, m: MachineState,
                    g: nat, slot: string)
    requires DistinctNames(p.functions) && p.canonicalAst.schema.IsLinear() && !i.Invoke?
    requires f < |p.functions| && g < |p.functions| && depth < MAX_CALL_DEPTH
    requires TablesFit(p.functions[f]) && |a.initialized| == p.functions[f].localCount
    requires AbstractStep(p, p.functions[f], i, last, a).Some?
    ensures var r := RunStep(p, f, depth, i, frame, m);
            var a' := AbstractStep(p, p.functions[f], i, last, a).value;
            !r.Failed? ==>
              Balance(p, g, slot, r.state) ==
              Balance(p, g, slot, m) + (if g == f then Held(a', slot) - Held(a, slot) else 0)
  {
    hide RunCall, LocalStep;
    var m1 := m.(remaining := if m.remaining > 0 then m.remaining - 1 else 0, executed := m.executed + 1);
    if i.Request? {
      RequestBalance(p, f, i, last, a, frame, m1, g, slot);
    }
  }

  lemma RequestBalance(p: BytecodeProgram, f: nat, i: Instruction, last: bool, a: AbstractState, frame: Frame, m: MachineState,
                       g: nat, slot: string)
    requires DistinctNames(p.functions) && p.canonicalAst.schema.IsLinear() && i.Request?
    requires f < |p.functions| && g < |p.functions|
    requires TablesFit(p.functions[f]) && |a.initialized| == p.functions[f].localCount
    requires AbstractStep(p, p.functions[f], i, last, a).Some?
    ensures var r := RecordRequest(p, p.functions[f].name, i, frame, m);
            var a' := AbstractStep(p, p.functions[f], i, last, a).value;
            r.Running? ==>
              Balance(p, g, slot, r.state) ==
              Balance(p, g, slot, m) + (if g == f then Held(a', slot) - Held(a, slot) else 0)
  {
    hide IdEncodes, ProfileId;
    var r := RecordRequest(p, p.functions[f].name, i, frame, m);
    if r.Running? {
      var q := r.state.requests[|m.requests|];
      assert r.state.requests == m.requests + [q];
      UsesAppend(m.requests, q, p.functions[g].name, slot);
    }
  }

  /**
   * Linear authority. In a completed run of verified linear bytecode, the requests made by function g
   * with one of its slots are exactly as many as the invocations of g, and each names the slot's effect.
   */
  lemma SlotsUsedOncePerInvocation(p: BytecodeProgram, f: nat, arguments: seq<Value>, budget: nat, g: nat, slot: string)
    requires StructureOk(p) && p.canonicalAst.schema.IsLinear()
    requires f < |p.functions| && g < |p.functions| && slot in SlotEffects(p.functions[g].authoritySlots)
    ensures var r := RunCall(p, f, arguments, 0, MachineState(budget, 0, [], []));
            r.Returned? ==>
              && Uses(r.state.requests, p.functions[g].name, slot) == Entries(r.state.entered, g)
              && forall q :: q in r.state.requests ==> ByDeclaration(p, q)
  {
    StructureIsWellFormed(p);
    var rank: seq<nat> :| WellFormed(p, rank);
    RankedSlotsUsed(p, rank, f, arguments, budget, g, slot);
  }

  lemma RankedSlotsUsed(p: BytecodeProgram, rank: seq<nat>, f: nat, arguments: seq<Value>, budget: nat, g: nat, slot: string)
    requires WellFormed(p, rank) && DistinctNames(p.functions) && p.canonicalAst.schema.IsLinear()
    requires f < |p.functions| && g < |p.functions| && slot in SlotEffects(p.functions[g].authoritySlots)
    ensures var r := RunCall(p, f, arguments, 0, MachineState(budget, 0, [], []));
            r.Returned? ==>
              && Uses(r.state.requests, p.functions[g].name, slot) == Entries(r.state.entered, g)
              && forall q :: q in r.state.requests ==> ByDeclaration(p, q)
  {
    CallBalance(p, rank, f, arguments, 0, MachineState(budget, 0, [], []), g, slot);
    CallEffects(p, rank, f, arguments, 0, MachineState(budget, 0, [], []));
  }
}
