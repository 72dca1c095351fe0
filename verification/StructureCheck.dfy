// The structural verifier as it runs: one pass over each function that updates
// an abstract stack, initialized slots, consumed authority and the call list in
// place, and a loop over the functions that collects the call graph.
module StructureCheck {
  import opened Prelude
  import opened CallGraph
  import opened Ast
  import opened Bytecode
  import opened Verifier
  import opened CycleSearch
  import opened Safety

  class FunctionVerifier {
    const program: BytecodeProgram
    const function_: BytecodeFunction
    const initialized: array<bool>
    var stack: seq<AbstractValue>
    var consumed: set<string>
    var calls: seq<nat>
    var maxDepth: nat

    ghost predicate Valid()
      reads this, initialized
    {
      TablesFit(function_) && initialized.Length == function_.localCount
    }

    ghost function State(): AbstractState
      reads this, initialized
    {
      AbstractState(stack, initialized[..], consumed, calls, maxDepth)
    }

    constructor (program: BytecodeProgram, function_: BytecodeFunction)
      requires TablesFit(function_)
      ensures this.program == program && this.function_ == function_
      ensures Valid() && fresh(initialized) && State() == InitialState(function_)
    {
      this.program, this.function_ := program, function_;
      var flags := new bool[function_.localCount](k => k < function_.parameterCount);
      this.initialized := flags;
      stack, consumed, calls, maxDepth := [], {}, [], 0;
      new;
      assert initialized[..] == InitialState(function_).initialized;
    }

    method PopAny() returns (v: Option<AbstractValue>)
      modifies this`stack
      ensures v.Some? == (old(stack) != [])
      ensures v.Some? ==> old(stack) == stack + [v.value]
    {
      if stack == [] {
        return None;
      }
      v := Some(stack[|stack| - 1]);
      stack := stack[..|stack| - 1];
    }

    method RequirePop(expected: Type) returns (information: Option<Label>)
      modifies this`stack
      ensures match PopTyped(old(stack), expected)
              case None => information.None?
              case Some((rest, l)) => information == Some(l) && stack == rest
    {
      var v := PopAny();
      if v.None? || v.value.ty != expected {
        return None;
      }
      information := Some(v.value.information);
    }

    method UnaryType(ty: Type) returns (ok: bool)
      modifies this`stack
      ensures match AbstractUnary(old(stack), ty)
              case None => !ok
              case Some(s) => ok && stack == s
    {
      var information := RequirePop(ty);
      if information.None? {
        return false;
      }
      stack := stack + [AbstractValue(ty, information.value)];
      ok := true;
    }

    method BinaryType(input: Type, output: Type) returns (ok: bool)
      modifies this`stack
      ensures match AbstractBinary(old(stack), input, output)
              case None => !ok
              case Some(s) => ok && stack == s
    {
      var right := RequirePop(input);
      if right.None? {
        return false;
      }
      var left := RequirePop(input);
      if left.None? {
        return false;
      }
      var joined := left.value.Join(right.value);
      if joined.None? {
        return false;
      }
      stack := stack + [AbstractValue(output, joined.value)];
      ok := true;
    }

    method EqualityType() returns (ok: bool)
      modifies this`stack
      ensures match AbstractEquality(old(stack))
              case None => !ok
              case Some(s) => ok && stack == s
    {
      var right := PopAny();
      if right.None? {
        return false;
      }
      var left := PopAny();
      if left.None? || left.value.ty != right.value.ty {
        return false;
      }
      var joined := left.value.information.Join(right.value.information);
      if joined.None? {
        return false;
      }
      stack := stack + [AbstractValue(Bool, joined.value)];
      ok := true;
    }

    method OperateType(op: Opcode) returns (ok: bool)
      modifies this`stack
      ensures match AbstractOperate(op, old(stack))
              case None => !ok
              case Some(s) => ok && stack == s
    {
      match op
      case AddI64 | SubI64 | MulI64 | DivI64 | RemI64 => ok := BinaryType(I64, I64);
      case LessI64 | LessEqualI64 | GreaterI64 | GreaterEqualI64 => ok := BinaryType(I64, Bool);
      case AndBool | OrBool => ok := BinaryType(Bool, Bool);
      case EqualAny | NotEqualAny => ok := EqualityType();
    }

    method Load(slot: nat) returns (ok: bool)
      requires Valid()
      modifies this`stack
      ensures match AbstractOp(program, function_, LoadLocal(slot), false, old(State()))
              case None => !ok
              case Some(a) => ok && State() == a
    {
      if slot >= function_.localCount || !initialized[slot] {
        return false;
      }
      stack := stack + [AbstractValue(function_.localTypes[slot], SlotLabel(function_, slot))];
      ok := true;
    }

    method Store(slot: nat) returns (ok: bool)
      requires Valid()
      modifies this`stack, initialized
      ensures match AbstractOp(program, function_, StoreLocal(slot), false, old(State()))
              case None => !ok
              case Some(a) => ok && State() == a
    {
      if slot >= function_.localCount || initialized[slot] {
        return false;
      }
      var information := RequirePop(function_.localTypes[slot]);
      if information.None? || !information.value.CanFlowTo(SlotLabel(function_, slot)) {
        return false;
      }
      initialized[slot] := true;
      ok := true;
    }

    /** The arguments of a call have the types and labels its target declares; they leave the stack. */
    method RequireArguments(types: seq<Type>, labels: Option<seq<Label>>) returns (ok: bool)
      modifies this`stack
      ensures ok == ArgumentsMatch(old(stack), types, labels)
      ensures ok ==> stack == old(stack)[..|old(stack)| - |types|]
    {
      if |stack| < |types| {
        return false;
      }
      var start := |stack| - |types|;
      for k := 0 to |types|
        invariant stack == old(stack)
        invariant forall j :: 0 <= j < k ==> stack[start + j].ty == types[j]
      {
        if stack[start + k].ty != types[k] {
          return false;
        }
      }
      if labels.Some? {
        for k := 0 to |types|
          invariant stack == old(stack)
          invariant forall j :: 0 <= j < k && j < |labels.value| ==> stack[start + j].information.CanFlowTo(labels.value[j])
        {
          if k < |labels.value| && !stack[start + k].information.CanFlowTo(labels.value[k]) {
            return false;
          }
        }
      }
      stack := stack[..start];
      ok := true;
    }

    method CallType(i: Instruction) returns (ok: bool)
      requires Valid() && i.Invoke?
      modifies this`stack, this`calls
      ensures match AbstractInvoke(program, function_, i, old(State()))
              case None => !ok
              case Some(a) => ok && State() == a
    {
      if i.target >= |program.functions| {
        return false;
      }
      var target := program.functions[i.target];
      if i.argumentCount != target.parameterCount {
        return false;
      }
      ok := RequireArguments(target.parameterTypes, target.parameterInformation);
      if !ok {
        return;
      }
      for k := 0 to |target.effects|
        invariant forall j :: 0 <= j < k ==> target.effects[j] in function_.effects
        invariant stack == old(stack)[..|old(stack)| - |target.parameterTypes|] && calls == old(calls)
      {
        if target.effects[k] !in function_.effects {
          return false;
        }
      }
      calls := calls + [i.target];
      stack := stack + [AbstractValue(target.returnType, LabelOr(target.returnInformation))];
    }

    method RequestType(i: Instruction) returns (ok: bool)
      requires Valid() && i.Request?
      modifies this`stack, this`consumed
      ensures match AbstractRequest(program, function_, i, old(State()))
              case None => !ok
              case Some(a) => ok && State() == a
    {
      if !IsIdentifier(i.effect) || i.effect !in function_.effects || |stack| < i.argumentCount {
        return false;
      }
      if !InformationPresence(program.canonicalAst.schema.IsInformationFlow(), i.information) {
        return false;
      }
      var base, sink := |stack| - i.argumentCount, LabelOr(i.information);
      for k := base to |stack|
        invariant forall j :: base <= j < k ==> stack[j].information.CanFlowTo(sink)
      {
        if !stack[k].information.CanFlowTo(sink) {
          return false;
        }
      }
      ok := ConsumeAuthority(i);
      stack := stack[..base];
    }

    /** Outside the linear profile no slot is named; inside it, a declared slot of this effect, once. */
    method ConsumeAuthority(i: Instruction) returns (ok: bool)
      requires Valid() && i.Request?
      modifies this`consumed
      ensures ok == (if program.canonicalAst.schema.IsLinear() then
                       && i.authority.Some? && i.authority.value in SlotEffects(function_.authoritySlots)
                       && SlotEffects(function_.authoritySlots)[i.authority.value] == i.effect
                       && i.authority.value !in old(consumed)
                     else i.authority.None?)
      ensures consumed == old(consumed) + if ok && i.authority.Some? then {i.authority.value} else {}
    {
      var slots := SlotEffects(function_.authoritySlots);
      match (program.canonicalAst.schema.IsLinear(), i.authority)
      case (false, None) => ok := true;
      case (true, Some(name)) =>
        if name !in slots || slots[name] != i.effect || name in consumed {
          return false;
        }
        consumed := consumed + {name};
        ok := true;
      case (false, Some(_)) => ok := false;
      case (true, None) => ok := false;
    }

    method ReturnType() returns (ok: bool)
      requires Valid()
      modifies this`stack
      ensures match AbstractReturn(function_, old(State()))
              case None => !ok
              case Some(a) => ok && State() == a
    {
      if |stack| != 1 || stack[0].ty != function_.returnType {
        return false;
      }
      if !stack[0].information.CanFlowTo(LabelOr(function_.returnInformation)) {
        return false;
      }
      stack := [];
      ok := true;
    }

    method Opcode(i: Instruction, last: bool) returns (ok: bool)
      requires Valid()
      modifies this`stack, this`consumed, this`calls, initialized
      ensures match AbstractOp(program, function_, i, last, old(State()))
              case None => !ok
              case Some(a) => ok && State() == a
    {
      hide AbstractInvoke, AbstractRequest, AbstractReturn, AbstractOperate;
      match i {
        case Push(v) =>
          stack := stack + [AbstractValue(TypeOf(v), Public)];
          ok := true;
        case LoadLocal(slot) => ok := Load(slot);
        case StoreLocal(slot) => ok := Store(slot);
        case Pop =>
          var v := PopAny();
          ok := v.Some?;
        case Negate => ok := UnaryType(I64);
        case Not => ok := UnaryType(Bool);
        case Operate(op) => ok := OperateType(op);
        case Invoke(_, _) => ok := CallType(i);
        case Request(_, _, _, _) => ok := RequestType(i);
        case Return =>
          if !last {
            return false;
          }
          ok := ReturnType();
      }
    }

    method Instruction(i: Instruction, last: bool) returns (ok: bool)
      requires Valid()
      modifies this`stack, this`consumed, this`calls, this`maxDepth, initialized
      ensures match AbstractStep(program, function_, i, last, old(State()))
              case None => !ok
              case Some(a) => ok && State() == a
    {
      hide AbstractOp;
      ok := Opcode(i, last);
      if !ok || |stack| > MAX_STACK_DEPTH {
        return false;
      }
      maxDepth := Max(maxDepth, |stack|);
    }
  }

  /** Abstract interpretation of one function: the verdict, its maximum stack depth and its calls. */
  method VerifyFunction(p: BytecodeProgram, f: BytecodeFunction) returns (depth: Option<nat>, calls: seq<nat>)
    requires TablesFit(f)
    ensures depth.Some? == VerifyBody(p, f).Some?
    ensures depth.Some? ==> depth.value == MaximumDepth(p, f) && calls == Targets(f.instructions)
  {
    var v := new FunctionVerifier(p, f);
    var code := f.instructions;
    assert code[0..] == code;
    for pc := 0 to |code|
      invariant v.program == p && v.function_ == f && fresh(v) && fresh(v.initialized) && v.Valid()
      invariant AbstractRun(p, f, code, InitialState(f)) == AbstractRun(p, f, code[pc..], v.State())
    {
      assert code[pc..][0] == code[pc] && code[pc..][1..] == code[pc + 1..];
      var ok := v.Instruction(code[pc], pc + 1 == |code|);
      if !ok {
        return None, [];
      }
    }
    if code == [] || !code[|code| - 1].Return? {
      return None, [];
    }
    if |v.consumed| != |SlotEffects(f.authoritySlots)| {
      return None, [];
    }
    RunCalls(p, f, code, InitialState(f));
    assert [] + Targets(code) == Targets(code);
    return Some(v.maxDepth), v.calls;
  }

  /** The interpreter records the targets of all calls, in code order. */
  lemma {:induction false} RunCalls(p: BytecodeProgram, f: BytecodeFunction, code: seq<Instruction>, a: AbstractState)
    requires TablesFit(f) && |a.initialized| == f.localCount && AbstractRun(p, f, code, a).Some?
    ensures AbstractRun(p, f, code, a).value.calls == a.calls + Targets(code)
    decreases |code|
  {
    if code == [] {
      assert a.calls + Targets(code) == a.calls;
    } else {
      StepCalls(p, f, code[0], |code| == 1, a);
      TargetsStep(a.calls, code);
      hide AbstractStep, Targets;
      RunCalls(p, f, code[1..], AbstractStep(p, f, code[0], |code| == 1, a).value);
    }
  }

  lemma TargetsStep(calls: seq<nat>, code: seq<Instruction>)
    requires code != []
    ensures (calls + if code[0].Invoke? then [code[0].target] else []) + Targets(code[1..]) == calls + Targets(code)
  {
  }

  lemma StepCalls(p: BytecodeProgram, f: BytecodeFunction, i: Instruction, last: bool, a: AbstractState)
    requires TablesFit(f) && |a.initialized| == f.localCount && AbstractStep(p, f, i, last, a).Some?
    ensures AbstractStep(p, f, i, last, a).value.calls == a.calls + if i.Invoke? then [i.target] else []
  {
  }

  // ---------- the whole program ----------

  lemma TotalStep(functions: seq<BytecodeFunction>, k: nat)
    requires k < |functions|
    ensures TotalInstructions(functions[..k + 1]) == TotalInstructions(functions[..k]) + |functions[k].instructions|
  {
    assert functions[..k + 1][..k] == functions[..k];
  }

  function NamesOf(functions: seq<BytecodeFunction>, k: nat): set<string>
    requires k <= |functions|
  {
    set i | 0 <= i < k :: functions[i].name
  }

  lemma NamesOfStep(functions: seq<BytecodeFunction>, k: nat)
    requires k < |functions|
    ensures NamesOf(functions, k + 1) == NamesOf(functions, k) + {functions[k].name}
    ensures functions[k].name in NamesOf(functions, k) <==> exists i :: 0 <= i < k && functions[i].name == functions[k].name
  {
  }

  lemma FunctionsOkExtends(p: BytecodeProgram, k: nat)
    requires k < |p.functions|
    ensures FunctionsOk(p, k + 1) <==>
            && FunctionsOk(p, k) && FunctionOk(p, p.functions[k])
            && (forall i :: 0 <= i < k ==> p.functions[i].name != p.functions[k].name)
            && TotalInstructions(p.functions[..k]) + |p.functions[k].instructions| <= MAX_TOTAL_INSTRUCTIONS
  {
    TotalStep(p.functions, k);
  }

  lemma {:induction false} FunctionsOkShrinks(p: BytecodeProgram, k: nat, n: nat)
    requires k <= n <= |p.functions| && FunctionsOk(p, n)
    ensures FunctionsOk(p, k)
    decreases n - k
  {
    hide FunctionsOk;
    if k < n {
      FunctionsOkExtends(p, n - 1);
      FunctionsOkShrinks(p, k, n - 1);
    }
  }

  /** The largest of the maximum depths of the first k functions. */
  function DeepestStack(p: BytecodeProgram, k: nat): nat
    requires k <= |p.functions|
  {
    if k == 0 then 0 else Max(DeepestStack(p, k - 1), MaximumDepth(p, p.functions[k - 1]))
  }

  /** The deepest stack is a maximum: no function goes beyond it, and one attains it. */
  lemma {:induction false} DeepestIsMaximum(p: BytecodeProgram, k: nat)
    requires k <= |p.functions|
    ensures forall i :: 0 <= i < k ==> MaximumDepth(p, p.functions[i]) <= DeepestStack(p, k)
    ensures k > 0 ==> exists i :: 0 <= i < k && MaximumDepth(p, p.functions[i]) == DeepestStack(p, k)
  {
    hide MaximumDepth;
    if k > 0 {
      DeepestIsMaximum(p, k - 1);
      var last := MaximumDepth(p, p.functions[k - 1]);
      if last < DeepestStack(p, k - 1) {
        var i :| 0 <= i < k - 1 && MaximumDepth(p, p.functions[i]) == DeepestStack(p, k - 1);
        assert MaximumDepth(p, p.functions[i]) == DeepestStack(p, k);
      } else {
        assert MaximumDepth(p, p.functions[k - 1]) == DeepestStack(p, k);
      }
    }
  }

  /** The call lists and the stack depth that the loop collects for the first k functions. */
  ghost predicate Collected(p: BytecodeProgram, k: nat, graph: seq<seq<nat>>, maxStackDepth: nat)
    requires k <= |p.functions|
  {
    && |graph| == k
    && (forall i :: 0 <= i < k ==> graph[i] == Targets(p.functions[i].instructions))
    && maxStackDepth == DeepestStack(p, k)
  }

  lemma CollectedExtends(p: BytecodeProgram, k: nat, graph: seq<seq<nat>>, maxStackDepth: nat)
    requires k < |p.functions| && Collected(p, k, graph, maxStackDepth)
    ensures var f := p.functions[k];
            Collected(p, k + 1, graph + [Targets(f.instructions)], Max(maxStackDepth, MaximumDepth(p, f)))
  {
  }

  lemma NextFunction(p: BytecodeProgram, k: nat)
    requires k < |p.functions|
    ensures FunctionsOk(p, k + 1) <==>
            && FunctionsOk(p, k) && FunctionOk(p, p.functions[k])
            && p.functions[k].name !in NamesOf(p.functions, k)
            && TotalInstructions(p.functions[..k + 1]) <= MAX_TOTAL_INSTRUCTIONS
    ensures FunctionsOk(p, |p.functions|) ==> FunctionsOk(p, k + 1)
    ensures TotalInstructions(p.functions[..k + 1]) == TotalInstructions(p.functions[..k]) + |p.functions[k].instructions|
  {
    FunctionsOkExtends(p, k);
    TotalStep(p.functions, k);
    hide FunctionsOk;
    if FunctionsOk(p, |p.functions|) {
      FunctionsOkShrinks(p, k + 1, |p.functions|);
    }
  }

  // What examining functions comes to: a result, an ordinary refusal, or an index out of bounds.
  datatype Verdict = Verified(instructionCount: nat, maxStackDepth: nat) | Refused | Crashed

  datatype Declared = Fine | Wrong | Broken

  /** One declaration, in the order in which its parts are examined. */
  method VerifyDeclaration(p: BytecodeProgram, f: BytecodeFunction) returns (r: Declared)
    ensures r.Fine? <==> DeclarationOk(p, f)
    ensures r.Broken? <==> DeclarationStarts(p, f) && SlicesBeyond(p.canonicalAst.schema.IsInformationFlow(), f)
  {
    if !DeclarationStarts(p, f) {
      return Wrong;
    }
    if SlicesBeyond(p.canonicalAst.schema.IsInformationFlow(), f) {
      return Broken;
    }
    if !InformationOk(p.canonicalAst.schema.IsInformationFlow(), f) || !FrameOk(f) {
      return Wrong;
    }
    return Fine;
  }

  /** If one function is not accepted, the pass can only have broken off there. */
  lemma OnlyCrashesAt(p: BytecodeProgram, k: nat, other: nat)
    requires k < |p.functions| && FunctionsOk(p, k) && !FunctionsOk(p, k + 1) && CrashesAt(p, other)
    ensures other == k
  {
    if other < k {
      AcceptedDoesNotCrash(p, k, other);
    } else if other > k {
      FunctionsOkShrinks(p, k + 1, other);
    }
  }

  lemma AcceptedDoesNotCrash(p: BytecodeProgram, n: nat, k: nat)
    requires n <= |p.functions| && FunctionsOk(p, n) && k < n
    ensures !CrashesAt(p, k)
  {
    assert FunctionOk(p, p.functions[k]);
    hide FunctionsOk, FrameOk, VerifyBody;
  }

  lemma AllAcceptedDoNotCrash(p: BytecodeProgram)
    requires FunctionsOk(p, |p.functions|)
    ensures !exists k :: CrashesAt(p, k)
  {
    forall k: nat ensures !CrashesAt(p, k) {
      if k < |p.functions| {
        AcceptedDoesNotCrash(p, |p.functions|, k);
      }
    }
  }

  /** Where the pass stands: accepted so far, refused at k, or broken off at k. */
  lemma StopsHere(p: BytecodeProgram, k: nat)
    requires k < |p.functions| && FunctionsOk(p, k) && !FunctionsOk(p, k + 1)
    ensures !FunctionsOk(p, |p.functions|)
    ensures (exists other :: CrashesAt(p, other)) <==> CrashesAt(p, k)
  {
    if FunctionsOk(p, |p.functions|) {
      FunctionsOkShrinks(p, k + 1, |p.functions|);
    }
    if other :| CrashesAt(p, other) {
      OnlyCrashesAt(p, k, other);
    }
  }

  /** The pass over the function table. */
  method VerifyFunctions(p: BytecodeProgram) returns (r: Verdict, graph: seq<seq<nat>>)
    ensures r.Verified? <==> FunctionsOk(p, |p.functions|)
    ensures r.Crashed? <==> exists k :: CrashesAt(p, k)
    ensures r.Verified? ==> r.instructionCount == TotalInstructions(p.functions) && Collected(p, |p.functions|, graph, r.maxStackDepth)
  {
    var instructionCount, maxStackDepth := 0, 0;
    graph := [];
    var functions := p.functions;
    var names: set<string> := {};
    assert FunctionsOk(p, 0) && Collected(p, 0, graph, maxStackDepth);
    hide FunctionsOk, Collected, FunctionOk, TotalInstructions, DeclarationOk, DeclarationStarts, SlicesBeyond;
    for k := 0 to |functions|
      invariant FunctionsOk(p, k) && Collected(p, k, graph, maxStackDepth)
      invariant names == NamesOf(functions, k)
      invariant instructionCount == TotalInstructions(functions[..k])
    {
      var f := functions[k];
      NextFunction(p, k);
      NamesOfStep(functions, k);
      if f.name in names {
        StopsHere(p, k);
        return Refused, [];
      }
      names := names + {f.name};
      var declared := VerifyDeclaration(p, f);
      BrokenIsNotOk(p, f);
      if declared.Broken? {
        StopsHere(p, k);
        return Crashed, [];
      }
      if declared.Wrong? {
        StopsHere(p, k);
        return Refused, [];
      }
      instructionCount := instructionCount + |f.instructions|;
      if instructionCount > MAX_TOTAL_INSTRUCTIONS {
        StopsHere(p, k);
        return Refused, [];
      }
      FineFits(p, f);
      var depth, calls := VerifyFunction(p, f);
      if depth.None? {
        StopsHere(p, k);
        return Refused, [];
      }
      CollectedExtends(p, k, graph, maxStackDepth);
      maxStackDepth := Max(maxStackDepth, depth.value);
      graph := graph + [calls];
    }
    assert functions[..|functions|] == functions;
    AllAcceptedDoNotCrash(p);
    return Verified(instructionCount, maxStackDepth), graph;
  }

  lemma BrokenIsNotOk(p: BytecodeProgram, f: BytecodeFunction)
    ensures SlicesBeyond(p.canonicalAst.schema.IsInformationFlow(), f) ==> !DeclarationOk(p, f)
    ensures !DeclarationOk(p, f) ==> !FunctionOk(p, f)
  {
  }

  lemma FineFits(p: BytecodeProgram, f: BytecodeFunction)
    requires DeclarationOk(p, f)
    ensures TablesFit(f) && (FunctionOk(p, f) <==> VerifyBody(p, f).Some?)
  {
  }

  lemma StructureInParts(p: BytecodeProgram)
    ensures StructureOk(p) <==>
            EntryDeclared(p) && FunctionsOk(p, |p.functions|) && Acyclic(AsGraph(GraphOf(p.functions)))
  {
    assert p.functions[..|p.functions|] == p.functions;
  }

  lemma CollectedGraph(p: BytecodeProgram, graph: seq<seq<nat>>, maxStackDepth: nat)
    requires FunctionsOk(p, |p.functions|) && Collected(p, |p.functions|, graph, maxStackDepth)
    ensures graph == GraphOf(p.functions) && Closed(graph)
  {
    GraphIsClosed(p);
  }

  /**
   * Structural verification: it accepts exactly the programs that StructureOk describes, and breaks off
   * exactly on those that StructureCrashes describes. The stack depth it reports is a maximum.
   */
  method VerifyStructure(p: BytecodeProgram) returns (r: Verdict)
    ensures r.Verified? <==> StructureOk(p)
    ensures r.Crashed? <==> StructureCrashes(p)
    ensures r.Verified? ==> r.instructionCount == TotalInstructions(p.functions)
    ensures r.Verified? ==> forall i :: 0 <= i < |p.functions| ==> MaximumDepth(p, p.functions[i]) <= r.maxStackDepth
    ensures r.Verified? ==> exists i :: 0 <= i < |p.functions| && MaximumDepth(p, p.functions[i]) == r.maxStackDepth
  {
    StructureInParts(p);
    hide StructureOk, FunctionsOk, MaximumDepth, CrashesAt, TotalInstructions;
    if p.functions == [] || |p.functions| > MAX_FUNCTIONS || p.entryFunction >= |p.functions| {
      return Refused;
    }
    if p.functions[p.entryFunction].name != "main" || p.functions[p.entryFunction].parameterCount != 0 {
      return Refused;
    }
    var graph;
    r, graph := VerifyFunctions(p);
    if !r.Verified? {
      return;
    }
    AllAcceptedDoNotCrash(p);
    DeepestIsMaximum(p, |p.functions|);
    CollectedGraph(p, graph, r.maxStackDepth);
    var acyclic;
    ghost var order;
    acyclic, order := VerifyAcyclic(graph);
    if !acyclic {
      return Refused;
    }
  }
}
