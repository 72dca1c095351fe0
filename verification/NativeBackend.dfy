// The backend as its callers see it: compile a verified artifact, invoke a
// function with typed arguments and a budget, receive a value or a status.
module NativeBackend {
  import opened Prelude
  import opened Ast
  import opened Bytecode
  import opened Machine
  import opened Verifier
  import opened Safety
  import opened Fuel
  import opened Semantics
  import opened Artifact
  import opened BrokenArtifacts
  import opened Pipeline
  import opened NativeCode
  import opened NativeLowering
  import opened NativeRefinement
  import opened NativeSimulation
  import Toolchain

  lemma EveryFunctionLowers(p: BytecodeProgram)
    requires StructureOk(p) && InSubset(p)
    ensures forall f :: 0 <= f < |p.functions| ==> LowerFunction(p.functions[f]).Some?
  {
    StructureIsWellFormed(p);
    var rank: seq<nat> :| WellFormed(p, rank);
    forall f | 0 <= f < |p.functions| ensures LowerFunction(p.functions[f]).Some? {
      VerifiedLowers(p, rank, f);
    }
  }

  method DefineAll(p: BytecodeProgram) returns (functions: seq<NativeFunction>)
    requires forall f :: 0 <= f < |p.functions| ==> LowerFunction(p.functions[f]).Some?
    ensures LoweredAll(p, functions)
  {
    functions := [];
    for f := 0 to |p.functions|
      invariant |functions| == f
      invariant forall g :: 0 <= g < f ==> LowerFunction(p.functions[g]) == Some(functions[g])
    {
      var lowered := DefineInternalFunction(p.functions[f]);
      functions := functions + [lowered.value];
    }
    forall f | 0 <= f < |functions| ensures LoweredAt(p, functions, f) {
    }
  }

  // ---------- the machine code ----------

  const MAX_NATIVE_CODE_BYTES_PER_FUNCTION: nat := 1_048_576
  const MAX_NATIVE_TOTAL_CODE_BYTES: nat := 16 * 1_048_576
  const MAX_NATIVE_RELOCATIONS_PER_FUNCTION: nat := 10_000
  const MAX_NATIVE_TOTAL_RELOCATIONS: nat := 5_120_000

  // What the code generator reports about the machine code of one internal function or wrapper.
  datatype CodeReport = CodeReport(bytes: nat, relocations: nat, internalOnly: bool)

  predicate ReportWithin(r: CodeReport) {
    && r.bytes <= MAX_NATIVE_CODE_BYTES_PER_FUNCTION
    && r.relocations <= MAX_NATIVE_RELOCATIONS_PER_FUNCTION
    && r.internalOnly
  }

  function CodeBytes(reports: seq<CodeReport>): nat {
    if reports == [] then 0 else CodeBytes(reports[..|reports| - 1]) + reports[|reports| - 1].bytes
  }

  function Relocations(reports: seq<CodeReport>): nat {
    if reports == [] then 0 else Relocations(reports[..|reports| - 1]) + reports[|reports| - 1].relocations
  }

  predicate CodeWithin(reports: seq<CodeReport>) {
    (forall k :: 0 <= k < |reports| ==> ReportWithin(reports[k])) && CodeBytes(reports) <= MAX_NATIVE_TOTAL_CODE_BYTES
  }

  /** The limit on all relocations follows from the limits on functions and on the relocations of each. */
  lemma {:induction false} RelocationsStayWithin(reports: seq<CodeReport>)
    requires forall k :: 0 <= k < |reports| ==> ReportWithin(reports[k])
    ensures Relocations(reports) <= |reports| * MAX_NATIVE_RELOCATIONS_PER_FUNCTION
    ensures |reports| <= 2 * MAX_NATIVE_FUNCTIONS ==> Relocations(reports) <= MAX_NATIVE_TOTAL_RELOCATIONS
  {
    if reports != [] {
      RelocationsStayWithin(reports[..|reports| - 1]);
    }
  }

  /** The checks on generated code: each piece as it is defined, then the totals. */
  method CheckCode(reports: seq<CodeReport>) returns (ok: bool)
    requires |reports| <= 2 * MAX_NATIVE_FUNCTIONS
    ensures ok <==> CodeWithin(reports)
  {
    var bytes, relocations := 0, 0;
    for k := 0 to |reports|
      invariant forall j :: 0 <= j < k ==> ReportWithin(reports[j])
      invariant bytes == CodeBytes(reports[..k]) && relocations == Relocations(reports[..k])
    {
      if !ReportWithin(reports[k]) {
        return false;
      }
      assert reports[..k + 1][..k] == reports[..k];
      bytes, relocations := bytes + reports[k].bytes, relocations + reports[k].relocations;
    }
    assert reports[..|reports|] == reports;
    RelocationsStayWithin(reports);
    ok := bytes <= MAX_NATIVE_TOTAL_CODE_BYTES && relocations <= MAX_NATIVE_TOTAL_RELOCATIONS;
  }

  // The outcome of compilation; the verifier may break off, the code generator may fail.
  datatype Compilation = Compiled(functions: seq<NativeFunction>) | NotCompiled | BrokenOff

  /**
   * Verify, validate the subset, lower every function, check what the code generator made of it. Nothing
   * that passes the first two fails to lower. The reports are what the generator says about the internal
   * functions and the wrappers, and None if it fails.
   */
  method CompileBytecode(p: BytecodeProgram, reports: Option<seq<CodeReport>>) returns (r: Compilation)
    requires reports.Some? ==> |reports.value| == 2 * |p.functions|
    ensures r.BrokenOff? <==> ArtifactCrashes(p)
    ensures r.Compiled? <==> ArtifactOk(p) && InSubset(p) && reports.Some? && CodeWithin(reports.value)
    ensures r.Compiled? ==> LoweredAll(p, r.functions)
  {
    var verified := Toolchain.VerifyBytecode(p);
    if verified.BrokenOff? {
      AcceptedIsNotBroken(p);
      return BrokenOff;
    }
    if verified.Rejected? {
      return NotCompiled;
    }
    AcceptedIsNotBroken(p);
    var inside := ValidateSubset(p);
    if !inside {
      return NotCompiled;
    }
    EveryFunctionLowers(p);
    var functions := DefineAll(p);
    if reports.None? {
      return NotCompiled;
    }
    var small := CheckCode(reports.value);
    return if small then Compiled(functions) else NotCompiled;
  }

  lemma AcceptedIsNotBroken(p: BytecodeProgram)
    ensures !(ArtifactOk(p) && ArtifactCrashes(p))
  {
    if ArtifactOk(p) {
      AcceptedArtifactsDoNotCrash(p);
    }
  }

  // ---------- invoking ----------

  /** The unsigned counter behind a fuel cell. */
  function Counter(cell: i64): u64 {
    if cell < 0 then cell + TWO_64 else cell
  }

  lemma CounterOfPattern(n: u64)
    ensures Counter(Pattern(n)) == n
  {
  }

  // What the wrapper leaves behind: a status, the fuel cell and the output cell.
  datatype WrapperExit = WrapperExit(status: i64, fuel: i64, output: i64) | NoExit

  /** Arguments are loaded from memory; the output cell is written only on success. */
  function RunWrapper(np: seq<NativeFunction>, f: nat, memory: seq<i64>, fuel: i64, output: i64, k: nat): WrapperExit {
    if f >= |np| || |memory| < np[f].parameterCount then NoExit
    else
      match NativeCall(np, f, memory[..np[f].parameterCount], fuel, k)
      case Exited(status, value, fuel') =>
        if status != STATUS_OK then WrapperExit(status, fuel', output) else WrapperExit(status, fuel', value)
      case _ => NoExit
  }

  datatype Invocation =
    | Delivered(result: Value, instructions: int)
    | FailedWith(status: i64)
    | EmptyBudget
    | BadArguments
    | NonCanonical
    | Crashed

  function NormalizeAll(arguments: seq<Value>): Option<seq<i64>> {
    if arguments == [] then Some([])
    else
      match (NormalizeValue(arguments[0]), NormalizeAll(arguments[1..]))
      case (Some(n), Some(rest)) => Some([n] + rest)
      case (_, _) => None
  }

  function Invoke(p: BytecodeProgram, np: seq<NativeFunction>, f: nat, arguments: seq<Value>, budget: u64, k: nat): Invocation
    requires f < |p.functions|
  {
    if budget == 0 then EmptyBudget
    else if !ValuesTyped(arguments, p.functions[f].parameterTypes) then BadArguments
    else
      match NormalizeAll(arguments)
      case None => BadArguments
      case Some(memory) =>
        match RunWrapper(np, f, memory, Pattern(budget), 0, k)
        case NoExit => Crashed
        case WrapperExit(status, fuel, output) =>
          if status != STATUS_OK then FailedWith(status)
          else
            match DenormalizeValue(output, p.functions[f].returnType)
            case None => NonCanonical
            case Some(v) => Delivered(v, budget - Counter(fuel))
  }

  lemma {:induction false} NormalizesAll(arguments: seq<Value>)
    requires forall k :: 0 <= k < |arguments| ==> !arguments[k].TextValue?
    ensures NormalizeAll(arguments).Some? && Normalized(arguments, NormalizeAll(arguments).value)
  {
    if arguments != [] {
      assert forall k :: 0 <= k < |arguments| - 1 ==> arguments[1..][k] == arguments[k + 1];
      NormalizesAll(arguments[1..]);
      var rest := NormalizeAll(arguments[1..]).value;
      forall k | 0 <= k < |arguments|
        ensures NormalizeValue(arguments[k]) == Some(NormalizeAll(arguments).value[k])
      {
        if k > 0 {
          assert NormalizeValue(arguments[1..][k - 1]) == Some(rest[k - 1]);
        }
      }
    }
  }

  lemma TypedWithoutText(p: BytecodeProgram, f: nat, arguments: seq<Value>)
    requires InSubset(p) && f < |p.functions| && ValuesTyped(arguments, p.functions[f].parameterTypes)
    ensures NormalizeAll(arguments).Some? && Normalized(arguments, NormalizeAll(arguments).value)
  {
    assert FunctionInSubset(p.functions[f]);
    forall k | 0 <= k < |arguments| ensures !arguments[k].TextValue? {
      assert TypeOf(arguments[k]) == p.functions[f].parameterTypes[k];
    }
    NormalizesAll(arguments);
  }

  /** Different permitted failures have different statuses, none of them the status of success. */
  lemma StatusesDiffer(a: VmError, b: VmError)
    requires Permitted(Legacy, a) && Permitted(Legacy, b)
    ensures StatusOf(a) == StatusOf(b) <==> a == b
    ensures 1 <= StatusOf(a) <= 7
  {
  }

  /** What the caller of the machine observes, in the backend's terms. */
  function Observed(r: Flow): Invocation {
    match r
    case Returned(v, m) => Delivered(v, m.executed)
    case Failed(e, _) => FailedWith(StatusOf(e))
    case Running(_, _) => Crashed
  }

  lemma RankedInvocation(p: BytecodeProgram, rank: seq<nat>, np: seq<NativeFunction>, f: nat, arguments: seq<Value>, budget: u64, k: nat)
    requires WellFormed(p, rank) && p.schema == p.canonicalAst.schema && InSubset(p) && LoweredAll(p, np)
    requires f < |p.functions| && ValuesTyped(arguments, p.functions[f].parameterTypes)
    requires budget > 0 && k >= |p.functions|
    ensures Invoke(p, np, f, arguments, budget, k) == Observed(RunCall(p, f, arguments, 0, MachineState(budget, 0, [], [])))
  {
    hide RunCall, NativeCall, WellFormed;
    var m := MachineState(budget, 0, [], []);
    Verified(p, rank, f);
    TypedWithoutText(p, f, arguments);
    var numbers := NormalizeAll(arguments).value;
    assert LoweredAt(p, np, f);
    assert numbers[..np[f].parameterCount] == numbers;
    CallNative(np, p, rank, f, arguments, numbers, 0, k, m);
    CallSafe(p, rank, f, arguments, 0, m);
    CallConservesFuel(p, f, arguments, 0, m);
    var r := RunCall(p, f, arguments, 0, m);
    if r.Returned? {
      CounterOfPattern(r.state.remaining);
      NormalizeRoundTrip(r.value, 0, I64);
    } else {
      StatusesDiffer(r.error, r.error);
    }
  }

  /**
   * Native code refines the machine. For verified bytecode in the subset, every function, typed
   * argument list and budget, an invocation completes with the machine's value and instruction
   * count exactly when the machine does, and otherwise fails with the status of the machine's
   * failure; it never crashes and never produces a non-canonical value. The machine's call-depth
   * limit, which native code does not have, makes no difference.
   */
  lemma NativeRefinesMachine(p: BytecodeProgram, np: seq<NativeFunction>, f: nat, arguments: seq<Value>, budget: u64, k: nat)
    requires StructureOk(p) && p.schema == p.canonicalAst.schema && InSubset(p) && LoweredAll(p, np)
    requires f < |p.functions| && ValuesTyped(arguments, p.functions[f].parameterTypes)
    requires budget > 0 && k >= |p.functions|
    ensures Invoke(p, np, f, arguments, budget, k) == Observed(RunCall(p, f, arguments, 0, MachineState(budget, 0, [], [])))
  {
    StructureIsWellFormed(p);
    var rank: seq<nat> :| WellFormed(p, rank);
    RankedInvocation(p, rank, np, f, arguments, budget, k);
  }

  /** From tree to native code: with enough fuel an invocation is the evaluation of the embedded tree. */
  lemma NativeEvaluatesTheTree(p: BytecodeProgram, np: seq<NativeFunction>, f: nat, arguments: seq<Value>, budget: u64, k: nat)
    requires ArtifactOk(p) && InSubset(p) && LoweredAll(p, np)
    requires f < |p.functions| && f < |p.canonicalAst.functions| && ValuesTyped(arguments, p.functions[f].parameterTypes)
    requires budget >= StaticCost(p, f) && budget > 0 && k >= |p.functions|
    ensures Invoke(p, np, f, arguments, budget, k) ==
            match EvalFunction(p.canonicalAst, f, arguments, [], k)
            case Finished(v, _) => Delivered(v, StaticCost(p, f))
            case Stopped(ArithmeticStop(failure)) => FailedWith(StatusOf(VmError.Arithmetic(failure)))
            case Stopped(_) => Crashed
  {
    NativeRefinesMachine(p, np, f, arguments, budget, k);
    ArtifactsRunAsTheirTree(p, f, arguments, budget, k);
    VerifiedCallsAreSafe(p, f, arguments, budget);
    ObservedOutcome(p, f, RunCall(p, f, arguments, 0, MachineState(budget, 0, [], [])), EvalFunction(p.canonicalAst, f, arguments, [], k), budget);
  }

  /** What is observed of a pure run that has fuel enough. */
  lemma ObservedOutcome(p: BytecodeProgram, f: nat, r: Flow, o: Outcome<Value>, budget: nat)
    requires f < |p.functions| && RunsAs(p, f, r, o, budget) && budget >= StaticCost(p, f)
    requires p.schema.Legacy? && (r.Failed? ==> Permitted(p.schema, r.error))
    ensures Observed(r) == match o
                           case Finished(v, _) => Delivered(v, StaticCost(p, f))
                           case Stopped(ArithmeticStop(failure)) => FailedWith(StatusOf(VmError.Arithmetic(failure)))
                           case Stopped(_) => Crashed
  {
    hide StaticCost;
  }
}
