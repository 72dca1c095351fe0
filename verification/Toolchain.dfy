// The operations a caller of the language crates sees: verify an artifact,
// compile a parsed module, and execute a function of an artifact.
module Toolchain {
  import opened Prelude
  import opened Ast
  import opened CheckRules
  import opened Bytecode
  import opened Machine
  import opened Semantics
  import opened Verifier
  import opened Safety
  import opened Fuel
  import opened Correctness
  import opened Artifact
  import opened CheckedStructure
  import opened CanonicalShape
  import opened Pipeline
  import opened VirtualMachine
  import opened BrokenArtifacts
  import opened LinearAuthority
  import Encoding
  import Checker
  import Emitter
  import StructureCheck

  // The outcome of complete verification; it breaks off only where a structural check does.
  datatype Verification = Accepted(instructionCount: nat, maxStackDepth: nat) | Rejected | BrokenOff

  /** Complete verification of an artifact, in the order in which its parts are examined. */
  method VerifyBytecode(p: BytecodeProgram) returns (r: Verification)
    ensures r.Accepted? <==> ArtifactOk(p)
    ensures r.BrokenOff? <==> ArtifactCrashes(p)
    ensures r.Accepted? ==> r.instructionCount == TotalInstructions(p.functions)
    ensures r.Accepted? ==> forall i :: 0 <= i < |p.functions| ==> MaximumDepth(p, p.functions[i]) <= r.maxStackDepth
    ensures r.Accepted? ==> exists i :: 0 <= i < |p.functions| && MaximumDepth(p, p.functions[i]) == r.maxStackDepth
  {
    var ast := p.canonicalAst;
    if p.schema.Unknown? || p.schema != ast.schema || !CanonicalShapeOk(ast) {
      return Rejected;
    }
    var source := ParsedProgram(ast);
    if source.None? {
      return Rejected;
    }
    var checked := Checker.Check(source.value);
    if !checked {
      return Rejected;
    }
    var encodes := Encoding.CheckEncodable(Encoding.TreeJson(ast));
    Encoding.TreeEncoding(ast);
    if !encodes {
      return Rejected;
    }
    if p.semanticIdentity != IdentityOf(ast) || p.semanticDigest != p.semanticIdentity.digest || p.moduleName != ast.moduleName {
      return Rejected;
    }
    assert TreeBound(p);
    hide StructureOk, StructureCrashes, TreeBound, MaximumDepth, TotalInstructions, Encoding.ArtifactJson, Encoding.TreeJson,
         Encoding.Encodable;
    var structure := StructureCheck.VerifyStructure(p);
    match structure
    case Crashed => return BrokenOff;
    case Refused => return Rejected;
    case Verified(instructionCount, maxStackDepth) =>
      var expected := Emitter.CompileTree(ast);
      if expected != Some(p) {
        return Rejected;
      }
      encodes := Encoding.CheckEncodable(Encoding.ArtifactJson(p));
      Encoding.ArtifactEncoding(p);
      if !encodes {
        return Rejected;
      }
      return Accepted(instructionCount, maxStackDepth);
  }

  /**
   * Compile a parsed module: check it, emit code for its canonical tree, verify the result. The
   * compiler delivers exactly for the accepted modules whose tree and artifact can be encoded.
   */
  method Compile(source: Program) returns (r: Option<BytecodeProgram>)
    ensures r.Some? ==> CheckAccepts(source) && r == CompileProgram(source) && ArtifactOk(r.value)
    ensures Named(source) ==>
              (r.Some? <==>
               && CheckAccepts(source) && CompileProgram(source).Some?
               && Encoding.ArtifactEncodes(CompileProgram(source).value))
    ensures CheckAccepts(source) && CompileProgram(source).Some? ==> !ArtifactCrashes(CompileProgram(source).value)
  {
    var checked := Checker.Check(source);
    if !checked {
      return None;
    }
    if Named(source) && CompileProgram(source).Some? {
      CheckedProgramsVerify(source);
    }
    r := Emitter.CompileTree(Canonical(source));
    if r.Some? {
      CompiledNeverCrashes(Canonical(source), r.value);
      var verified := VerifyBytecode(r.value);
      if verified.Rejected? {
        r := None;
      }
    }
  }

  // What the caller of an execution learns.
  datatype FunctionReceipt =
    | Unverified
    | Crashed
    | EmptyBudget
    | UnknownFunction
    | BadArguments
    | Executed(result: Value, requests: seq<EffectRequest>, instructions: nat)
    | Stopped(error: VmError)

  /** The receipt reports the evaluation o of the function: value, events, request identities and the exact instruction count. */
  ghost predicate Reports(p: BytecodeProgram, f: nat, receipt: FunctionReceipt, o: Outcome<Value>, budget: nat) {
    match o
    case Finished(v, log) =>
      if budget >= StaticCost(p, f) then
        receipt.Executed? && receipt.result == v && EventsOf(receipt.requests) == log && WellNumbered(p, receipt.requests)
        && receipt.instructions == StaticCost(p, f)
      else receipt == FunctionReceipt.Stopped(BudgetExhausted)
    case Stopped(stop) =>
      && ErrorOf(stop).Some?
      && (receipt == FunctionReceipt.Stopped(ErrorOf(stop).value)
          || (budget < StaticCost(p, f) && receipt == FunctionReceipt.Stopped(BudgetExhausted)))
  }

  method FindFunction(p: BytecodeProgram, name: string) returns (index: Option<nat>)
    ensures index.Some? ==> index.value < |p.functions| && p.functions[index.value].name == name
    ensures index.None? ==> forall i :: 0 <= i < |p.functions| ==> p.functions[i].name != name
  {
    for i := 0 to |p.functions|
      invariant forall j :: 0 <= j < i ==> p.functions[j].name != name
    {
      if p.functions[i].name == name {
        return Some(i);
      }
    }
    index := None;
  }

  method ValidateArguments(fn: BytecodeFunction, arguments: seq<Value>) returns (ok: bool)
    requires fn.parameterCount == |fn.parameterTypes|
    ensures ok <==> ValuesTyped(arguments, fn.parameterTypes)
  {
    if |arguments| != fn.parameterCount {
      return false;
    }
    for i := 0 to |arguments|
      invariant forall j :: 0 <= j < i ==> TypeOf(arguments[j]) == fn.parameterTypes[j]
    {
      if TypeOf(arguments[i]) != fn.parameterTypes[i] {
        return false;
      }
    }
    ok := true;
  }

  /** Run a function of a verified artifact on arguments of its parameter types. */
  method RunVerified(p: BytecodeProgram, f: nat, arguments: seq<Value>, budget: u64, ghost k: nat)
    returns (receipt: FunctionReceipt)
    requires ArtifactOk(p) && f < |p.functions| && ValuesTyped(arguments, p.functions[f].parameterTypes)
    requires k >= |p.functions|
    ensures receipt.Executed? || receipt.Stopped?
    ensures f < |p.canonicalAst.functions|
    ensures Reports(p, f, receipt, EvalFunction(p.canonicalAst, f, arguments, [], k), budget)
  {
    hide ArtifactOk, RunCall, Reports;
    CompiledInOrder(p, f);
    CallReports(p, f, arguments, budget, k);
    var machine := new VirtualMachine(p, budget);
    var result := machine.Call(f, arguments, 0);
    match result
    case Ok(v) => receipt := Executed(v, machine.requests, machine.executed);
    case Err(e) => receipt := FunctionReceipt.Stopped(e);
  }

  /** The receipt for the way a call ends. */
  function ReceiptOf(r: Flow): FunctionReceipt {
    match r
    case Returned(v, m) => Executed(v, m.requests, m.executed)
    case Failed(e, _) => FunctionReceipt.Stopped(e)
    case Running(_, _) => Unverified
  }

  lemma CallReports(p: BytecodeProgram, f: nat, arguments: seq<Value>, budget: u64, k: nat)
    requires ArtifactOk(p) && f < |p.functions| && f < |p.canonicalAst.functions|
    requires ValuesTyped(arguments, p.functions[f].parameterTypes) && k >= |p.functions|
    ensures Reports(p, f, ReceiptOf(RunCall(p, f, arguments, 0, MachineState(budget, 0, [], []))),
                    EvalFunction(p.canonicalAst, f, arguments, [], k), budget)
  {
    hide ArtifactOk, RunCall, EvalFunction, StaticCost, EventsOf;
    ArtifactsRunAsTheirTree(p, f, arguments, budget, k);
    CallLog(p, f, arguments, 0, MachineState(budget, 0, [], []));
  }

  lemma NameIsUnique(p: BytecodeProgram, f: nat)
    requires ArtifactOk(p) && f < |p.functions|
    ensures forall i :: 0 <= i < |p.functions| && p.functions[i].name == p.functions[f].name ==> i == f
  {
  }

  lemma CompiledInOrder(p: BytecodeProgram, f: nat)
    requires ArtifactOk(p) && f < |p.functions|
    ensures f < |p.canonicalAst.functions|
    ensures FunctionOk(p, p.functions[f])
  {
    CompiledAt(p.canonicalAst, p, f);
  }

  /**
   * Execute one named function of an artifact. Whatever the artifact, the arguments and the budget,
   * a run that starts reports the evaluation of the embedded tree, for any call allowance k from the
   * number of functions on.
   */
  method ExecuteFunction(p: BytecodeProgram, name: string, arguments: seq<Value>, budget: u64, ghost k: nat)
    returns (receipt: FunctionReceipt, ghost f: nat)
    requires k >= |p.functions|
    ensures receipt.Unverified? <==> !ArtifactOk(p) && !ArtifactCrashes(p)
    ensures receipt.Crashed? <==> ArtifactCrashes(p)
    ensures receipt.EmptyBudget? <==> ArtifactOk(p) && budget == 0
    ensures receipt.UnknownFunction? <==>
            ArtifactOk(p) && budget > 0 && forall i :: 0 <= i < |p.functions| ==> p.functions[i].name != name
    ensures receipt.BadArguments? <==>
            && ArtifactOk(p) && budget > 0
            && exists i :: 0 <= i < |p.functions| && p.functions[i].name == name
                           && !ValuesTyped(arguments, p.functions[i].parameterTypes)
    ensures receipt.Executed? || receipt.Stopped? ==>
              && f < |p.functions| && p.functions[f].name == name && ValuesTyped(arguments, p.functions[f].parameterTypes)
              && f < |p.canonicalAst.functions|
              && Reports(p, f, receipt, EvalFunction(p.canonicalAst, f, arguments, [], k), budget)
  {
    f := 0;
    var verified := VerifyBytecode(p);
    if verified.BrokenOff? {
      return Crashed, f;
    }
    if verified.Rejected? {
      return Unverified, f;
    }
    AcceptedArtifactsDoNotCrash(p);
    if budget == 0 {
      return EmptyBudget, f;
    }
    var index := FindFunction(p, name);
    if index.None? {
      return UnknownFunction, f;
    }
    f := index.value;
    CompiledInOrder(p, f);
    NameIsUnique(p, f);
    var valid := ValidateArguments(p.functions[index.value], arguments);
    if !valid {
      return BadArguments, f;
    }
    receipt := RunVerified(p, index.value, arguments, budget, k);
  }
}
