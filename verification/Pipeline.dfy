// End to end: a program the checker accepts becomes an artifact the verifier
// accepts, exactly within the size limits, and an artifact the verifier accepts
// runs as its embedded tree says, for every function, argument list and budget.
module Pipeline {
  import opened Prelude
  import opened Ast
  import opened CheckRules
  import opened Bytecode
  import opened Machine
  import opened Semantics
  import opened Verifier
  import opened Compiler
  import opened Safety
  import opened Fuel
  import opened Correctness
  import opened Artifact
  import opened CheckedPrograms
  import opened CheckedStructure
  import opened Normalization
  import opened CanonicalShape
  import opened EncodingLimits
  import Encoding

  ghost function CompileProgram(p: Program): Option<BytecodeProgram> {
    CompileTree(Canonical(p))
  }

  lemma CompiledIdentity(ast: CanonicalProgram, p: BytecodeProgram)
    requires CompileCanonical(ast) == Some(p)
    ensures p.schema == ast.schema && p.canonicalAst == ast && p.semanticIdentity == IdentityOf(ast)
    ensures p.semanticDigest == p.semanticIdentity.digest && p.moduleName == ast.moduleName
  {
  }

  lemma ShapeKnowsSchema(ast: CanonicalProgram)
    ensures CanonicalShapeOk(ast) ==> !ast.schema.Unknown?
  {
  }

  lemma ArtifactIffStructure(p: BytecodeProgram, ast: CanonicalProgram)
    requires CompileTree(ast) == Some(p) && CanonicalChecks(ast)
    ensures ArtifactOk(p) <==> CanonicalShapeOk(ast) && StructureOk(p) && Encoding.ArtifactEncodes(p)
  {
    CompiledIdentity(ast, p);
    hide CompileCanonical, CanonicalShapeOk, StructureOk, CanonicalChecks;
    ShapeKnowsSchema(ast);
  }

  lemma ReconstructionChecks(p: Program)
    requires CheckAccepts(p)
    ensures CanonicalChecks(Canonical(p)) && Source(Canonical(p), Normalized(p)) && ErrorFree(Normalized(p))
  {
    AcceptedNormalizes(p);
    SourceNormalizes(p);
    NoErrors(Normalized(p));
  }

  /** Code is generated for every checked program, and compilation fails only where its tree cannot be encoded. */
  lemma CheckedProgramsCompile(p: Program)
    requires CheckAccepts(p) && Named(p)
    ensures CompileCanonical(Canonical(p)).Some?
    ensures CompileProgram(p).Some? <==> Encoding.TreeEncodes(Canonical(p))
  {
    NoErrors(p);
    ReconstructionChecks(p);
    forall i | 0 <= i < |Normalized(p).functions| ensures StatementsNamed(Normalized(p), i) {
      NormalizedStatementsNamed(p, i);
    }
    ErrorFreeCompiles(Canonical(p), Normalized(p));
  }

  /**
   * Checked programs verify. For a program that check accepts and that compiles, the artifact passes
   * complete verification exactly when it can be encoded; the numeric limits never decide.
   */
  lemma CheckedProgramsVerify(p: Program)
    requires CheckAccepts(p) && Named(p) && CompileProgram(p).Some?
    ensures ArtifactOk(CompileProgram(p).value) <==> Encoding.ArtifactEncodes(CompileProgram(p).value)
  {
    hide CompileCanonical, CheckAccepts, Named, StructureOk, CanonicalShapeOk;
    var ast, code := Canonical(p), CompileProgram(p).value;
    ReconstructionChecks(p);
    ArtifactIffStructure(code, ast);
    if Encoding.ArtifactEncodes(code) {
      EncodedCodeIsSound(p, ast, code);
    }
  }

  lemma EncodedCodeIsSound(p: Program, ast: CanonicalProgram, code: BytecodeProgram)
    requires CheckAccepts(p) && Named(p) && ast == Canonical(p) && Encoding.TreeEncodes(ast)
    requires CompileCanonical(ast) == Some(code) && Encoding.ArtifactEncodes(code)
    ensures CanonicalShapeOk(ast) && StructureOk(code)
  {
    hide CompileCanonical, CheckAccepts, Named, StructureOk, CanonicalShapeOk,
         TreeWithinLimits, WithinLimits;
    EncodedTreesAreShallow(ast);
    ShapeIffLimits(p);
    ReconstructionChecks(p);
    EncodedArtifactsAreWithinLimits(ast, code);
    StructureIffLimits(code, ast, Normalized(p));
  }

  // ---------- a well-shaped tree is the canonical tree of the program it stands for ----------

  lemma {:induction false} ShapedExpression(e: Expression<string>, depth: nat)
    requires ExpressionShape(e, depth) && ParsedExpression(e).Some?
    ensures CanonicalExpression(ParsedExpression(e).value) == e
    decreases e, 1
  {
    match e
    case Unary(_, operand) => ShapedExpression(operand, depth + 1);
    case Binary(_, left, right) =>
      ShapedExpression(left, depth + 1);
      ShapedExpression(right, depth + 1);
    case Call(_, arguments) => ShapedExpressions(arguments, depth + 1);
    case _ =>
  }

  lemma {:induction false} ShapedExpressions(es: seq<Expression<string>>, depth: nat)
    requires ExpressionShapes(es, depth) && ParsedExpressions(es).Some?
    ensures CanonicalExpressions(ParsedExpressions(es).value) == es
    decreases es, 0
  {
    if es != [] {
      ShapedExpression(es[0], depth);
      ShapedExpressions(es[1..], depth);
      var parsed := ParsedExpressions(es).value;
      assert parsed[0] == ParsedExpression(es[0]).value && parsed[1..] == ParsedExpressions(es[1..]).value;
      assert es == [es[0]] + es[1..];
    }
  }

  lemma ShapedStatement(linear: bool, flow: bool, s: Statement<string>)
    requires StatementShape(linear, flow, s) && ParsedStatement(s).Some?
    ensures CanonicalStatement(ParsedStatement(s).value) == s
  {
    match s
    case LetStatement(_, _, _, e) => ShapedExpression(e, 0);
    case ReturnStatement(None) =>
    case ReturnStatement(Some(e)) => ShapedExpression(e, 0);
    case RequestStatement(_, _, _, arguments) => ShapedExpressions(arguments, 0);
    case ExpressionStatement(e) => ShapedExpression(e, 0);
  }

  lemma {:induction false} ShapedBody(linear: bool, flow: bool, body: seq<Statement<string>>)
    requires forall k :: 0 <= k < |body| ==> StatementShape(linear, flow, body[k])
    requires ParsedBody(body).Some?
    ensures CanonicalBody(ParsedBody(body).value) == body
  {
    if body != [] {
      ShapedStatement(linear, flow, body[0]);
      forall k | 0 <= k < |body| - 1 ensures StatementShape(linear, flow, body[1..][k]) {
        assert body[1..][k] == body[k + 1];
      }
      ShapedBody(linear, flow, body[1..]);
      var parsed := ParsedBody(body).value;
      assert parsed[0] == ParsedStatement(body[0]).value && parsed[1..] == ParsedBody(body[1..]).value;
      assert body == [body[0]] + body[1..];
    }
  }

  lemma {:induction false} ParsedFunctionsAt(fs: seq<Function<string>>, i: nat)
    requires ParsedFunctions(fs).Some? && i < |fs|
    ensures |ParsedFunctions(fs).value| == |fs|
    ensures ParsedFunction(fs[i]).Some? && ParsedFunctions(fs).value[i] == ParsedFunction(fs[i]).value
  {
    if i > 0 {
      ParsedFunctionsAt(fs[1..], i - 1);
    } else if fs[1..] != [] {
      ParsedFunctionsAt(fs[1..], 0);
    }
  }

  lemma ShapedFunction(ast: CanonicalProgram, i: nat)
    requires CanonicalShapeOk(ast) && ParsedProgram(ast).Some? && i < |ast.functions|
    ensures |ParsedProgram(ast).value.functions| == |ast.functions|
    ensures Mirrors(ParsedProgram(ast).value.functions[i], ast.functions[i])
  {
    ParsedFunctionsAt(ast.functions, i);
    ShapedBody(ast.schema.IsLinear(), ast.schema.IsInformationFlow(), ast.functions[i].body);
  }

  lemma ShapedAuthority(ast: CanonicalProgram, i: nat)
    requires CanonicalShapeOk(ast) && ParsedProgram(ast).Some? && i < |ast.functions|
    ensures |ParsedProgram(ast).value.functions| == |ast.functions|
    ensures var f := ParsedProgram(ast).value.functions[i];
            f.authorities.Some? == ast.schema.IsLinear() && (!ast.schema.IsLinear() ==> !RequestsWithAuthority(f))
  {
    ShapedFunction(ast, i);
    var f, g := ParsedProgram(ast).value.functions[i], ast.functions[i];
    assert FunctionShape(ast.schema.IsLinear(), ast.schema.IsInformationFlow(), g);
    if RequestsWithAuthority(f) {
      var k :| 0 <= k < |f.body| && f.body[k].RequestStatement? && f.body[k].authority.Some?;
      CanonicalBodyAt(f.body, k);
      assert StatementShape(ast.schema.IsLinear(), ast.schema.IsInformationFlow(), g.body[k]);
    }
  }

  lemma ShapedSource(ast: CanonicalProgram)
    requires CanonicalShapeOk(ast) && ParsedProgram(ast).Some?
    ensures Source(ast, ParsedProgram(ast).value)
  {
    var q := ParsedProgram(ast).value;
    ShapedAuthority(ast, 0);
    forall i | 0 <= i < |q.functions| ensures Mirrors(q.functions[i], ast.functions[i]) {
      ShapedFunction(ast, i);
    }
    if MentionsAuthority(q.functions) {
      var i :| 0 <= i < |q.functions| && (q.functions[i].authorities.Some? || RequestsWithAuthority(q.functions[i]));
      ShapedAuthority(ast, i);
    }
    assert ast.schema.IsLinear() ==> q.functions[0].authorities.Some?;
  }

  // ---------- what a verified artifact does ----------

  lemma ArtifactLinked(p: BytecodeProgram, rank: seq<nat>)
    requires ArtifactOk(p) && Ranked(p.functions, rank)
    ensures Linked(p, p.canonicalAst, rank)
  {
    var ast := p.canonicalAst;
    var q := ParsedProgram(ast).value;
    ShapedSource(ast);
    NoErrors(q);
    forall f | 0 <= f < |p.functions| ensures LinkedAt(p, ast, f) {
      CompiledAt(ast, p, f);
      LocalsAreDistinct(ast, q, f);
    }
  }

  /** The failure of the machine for a way to stop that verified code can meet. */
  function ErrorOf(stop: Stop): Option<VmError> {
    match stop
    case ArithmeticStop(failure) => Some(VmError.Arithmetic(failure))
    case UnencodableStop => Some(UnencodableRequest)
    case Stuck | TooDeep => None
  }

  /** The run is the evaluation o, unless the budget is below the static cost. */
  ghost predicate RunsAs(p: BytecodeProgram, f: nat, r: Flow, o: Outcome<Value>, budget: nat) {
    match o
    case Finished(v, log) =>
      if budget >= StaticCost(p, f) then
        r.Returned? && r.value == v && EventsOf(r.state.requests) == log && r.state.executed == StaticCost(p, f)
      else OutOfBudget(r)
    case Stopped(stop) =>
      && ErrorOf(stop).Some?
      && r.Failed?
      && (r.error == ErrorOf(stop).value || (budget < StaticCost(p, f) && r.error.BudgetExhausted?))
  }

  /** The run ends as the evaluation does, or by a failure that verified code may meet. */
  ghost predicate EndsAs(schema: Schema, r: Flow, o: Outcome<Value>) {
    SimulatesCall(r, o) && (r.Returned? || (r.Failed? && Permitted(schema, r.error)))
  }

  lemma RunOutcome(p: BytecodeProgram, rank: seq<nat>, f: nat, arguments: seq<Value>, budget: nat, k: nat)
    requires ArtifactOk(p) && WellFormed(p, rank)
    requires f < |p.functions| && ValuesTyped(arguments, p.functions[f].parameterTypes) && k >= |p.functions|
    ensures EndsAs(p.schema, RunCall(p, f, arguments, 0, MachineState(budget, 0, [], [])), EvalFunction(p.canonicalAst, f, arguments, [], k))
  {
    var m := MachineState(budget, 0, [], []);
    Fits(p, rank, f);
    ArtifactLinked(p, rank);
    assert EventsOf(m.requests) == [];
    SimulateFunction(p, p.canonicalAst, rank, f, arguments, 0, k, m);
    CallSafe(p, rank, f, arguments, 0, m);
  }

  /**
   * Compiler correctness on whole runs. A verified artifact, run from any function on any typed
   * arguments, gives the value, the ordered requests and the first arithmetic error of the strict
   * left-to-right evaluation of its embedded tree, as soon as the budget reaches the static cost;
   * a smaller budget can only be exhausted first. The evaluation itself is never stuck.
   */
  lemma ArtifactsRunAsTheirTree(p: BytecodeProgram, f: nat, arguments: seq<Value>, budget: nat, k: nat)
    requires ArtifactOk(p) && f < |p.functions| && f < |p.canonicalAst.functions|
    requires ValuesTyped(arguments, p.functions[f].parameterTypes) && k >= |p.functions|
    ensures RunsAs(p, f, RunCall(p, f, arguments, 0, MachineState(budget, 0, [], [])),
                   EvalFunction(p.canonicalAst, f, arguments, [], k), budget)
  {
    StructureIsWellFormed(p);
    var rank: seq<nat> :| WellFormed(p, rank);
    RunOutcome(p, rank, f, arguments, budget, k);
    RunOutcome(p, rank, f, arguments, StaticCost(p, f), k);
    ExactFuel(p, f, arguments, budget);
    ExactFuel(p, f, arguments, StaticCost(p, f));
    OutcomeDecides(p, f, arguments, budget, EvalFunction(p.canonicalAst, f, arguments, [], k));
  }

  /** A run within its budget ends as the evaluation does; the evaluation is never stuck. */
  lemma OutcomeDecides(p: BytecodeProgram, f: nat, arguments: seq<Value>, budget: nat, o: Outcome<Value>)
    requires f < |p.functions| && FuelIsExact(p, f, arguments, budget) && FuelIsExact(p, f, arguments, StaticCost(p, f))
    requires EndsAs(p.schema, RunCall(p, f, arguments, 0, MachineState(budget, 0, [], [])), o)
    requires EndsAs(p.schema, RunCall(p, f, arguments, 0, MachineState(StaticCost(p, f), 0, [], [])), o)
    ensures RunsAs(p, f, RunCall(p, f, arguments, 0, MachineState(budget, 0, [], [])), o, budget)
  {
    hide RunCall, StaticCost;
  }

  // ---------- executing a compiled source program ----------

  // What executing an artifact from its entry point gives: a receipt or a refusal.
  datatype Execution =
    | Completed(result: Value, events: seq<Event>, instructions: nat)
    | Refused(error: VmError)
    | NoBudget

  ghost function Execute(p: BytecodeProgram, budget: nat): Execution {
    if budget == 0 then NoBudget
    else
      match RunCall(p, p.entryFunction, [], 0, MachineState(budget, 0, [], []))
      case Returned(v, m) => Completed(v, EventsOf(m.requests), m.executed)
      case Failed(e, _) => Refused(e)
      case Running(_, _) => NoBudget
  }

  /** What execution reports, in terms of the evaluation o of the entry function. */
  ghost predicate ExecutesAs(p: BytecodeProgram, x: Execution, o: Outcome<Value>, budget: nat) {
    var cost := StaticCost(p, p.entryFunction);
    match o
    case Finished(v, log) =>
      x == (if budget == 0 then NoBudget else if budget >= cost then Completed(v, log, cost) else Refused(BudgetExhausted))
    case Stopped(stop) =>
      && ErrorOf(stop).Some?
      && (x == (if budget == 0 then NoBudget else Refused(ErrorOf(stop).value))
          || (0 < budget < cost && x == Refused(BudgetExhausted)))
  }

  lemma ArtifactsExecute(p: BytecodeProgram, budget: nat, k: nat)
    requires ArtifactOk(p) && k >= |p.functions|
    ensures p.entryFunction < |p.canonicalAst.functions| == |p.functions|
    ensures ExecutesAs(p, Execute(p, budget), EvalFunction(p.canonicalAst, p.entryFunction, [], [], k), budget)
  {
    CompiledEntry(p.canonicalAst, p);
    assert FunctionOk(p, p.functions[p.entryFunction]);
    ArtifactsRunAsTheirTree(p, p.entryFunction, [], budget, k);
  }

  /** From source to receipt: a checked program that can be encoded executes as its canonical tree evaluates. */
  lemma CheckedProgramsExecute(p: Program, budget: nat, k: nat)
    requires CheckAccepts(p) && Named(p) && k >= |p.functions|
    requires CompileProgram(p).Some? && Encoding.ArtifactEncodes(CompileProgram(p).value)
    ensures var code, ast := CompileProgram(p).value, Canonical(p);
            var main := code.entryFunction;
            && main < |ast.functions| && ast.functions[main].name == "main"
            && ExecutesAs(code, Execute(code, budget), EvalFunction(ast, main, [], [], k), budget)
  {
    CheckedProgramsVerify(p);
    var code, ast := CompileProgram(p).value, Canonical(p);
    CanonicalKeepsCount(p);
    CompiledEntry(ast, code);
    CompiledName(ast, code, code.entryFunction);
    ArtifactsExecute(code, budget, k);
  }

  lemma CanonicalKeepsCount(p: Program)
    requires CheckAccepts(p)
    ensures |Canonical(p).functions| == |p.functions|
  {
    NoErrors(p);
    NamesNormalize(p);
  }
}
