// The structural verifier accepts the code of an error-free tree exactly when
// the code is within the numeric limits.
module CheckedStructure {
  import opened Prelude
  import opened CallGraph
  import opened Ast
  import opened CheckRules
  import opened Bytecode
  import opened Semantics
  import opened Verifier
  import opened Compiler
  import opened Artifact
  import opened Acceptance
  import opened CheckedPrograms

  // ---------- declarations ----------

  lemma {:induction false} ParameterLabelsValid(parameters: seq<Parameter>)
    requires ParameterLabels(parameters).Some?
    requires forall q :: q in parameters ==> InformationPresence(true, q.information)
    ensures forall l :: l in ParameterLabels(parameters).value ==> LabelOk(l)
  {
    if parameters != [] {
      ParameterLabelsValid(parameters[1..]);
    }
  }

  lemma {:induction false} LetLabelsValid(linear: bool, body: seq<Statement<string>>)
    requires LetLabels(body).Some?
    requires forall k :: 0 <= k < |body| ==> StatementShape(linear, true, body[k])
    ensures forall l :: l in LetLabels(body).value ==> LabelOk(l)
  {
    if body != [] {
      forall k | 0 <= k < |body[1..]| ensures StatementShape(linear, true, body[1..][k]) {
        assert body[1..][k] == body[k + 1];
      }
      LetLabelsValid(linear, body[1..]);
      assert StatementShape(linear, true, body[0]);
    }
  }

  lemma CompiledSurrounds(ast: CanonicalProgram, p: BytecodeProgram)
    requires CompileCanonical(ast) == Some(p)
    ensures Surrounds(p, ast) && p.schema == ast.schema
  {
    forall i | 0 <= i < |p.functions| ensures HeaderAt(p, ast, i) {
      CompiledAt(ast, p, i);
    }
  }

  lemma CompiledAt(ast: CanonicalProgram, p: BytecodeProgram, i: nat)
    requires CompileCanonical(ast) == Some(p) && i < |p.functions|
    ensures i < |ast.functions|
    ensures CompileFunction(ast.functions[i], FunctionIndexes(ast.functions)) == Some(p.functions[i])
  {
  }

  lemma DeclaredAuthorities(p: BytecodeProgram, ast: CanonicalProgram, q: Program, i: nat)
    requires Source(ast, q) && ErrorFree(q) && Surrounds(p, ast) && i < |p.functions|
    requires FunctionShape(ast.schema.IsLinear(), ast.schema.IsInformationFlow(), ast.functions[i])
    ensures IsIdentifier(p.functions[i].name) && SortedEffects(p.functions[i].effects)
    ensures AuthoritiesOk(ast.schema.IsLinear(), p.functions[i])
  {
    var f := q.functions[i];
    assert Mirrors(f, ast.functions[i]) && HeaderAt(p, ast, i);
    FunctionErrorFree(q, i);
    Tables(p, ast, q, i);
    UndeclaredZero(DeclaredSlots(LinearProfile(q), f), EffectSet(f.effects));
  }

  lemma DeclaredInformation(p: BytecodeProgram, ast: CanonicalProgram, q: Program, i: nat)
    requires Source(ast, q) && ErrorFree(q) && Surrounds(p, ast) && i < |p.functions|
    requires FunctionShape(ast.schema.IsLinear(), ast.schema.IsInformationFlow(), ast.functions[i])
    ensures InformationOk(q.informationFlow, p.functions[i])
  {
    var f, g := q.functions[i], ast.functions[i];
    assert Mirrors(f, g) && HeaderAt(p, ast, i);
    FunctionErrorFree(q, i);
    if q.informationFlow {
      ParameterLabelsKnown(true, f.parameters);
      LetLabelsKnown(true, f.body);
      ParameterLabelsValid(f.parameters);
      LetLabelsValid(ast.schema.IsLinear(), g.body);
    }
  }

  lemma DeclaredFrame(p: BytecodeProgram, ast: CanonicalProgram, q: Program, i: nat)
    requires Source(ast, q) && ErrorFree(q) && Surrounds(p, ast) && i < |p.functions|
    ensures var fn := p.functions[i];
            FrameOk(fn) <==> fn.localCount <= MAX_LOCALS_PER_FUNCTION && 1 <= |fn.instructions| <= MAX_INSTRUCTIONS_PER_FUNCTION
  {
    var f := q.functions[i];
    assert Mirrors(f, ast.functions[i]) && HeaderAt(p, ast, i);
    FunctionErrorFree(q, i);
    Tables(p, ast, q, i);
    NoUnitParameters(f.parameters);
    LocalsAreDistinct(ast, q, i);
  }

  /** The verifier accepts a compiled function exactly when it is within the limits. */
  lemma FunctionAccepted(p: BytecodeProgram, ast: CanonicalProgram, q: Program, i: nat)
    requires Source(ast, q) && ErrorFree(q) && CompileCanonical(ast) == Some(p) && i < |p.functions|
    requires FunctionShape(ast.schema.IsLinear(), ast.schema.IsInformationFlow(), ast.functions[i])
    ensures var fn := p.functions[i];
            FunctionOk(p, fn) <==>
            && fn.localCount <= MAX_LOCALS_PER_FUNCTION
            && |fn.instructions| <= MAX_INSTRUCTIONS_PER_FUNCTION
            && BodyNeed(ast.functions[i].body) <= MAX_STACK_DEPTH
  {
    CompiledSurrounds(ast, p);
    DeclaredAuthorities(p, ast, q, i);
    DeclaredInformation(p, ast, q, i);
    DeclaredFrame(p, ast, q, i);
    CompiledAt(ast, p, i);
    BodyVerified(p, ast, q, i);
  }

  lemma BodyVerified(p: BytecodeProgram, ast: CanonicalProgram, q: Program, i: nat)
    requires Source(ast, q) && ErrorFree(q) && Surrounds(p, ast) && i < |p.functions|
    requires CompileFunction(ast.functions[i], FunctionIndexes(ast.functions)) == Some(p.functions[i])
    requires FunctionShape(ast.schema.IsLinear(), ast.schema.IsInformationFlow(), ast.functions[i])
    ensures TablesFit(p.functions[i]) && 1 <= |p.functions[i].instructions|
    ensures VerifyBody(p, p.functions[i]).Some? <==> BodyNeed(ast.functions[i].body) <= MAX_STACK_DEPTH
  {
    var f := q.functions[i];
    assert Mirrors(f, ast.functions[i]);
    ShapedIsNamed(ast, q, i);
    FunctionBodyAccepted(p, ast, q, i);
    FunctionErrorFree(q, i);
    Tables(p, ast, q, i);
  }

  // ---------- the call graph ----------

  predicate CalleeAt(names: seq<string>, indexes: map<string, nat>, t: nat) {
    exists k :: 0 <= k < |names| && names[k] in indexes && indexes[names[k]] == t
  }

  lemma CalleeAppend(a: seq<string>, b: seq<string>, indexes: map<string, nat>, t: nat)
    ensures CalleeAt(a, indexes, t) || CalleeAt(b, indexes, t) ==> CalleeAt(a + b, indexes, t)
  {
    if CalleeAt(a, indexes, t) {
      var k :| 0 <= k < |a| && a[k] in indexes && indexes[a[k]] == t;
      assert (a + b)[k] == a[k];
    }
    if CalleeAt(b, indexes, t) {
      var k :| 0 <= k < |b| && b[k] in indexes && indexes[b[k]] == t;
      assert (a + b)[|a| + k] == b[k];
    }
  }

  lemma {:induction false} ExpressionTargets(sigs: Signatures, e: Expression<i64>, slots: Slots, indexes: map<string, nat>, t: nat)
    requires sigs.Keys == indexes.Keys && Emit(CanonicalExpression(e), slots, indexes).Some?
    requires t in Targets(Emit(CanonicalExpression(e), slots, indexes).value)
    ensures CalleeAt(CalleesOf(sigs, e), indexes, t)
    decreases e, 1
  {
    match e
    case Unary(op, operand) =>
      TargetsAppend(Emit(CanonicalExpression(operand), slots, indexes).value, [UnaryInstruction(op)]);
      ExpressionTargets(sigs, operand, slots, indexes, t);
    case Binary(op, left, right) =>
      var c1, c2 := Emit(CanonicalExpression(left), slots, indexes).value, Emit(CanonicalExpression(right), slots, indexes).value;
      TargetsAppend(c1 + c2, [BinaryInstruction(op)]);
      TargetsAppend(c1, c2);
      if t in Targets(c1) {
        ExpressionTargets(sigs, left, slots, indexes, t);
      } else {
        ExpressionTargets(sigs, right, slots, indexes, t);
      }
      CalleeAppend(CalleesOf(sigs, left), CalleesOf(sigs, right), indexes, t);
    case Call(callee, arguments) =>
      var c := EmitAll(CanonicalExpressions(arguments), slots, indexes).value;
      TargetsAppend(c, [Invoke(indexes[callee], |arguments|)]);
      if t in Targets(c) {
        ExpressionsTargets(sigs, arguments, slots, indexes, t);
      } else {
        assert t == indexes[callee];
        assert [callee][0] in indexes;
        assert CalleeAt([callee], indexes, t);
      }
      CalleeAppend([callee], CalleesOfAll(sigs, arguments), indexes, t);
    case _ =>
  }

  lemma {:induction false} ExpressionsTargets(sigs: Signatures, es: seq<Expression<i64>>, slots: Slots, indexes: map<string, nat>, t: nat)
    requires sigs.Keys == indexes.Keys && EmitAll(CanonicalExpressions(es), slots, indexes).Some?
    requires t in Targets(EmitAll(CanonicalExpressions(es), slots, indexes).value)
    ensures CalleeAt(CalleesOfAll(sigs, es), indexes, t)
    decreases es, 0
  {
    if es != [] {
      var canonical := CanonicalExpressions(es);
      assert canonical[1..] == CanonicalExpressions(es[1..]);
      var c1, c2 := Emit(canonical[0], slots, indexes).value, EmitAll(canonical[1..], slots, indexes).value;
      TargetsAppend(c1, c2);
      if t in Targets(c1) {
        ExpressionTargets(sigs, es[0], slots, indexes, t);
      } else {
        ExpressionsTargets(sigs, es[1..], slots, indexes, t);
      }
      CalleeAppend(CalleesOf(sigs, es[0]), CalleesOfAll(sigs, es[1..]), indexes, t);
    }
  }

  lemma StatementTargets(sigs: Signatures, s: Statement<i64>, slots: Slots, indexes: map<string, nat>, t: nat)
    requires sigs.Keys == indexes.Keys && EmitStatement(CanonicalStatement(s), slots, indexes).Some?
    requires t in Targets(EmitStatement(CanonicalStatement(s), slots, indexes).value)
    ensures CalleeAt(CalleesOfStatement(sigs, s), indexes, t)
  {
    match s
    case LetStatement(_, _, _, e) =>
      TargetsAppend(Emit(CanonicalExpression(e), slots, indexes).value, [StoreLocal(|slots|)]);
      ExpressionTargets(sigs, e, slots, indexes, t);
    case ReturnStatement(Some(e)) =>
      TargetsAppend(Emit(CanonicalExpression(e), slots, indexes).value, [Return]);
      ExpressionTargets(sigs, e, slots, indexes, t);
    case RequestStatement(effect, authority, information, arguments) =>
      TargetsAppend(EmitAll(CanonicalExpressions(arguments), slots, indexes).value,
                    [Request(effect, authority, information, |arguments|)]);
      ExpressionsTargets(sigs, arguments, slots, indexes, t);
    case ExpressionStatement(e) =>
      TargetsAppend(Emit(CanonicalExpression(e), slots, indexes).value, [Pop]);
      ExpressionTargets(sigs, e, slots, indexes, t);
    case ReturnStatement(None) =>
  }

  lemma {:induction false} BodyTargets(sigs: Signatures, body: seq<Statement<i64>>, slots: Slots, indexes: map<string, nat>, t: nat)
    requires sigs.Keys == indexes.Keys && EmitBody(CanonicalBody(body), slots, indexes).Some?
    requires t in Targets(EmitBody(CanonicalBody(body), slots, indexes).value)
    ensures CalleeAt(CalleesOfBody(sigs, body), indexes, t)
  {
    if body != [] {
      BodySplits(body, slots, indexes);
      var s := CanonicalStatement(body[0]);
      var c1, c2 := EmitStatement(s, slots, indexes).value, EmitBody(CanonicalBody(body[1..]), SlotsAfter(s, slots), indexes).value;
      TargetsAppend(c1, c2);
      if t in Targets(c1) {
        StatementTargets(sigs, body[0], slots, indexes, t);
      } else {
        BodyTargets(sigs, body[1..], SlotsAfter(s, slots), indexes, t);
      }
      CalleeAppend(CalleesOfStatement(sigs, body[0]), CalleesOfBody(sigs, body[1..]), indexes, t);
    }
  }

  lemma {:induction false} CallsLookup(sigs: Signatures, functions: seq<Function<i64>>, i: nat)
    requires i < |functions| && Distinct(FunctionNames(functions))
    ensures functions[i].name in CallsByName(sigs, functions)
    ensures CallsByName(sigs, functions)[functions[i].name] == CalleesOfBody(sigs, functions[i].body)
  {
    var n := |functions| - 1;
    if i < n {
      DistinctPrefix(functions, n);
      CallsLookup(sigs, functions[..n], i);
      assert FunctionNames(functions)[i] != FunctionNames(functions)[n];
    }
  }

  lemma KeysAgree(ast: CanonicalProgram, q: Program)
    requires Source(ast, q) && Distinct(FunctionNames(q.functions))
    ensures SignaturesOf(q.functions).Keys == FunctionIndexes(ast.functions).Keys
  {
    NamesMirror(ast, q);
    var sigs, indexes := SignaturesOf(q.functions), FunctionIndexes(ast.functions);
    forall name | name in sigs ensures name in indexes {
      SignatureNames(q.functions, name);
      var j :| 0 <= j < |q.functions| && q.functions[j].name == name;
      assert Mirrors(q.functions[j], ast.functions[j]);
      IndexLookup(ast.functions, j);
    }
    forall name | name in indexes ensures name in sigs {
      var j := indexes[name];
      assert Mirrors(q.functions[j], ast.functions[j]);
      SignatureLookup(q.functions, j);
    }
  }

  /** A call instruction comes from a call by name. */
  lemma EdgeByName(p: BytecodeProgram, ast: CanonicalProgram, q: Program, i: nat, t: nat)
    requires Source(ast, q) && ErrorFree(q) && CompileCanonical(ast) == Some(p)
    requires Edge(AsGraph(GraphOf(p.functions)), i, t)
    ensures i < |q.functions| && t < |q.functions|
    ensures Edge(CallsByName(SignaturesOf(q.functions), q.functions), q.functions[i].name, q.functions[t].name)
  {
    CompiledAt(ast, p, i);
    var sigs, indexes, f := SignaturesOf(q.functions), FunctionIndexes(ast.functions), q.functions[i];
    assert Mirrors(f, ast.functions[i]);
    KeysAgree(ast, q);
    BodyTargets(sigs, f.body, ParameterSlots(f.parameters), indexes, t);
    var names := CalleesOfBody(sigs, f.body);
    var k :| 0 <= k < |names| && names[k] in indexes && indexes[names[k]] == t;
    assert Mirrors(q.functions[t], ast.functions[t]);
    CallsLookup(sigs, q.functions, i);
  }

  function NameAt(q: Program, i: nat): string {
    if i < |q.functions| then q.functions[i].name else ""
  }

  function NamesAlong(q: Program, path: seq<nat>): (named: seq<string>)
    ensures |named| == |path|
    ensures forall k :: 0 <= k < |path| ==> named[k] == NameAt(q, path[k])
  {
    seq(|path|, k requires 0 <= k < |path| => NameAt(q, path[k]))
  }

  lemma CycleByName(p: BytecodeProgram, ast: CanonicalProgram, q: Program, path: seq<nat>)
    requires Source(ast, q) && ErrorFree(q) && CompileCanonical(ast) == Some(p)
    requires IsCycle(AsGraph(GraphOf(p.functions)), path)
    ensures IsCycle(CallsByName(SignaturesOf(q.functions), q.functions), NamesAlong(q, path))
  {
    var named := NamesAlong(q, path);
    forall k | 0 <= k < |named| - 1
      ensures Edge(CallsByName(SignaturesOf(q.functions), q.functions), named[k], named[k + 1])
    {
      EdgeByName(p, ast, q, path[k], path[k + 1]);
    }
  }

  /** Without a cycle of names there is no cycle of call instructions. */
  lemma AcyclicTransfers(p: BytecodeProgram, ast: CanonicalProgram, q: Program)
    requires Source(ast, q) && ErrorFree(q) && CompileCanonical(ast) == Some(p)
    requires Acyclic(CallsByName(SignaturesOf(q.functions), q.functions))
    ensures Acyclic(AsGraph(GraphOf(p.functions)))
  {
    forall path: seq<nat> ensures !IsCycle(AsGraph(GraphOf(p.functions)), path) {
      if IsCycle(AsGraph(GraphOf(p.functions)), path) {
        CycleByName(p, ast, q, path);
      }
    }
  }

  // ---------- the verdict ----------

  lemma CompiledName(ast: CanonicalProgram, p: BytecodeProgram, i: nat)
    requires CompileCanonical(ast) == Some(p) && i < |p.functions|
    ensures i < |ast.functions| && p.functions[i].name == ast.functions[i].name
    ensures p.functions[i].parameterCount == |ast.functions[i].parameters|
  {
    CompiledAt(ast, p, i);
  }

  lemma CompiledEntry(ast: CanonicalProgram, p: BytecodeProgram)
    requires CompileCanonical(ast) == Some(p)
    ensures "main" in FunctionIndexes(ast.functions)
    ensures p.entryFunction == FunctionIndexes(ast.functions)["main"] && |p.functions| == |ast.functions|
  {
  }

  lemma NamesStayDistinct(p: BytecodeProgram, ast: CanonicalProgram)
    requires CompileCanonical(ast) == Some(p) && Distinct(FunctionNames(ast.functions))
    ensures DistinctNames(p.functions)
  {
    forall i, j | 0 <= i < j < |p.functions| ensures p.functions[i].name != p.functions[j].name {
      CompiledName(ast, p, i);
      CompiledName(ast, p, j);
      assert FunctionNames(ast.functions)[i] != FunctionNames(ast.functions)[j];
    }
  }

  lemma EntryIsMain(p: BytecodeProgram, ast: CanonicalProgram, q: Program)
    requires Source(ast, q) && ErrorFree(q) && CompileCanonical(ast) == Some(p)
    ensures 1 <= |p.functions| <= MAX_FUNCTIONS && EntryOk(p) && DistinctNames(p.functions)
  {
    CompiledEntry(ast, p);
    MainIsKnown(ast, q);
    NamesMirror(ast, q);
    NamesStayDistinct(p, ast);
    CompiledName(ast, p, p.entryFunction);
  }

  ghost predicate AllFunctionsOk(p: BytecodeProgram) {
    forall i :: 0 <= i < |p.functions| ==> FunctionOk(p, p.functions[i])
  }

  ghost predicate AllFunctionsWithin(p: BytecodeProgram) {
    forall i :: 0 <= i < |p.functions| ==> FunctionWithin(p, i)
  }

  lemma FunctionIffLimits(p: BytecodeProgram, ast: CanonicalProgram, q: Program, i: nat)
    requires Source(ast, q) && ErrorFree(q) && CanonicalShapeOk(ast) && CompileCanonical(ast) == Some(p)
    requires i < |p.functions|
    ensures FunctionOk(p, p.functions[i]) <==> FunctionWithin(p, i)
  {
    CompiledAt(ast, p, i);
    assert FunctionShape(ast.schema.IsLinear(), ast.schema.IsInformationFlow(), ast.functions[i]);
    FunctionAccepted(p, ast, q, i);
  }

  lemma FunctionsIffLimits(p: BytecodeProgram, ast: CanonicalProgram, q: Program)
    requires Source(ast, q) && ErrorFree(q) && CanonicalShapeOk(ast) && CompileCanonical(ast) == Some(p)
    ensures AllFunctionsOk(p) <==> AllFunctionsWithin(p)
  {
    forall i | 0 <= i < |p.functions| ensures FunctionOk(p, p.functions[i]) <==> FunctionWithin(p, i) {
      FunctionIffLimits(p, ast, q, i);
    }
  }

  lemma StructureParts(p: BytecodeProgram)
    requires 1 <= |p.functions| <= MAX_FUNCTIONS && EntryOk(p) && DistinctNames(p.functions)
    requires Acyclic(AsGraph(GraphOf(p.functions)))
    ensures StructureOk(p) <==> AllFunctionsOk(p) && TotalInstructions(p.functions) <= MAX_TOTAL_INSTRUCTIONS
  {
  }

  /** A tree without diagnostics yields bytecode the verifier accepts exactly within the limits. */
  lemma StructureIffLimits(p: BytecodeProgram, ast: CanonicalProgram, q: Program)
    requires Source(ast, q) && CheckAccepts(q) && CanonicalShapeOk(ast) && CompileCanonical(ast) == Some(p)
    ensures StructureOk(p) <==> WithinLimits(p)
  {
    NoErrors(q);
    EntryIsMain(p, ast, q);
    AcyclicTransfers(p, ast, q);
    FunctionsIffLimits(p, ast, q);
    StructureParts(p);
  }
}
