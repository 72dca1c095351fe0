// Whole programs: a canonical tree that passes the static rules compiles, and
// the structural verifier accepts the result exactly when it is within the
// numeric limits.
module CheckedPrograms {
  import opened Prelude
  import opened Ast
  import opened CheckRules
  import opened Bytecode
  import opened Semantics
  import opened Verifier
  import opened Compiler
  import opened Correctness
  import opened Artifact
  import opened Acceptance

  // ---------- a tree and the program it stands for ----------

  predicate Mirrors(f: Function<i64>, g: Function<string>) {
    g == Function(f.name, f.parameters, f.returnType, f.returnInformation, f.effects, f.authorities, CanonicalBody(f.body))
  }

  /** The tree is the program, function by function, with integer literals spelled out. */
  predicate Source(ast: CanonicalProgram, q: Program) {
    && |ast.functions| == |q.functions|
    && (forall i {:trigger Mirrors(q.functions[i], ast.functions[i])} ::
          0 <= i < |q.functions| ==> Mirrors(q.functions[i], ast.functions[i]))
    && q.informationFlow == ast.schema.IsInformationFlow()
    && q.moduleName == ast.moduleName
    && LinearProfile(q) == ast.schema.IsLinear()
  }

  // ---------- what no diagnostics means ----------

  lemma {:induction false} RepeatsZero(names: seq<string>)
    ensures Repeats(names) == 0 <==> Distinct(names)
  {
    if names != [] {
      var n := |names| - 1;
      RepeatsZero(names[..n]);
      if Distinct(names[..n]) && names[n] !in names[..n] {
        forall i, j | 0 <= i < j < |names| ensures names[i] != names[j] {
          assert names[..n][i] == names[i];
        }
      }
    }
  }

  predicate DeclarationFree(q: Program, i: nat)
    requires i < |q.functions|
  {
    && InformationShape(q.informationFlow, q.functions[i]) == 0
    && |q.functions[i].parameters| <= CHECK_MAX_PARAMETERS
    && Repeats(q.functions[i].effects) == 0
    && CheckFunction(SignaturesOf(q.functions), q.informationFlow, LinearProfile(q), q.functions[i]) == 0
  }

  lemma {:induction false} DeclarationErrorsZero(flow: bool, functions: seq<Function<i64>>)
    ensures DeclarationErrors(flow, functions) == 0 <==>
            forall i :: 0 <= i < |functions| ==>
                          InformationShape(flow, functions[i]) == 0 && |functions[i].parameters| <= CHECK_MAX_PARAMETERS
                          && Repeats(functions[i].effects) == 0
  {
    if functions != [] {
      DeclarationErrorsZero(flow, functions[..|functions| - 1]);
    }
  }

  lemma {:induction false} BodyErrorsZero(sigs: Signatures, flow: bool, linear: bool, functions: seq<Function<i64>>)
    ensures BodyErrors(sigs, flow, linear, functions) == 0 <==>
            forall i :: 0 <= i < |functions| ==> CheckFunction(sigs, flow, linear, functions[i]) == 0
  {
    if functions != [] {
      BodyErrorsZero(sigs, flow, linear, functions[..|functions| - 1]);
    }
  }

  ghost predicate DeclarationsFree(q: Program) {
    forall i {:trigger DeclarationFree(q, i)} :: 0 <= i < |q.functions| ==> DeclarationFree(q, i)
  }

  lemma DeclarationsZero(q: Program)
    ensures DeclarationsFree(q) <==>
            && DeclarationErrors(q.informationFlow, q.functions) == 0
            && BodyErrors(SignaturesOf(q.functions), q.informationFlow, LinearProfile(q), q.functions) == 0
  {
    DeclarationErrorsZero(q.informationFlow, q.functions);
    BodyErrorsZero(SignaturesOf(q.functions), q.informationFlow, LinearProfile(q), q.functions);
    var sigs := SignaturesOf(q.functions);
    if DeclarationsFree(q) {
      forall i | 0 <= i < |q.functions|
        ensures InformationShape(q.informationFlow, q.functions[i]) == 0
        ensures |q.functions[i].parameters| <= CHECK_MAX_PARAMETERS && Repeats(q.functions[i].effects) == 0
        ensures CheckFunction(sigs, q.informationFlow, LinearProfile(q), q.functions[i]) == 0
      {
        assert DeclarationFree(q, i);
      }
    }
  }

  /** No diagnostics, spelled out function by function. */
  ghost predicate ErrorFree(q: Program) {
    && |q.functions| <= CHECK_MAX_FUNCTIONS
    && Distinct(FunctionNames(q.functions))
    && StatementCount(q.functions) <= CHECK_MAX_STATEMENTS
    && EntryErrors(SignaturesOf(q.functions)) == 0
    && DeclarationsFree(q)
  }

  lemma NoErrors(q: Program)
    ensures StaticErrors(q) == 0 <==> ErrorFree(q)
  {
    RepeatsZero(FunctionNames(q.functions));
    DeclarationsZero(q);
  }

  // ---------- looking functions up by name ----------

  lemma {:induction false} SignatureLookup(functions: seq<Function<i64>>, i: nat)
    requires i < |functions| && Distinct(FunctionNames(functions))
    ensures functions[i].name in SignaturesOf(functions)
    ensures SignaturesOf(functions)[functions[i].name] == SignatureOf(functions[i])
  {
    var n := |functions| - 1;
    if i < n {
      DistinctPrefix(functions, n);
      SignatureLookup(functions[..n], i);
      assert FunctionNames(functions)[i] != FunctionNames(functions)[n];
    }
  }

  lemma DistinctPrefix<N>(functions: seq<Function<N>>, n: nat)
    requires Distinct(FunctionNames(functions)) && n <= |functions|
    ensures Distinct(FunctionNames(functions[..n]))
  {
    assert FunctionNames(functions[..n]) == FunctionNames(functions)[..n];
  }

  lemma {:induction false} SignatureNames(functions: seq<Function<i64>>, name: string)
    requires name in SignaturesOf(functions)
    ensures exists i :: 0 <= i < |functions| && functions[i].name == name
  {
    var n := |functions| - 1;
    if functions[n].name != name {
      SignatureNames(functions[..n], name);
      var i :| 0 <= i < n && functions[..n][i].name == name;
      assert functions[i].name == name;
    }
  }

  lemma {:induction false} IndexLookup<N>(functions: seq<Function<N>>, i: nat)
    requires i < |functions| && Distinct(FunctionNames(functions))
    ensures functions[i].name in FunctionIndexes(functions) && FunctionIndexes(functions)[functions[i].name] == i
  {
    var n := |functions| - 1;
    if i < n {
      DistinctPrefix(functions, n);
      IndexLookup(functions[..n], i);
      assert FunctionNames(functions)[i] != FunctionNames(functions)[n];
    }
  }

  // ---------- frame tables ----------

  lemma {:induction false} ParameterLabelsKnown(flow: bool, parameters: seq<Parameter>)
    requires ParameterShape(flow, parameters) == 0
    ensures forall i :: 0 <= i < |parameters| ==> parameters[i].information.Some? == flow
    ensures flow ==>
              && ParameterLabels(parameters).Some? && |ParameterLabels(parameters).value| == |parameters|
              && forall i :: 0 <= i < |parameters| ==> ParameterLabels(parameters).value[i] == LabelOr(parameters[i].information)
  {
    if parameters != [] {
      ParameterLabelsKnown(flow, parameters[1..]);
      assert forall i :: 0 < i < |parameters| ==> parameters[i] == parameters[1..][i - 1];
    }
  }

  lemma {:induction false} LetLabelsKnown(flow: bool, body: seq<Statement<i64>>)
    requires BodyShape(flow, body) == 0 && flow
    ensures LetLabels(CanonicalBody(body)).Some?
    ensures |LetLabels(CanonicalBody(body)).value| == |LetTypes(CanonicalBody(body))|
  {
    if body != [] {
      LetLabelsKnown(flow, body[1..]);
      assert CanonicalBody(body)[1..] == CanonicalBody(body[1..]);
    }
  }

  lemma HeaderKnown(q: Program, f: Function<i64>, g: Function<string>)
    requires InformationShape(q.informationFlow, f) == 0 && Mirrors(f, g)
    ensures Header(g).Some? && TablesFit(Header(g).value)
    ensures Header(g).value.localInformation.Some? == q.informationFlow
    ensures SignatureMatches(q.informationFlow, SignatureOf(f), Header(g).value)
  {
    ParameterLabelsKnown(q.informationFlow, f.parameters);
    if q.informationFlow {
      LetLabelsKnown(true, f.body);
    }
  }

  // ---------- entering a body ----------

  lemma {:induction false} ParametersStatic(w: World, parameters: seq<Parameter>)
    requires TablesFit(w.fn) && |parameters| <= w.fn.parameterCount && DistinctParameters(parameters)
    requires forall i :: 0 <= i < |parameters| ==>
                           && w.fn.localTypes[i] == parameters[i].valueType
                           && SlotLabel(w.fn, i) == LabelOr(parameters[i].information)
                           && (!w.flow ==> parameters[i].information.None?)
    ensures var locals, slots := ParameterLocals(parameters), ParameterSlots(parameters);
            && locals.Keys == slots.Keys && |slots| == |parameters| && Tight(slots)
            && forall x :: x in slots ==>
                             && w.fn.localTypes[slots[x]] == locals[x].ty
                             && SlotLabel(w.fn, slots[x]) == locals[x].information
                             && (!w.flow ==> locals[x].information.Public?)
  {
    if parameters != [] {
      var n := |parameters| - 1;
      ParametersStatic(w, parameters[..n]);
      if parameters[n].name in ParameterSlots(parameters[..n]) {
        ParameterSlotNames(parameters[..n], parameters[n].name);
      }
      ParameterAdded(w, parameters[n], n, ParameterLocals(parameters[..n]), ParameterSlots(parameters[..n]));
    }
  }

  predicate Described(w: World, locals: Locals, slots: Slots)
    requires TablesFit(w.fn)
  {
    forall x :: x in slots ==>
                  && x in locals && slots[x] < w.fn.localCount
                  && w.fn.localTypes[slots[x]] == locals[x].ty
                  && SlotLabel(w.fn, slots[x]) == locals[x].information
                  && (!w.flow ==> locals[x].information.Public?)
  }

  lemma ParameterAdded(w: World, p: Parameter, n: nat, locals: Locals, slots: Slots)
    requires TablesFit(w.fn) && n < w.fn.localCount && p.name !in slots
    requires locals.Keys == slots.Keys && |slots| == n && Tight(slots) && Described(w, locals, slots)
    requires w.fn.localTypes[n] == p.valueType && SlotLabel(w.fn, n) == LabelOr(p.information)
    requires !w.flow ==> p.information.None?
    ensures var locals', slots' := locals[p.name := InfoOf(p)], slots[p.name := n];
            locals'.Keys == slots'.Keys && |slots'| == n + 1 && Tight(slots') && Described(w, locals', slots')
  {
  }

  lemma {:induction false} NoUnitParameters(parameters: seq<Parameter>)
    requires UnitParameters(parameters) == 0
    ensures forall i :: 0 <= i < |parameters| ==> parameters[i].valueType != Unit
  {
    if parameters != [] {
      NoUnitParameters(parameters[1..]);
      assert forall i :: 0 < i < |parameters| ==> parameters[i] == parameters[1..][i - 1];
    }
  }

  /** Lets of an error-free body have no unit type and never rebind a name. */
  lemma {:induction false} LetsKnown(scope: Scope, body: seq<Statement<i64>>, b: BodyState, slots: Slots)
    requires CheckStatements(scope, body, b).errors == 0 && b.locals.Keys == slots.Keys
    ensures Unit !in LetTypes(CanonicalBody(body)) && FreshBody(CanonicalBody(body), slots)
  {
    if body != [] {
      var s, b' := body[0], CheckStatement(scope, body[0], b);
      ErrorsGrow(scope, body[1..], b');
      assert CanonicalBody(body)[1..] == CanonicalBody(body[1..]);
      LetsKnown(scope, body[1..], b', SlotsAfter(CanonicalStatement(s), slots));
    }
  }

  lemma UndeclaredZero(items: seq<Authority>, effects: set<string>)
    requires UndeclaredEffects(items, effects) == 0
    ensures forall a :: a in items ==> a.effect in effects
  {
    if items != [] {
      UndeclaredZero(items[1..], effects);
    }
  }

  // ---------- one function ----------

  /** The compiled program around function i: headers of all functions, code that does not matter here. */
  ghost predicate Surrounds(p: BytecodeProgram, ast: CanonicalProgram) {
    && p.canonicalAst == ast
    && |p.functions| == |ast.functions|
    && forall i {:trigger HeaderAt(p, ast, i)} :: 0 <= i < |p.functions| ==> HeaderAt(p, ast, i)
  }

  predicate HeaderAt(p: BytecodeProgram, ast: CanonicalProgram, i: nat) {
    && i < |p.functions| && i < |ast.functions|
    && Header(ast.functions[i]).Some? && p.functions[i].(instructions := []) == Header(ast.functions[i]).value
  }

  function WorldAt(p: BytecodeProgram, ast: CanonicalProgram, q: Program, i: nat): World
    requires i < |p.functions| == |q.functions|
  {
    World(p, p.functions[i], SignaturesOf(q.functions), FunctionIndexes(ast.functions), q.informationFlow,
          EffectSet(q.functions[i].effects))
  }

  lemma NamesMirror(ast: CanonicalProgram, q: Program)
    requires Source(ast, q)
    ensures FunctionNames(ast.functions) == FunctionNames(q.functions)
  {
    forall i | 0 <= i < |q.functions| ensures FunctionNames(ast.functions)[i] == FunctionNames(q.functions)[i] {
      assert Mirrors(q.functions[i], ast.functions[i]);
    }
  }

  lemma WorldHolds(p: BytecodeProgram, ast: CanonicalProgram, q: Program, i: nat)
    requires Source(ast, q) && ErrorFree(q) && Surrounds(p, ast) && i < |p.functions|
    ensures WorldOk(WorldAt(p, ast, q, i))
  {
    var w := WorldAt(p, ast, q, i);
    NamesMirror(ast, q);
    forall name | name in w.sigs ensures KnownAt(w, name) {
      SignatureNames(q.functions, name);
      var j :| 0 <= j < |q.functions| && q.functions[j].name == name;
      SignatureLookup(q.functions, j);
      IndexLookup(ast.functions, j);
      assert Mirrors(q.functions[j], ast.functions[j]) && DeclarationFree(q, j);
      HeaderKnown(q, q.functions[j], ast.functions[j]);
      assert HeaderAt(p, ast, j);
      assert SignatureMatches(w.flow, w.sigs[name], p.functions[j]);
    }
    assert Mirrors(q.functions[i], ast.functions[i]) && DeclarationFree(q, i);
    HeaderKnown(q, q.functions[i], ast.functions[i]);
    assert HeaderAt(p, ast, i);
    assert p.functions[i].effects == q.functions[i].effects;
  }

  function BodyScope(q: Program, i: nat): Scope
    requires i < |q.functions|
  {
    ScopeOf(SignaturesOf(q.functions), q.informationFlow, LinearProfile(q), q.functions[i])
  }

  /** The parts of an error-free function. */
  lemma FunctionErrorFree(q: Program, i: nat)
    requires ErrorFree(q) && i < |q.functions|
    ensures var f, linear := q.functions[i], LinearProfile(q);
            var final := CheckStatements(BodyScope(q, i), f.body, InitialBody(linear, f));
            && InformationShape(q.informationFlow, f) == 0 && |f.parameters| <= MAX_PARAMETERS && Distinct(f.effects)
            && (linear ==> f.authorities.Some?)
            && Distinct(AuthorityNames(DeclaredSlots(linear, f)))
            && UndeclaredEffects(DeclaredSlots(linear, f), EffectSet(f.effects)) == 0
            && UnitParameters(f.parameters) == 0 && DistinctParameters(f.parameters)
            && final.errors == 0 && final.returned && (linear ==> final.available == {})
  {
    var f, linear := q.functions[i], LinearProfile(q);
    assert DeclarationFree(q, i);
    RepeatsZero(f.effects);
    RepeatsZero(AuthorityNames(DeclaredSlots(linear, f)));
    RepeatsZero(ParameterNames(f.parameters));
    forall j, k | 0 <= j < k < |f.parameters| ensures f.parameters[j].name != f.parameters[k].name {
      assert ParameterNames(f.parameters)[j] != ParameterNames(f.parameters)[k];
    }
  }

  /** The tables of a compiled function, in terms of its source. */
  lemma Tables(p: BytecodeProgram, ast: CanonicalProgram, q: Program, i: nat)
    requires Source(ast, q) && ErrorFree(q) && Surrounds(p, ast) && i < |p.functions|
    ensures var fn, f, lets := p.functions[i], q.functions[i], CanonicalBody(q.functions[i].body);
            && TablesFit(fn) && fn.parameterCount == |f.parameters|
            && fn.localTypes == ParameterTypes(f.parameters) + LetTypes(lets)
            && fn.returnType == f.returnType && fn.returnInformation == f.returnInformation
            && fn.authoritySlots == f.authorities && fn.effects == f.effects
            && fn.localInformation.Some? == q.informationFlow
            && (q.informationFlow ==>
                  && ParameterLabels(f.parameters).Some? && LetLabels(lets).Some?
                  && fn.localInformation.value == ParameterLabels(f.parameters).value + LetLabels(lets).value)
  {
    var f, g := q.functions[i], ast.functions[i];
    assert Mirrors(f, g) && HeaderAt(p, ast, i);
    FunctionErrorFree(q, i);
    HeaderKnown(q, f, g);
  }

  lemma EntersScope(p: BytecodeProgram, ast: CanonicalProgram, q: Program, i: nat)
    requires Source(ast, q) && ErrorFree(q) && Surrounds(p, ast) && i < |p.functions|
    ensures TablesFit(p.functions[i]) && ScopeMatches(WorldAt(p, ast, q, i), BodyScope(q, i))
  {
    FunctionErrorFree(q, i);
    Tables(p, ast, q, i);
  }

  lemma EntersParameters(p: BytecodeProgram, ast: CanonicalProgram, q: Program, i: nat)
    requires Source(ast, q) && ErrorFree(q) && Surrounds(p, ast) && i < |p.functions|
    ensures var w, f := WorldAt(p, ast, q, i), q.functions[i];
            && TablesFit(w.fn) && |ParameterSlots(f.parameters)| == |f.parameters|
            && BodyStatic(w, BodyScope(q, i), InitialBody(LinearProfile(q), f), ParameterSlots(f.parameters))
  {
    var w, f := WorldAt(p, ast, q, i), q.functions[i];
    FunctionErrorFree(q, i);
    Tables(p, ast, q, i);
    ParameterLabelsKnown(q.informationFlow, f.parameters);
    ParametersStatic(w, f.parameters);
  }

  lemma EntersTables(p: BytecodeProgram, ast: CanonicalProgram, q: Program, i: nat)
    requires Source(ast, q) && ErrorFree(q) && Surrounds(p, ast) && i < |p.functions|
    requires |ParameterSlots(q.functions[i].parameters)| == |q.functions[i].parameters|
    ensures TablesFit(p.functions[i])
    ensures TablesContinue(WorldAt(p, ast, q, i), ParameterSlots(q.functions[i].parameters), q.functions[i].body)
  {
    FunctionErrorFree(q, i);
    Tables(p, ast, q, i);
    ParameterLabelsKnown(q.informationFlow, q.functions[i].parameters);
  }

  lemma EntersBody(p: BytecodeProgram, ast: CanonicalProgram, q: Program, i: nat)
    requires Source(ast, q) && ErrorFree(q) && Surrounds(p, ast) && i < |p.functions|
    ensures var w, f := WorldAt(p, ast, q, i), q.functions[i];
            && TablesFit(w.fn)
            && BodyMatches(w, BodyScope(q, i), InitialBody(LinearProfile(q), f), ParameterSlots(f.parameters), InitialState(w.fn))
            && TablesContinue(w, ParameterSlots(f.parameters), f.body)
  {
    EntersParameters(p, ast, q, i);
    EntersTables(p, ast, q, i);
    Tables(p, ast, q, i);
  }

  /** The statements of a function carry the labels and slots of the profile, with identifiers for names. */
  predicate StatementsNamed(q: Program, i: nat)
    requires i < |q.functions|
  {
    forall k :: 0 <= k < |q.functions[i].body| ==>
                  StatementNamed(LinearProfile(q), q.informationFlow, q.functions[i].body[k])
  }

  lemma ShapedIsNamed(ast: CanonicalProgram, q: Program, i: nat)
    requires Source(ast, q) && i < |q.functions|
    requires FunctionShape(ast.schema.IsLinear(), ast.schema.IsInformationFlow(), ast.functions[i])
    ensures StatementsNamed(q, i)
  {
    var f, g := q.functions[i], ast.functions[i];
    assert Mirrors(f, g);
    forall k | 0 <= k < |f.body| ensures StatementNamed(LinearProfile(q), q.informationFlow, f.body[k]) {
      CanonicalBodyAt(f.body, k);
      assert StatementShape(ast.schema.IsLinear(), ast.schema.IsInformationFlow(), g.body[k]);
    }
  }

  lemma {:induction false} CanonicalBodyAt(body: seq<Statement<i64>>, k: nat)
    requires k < |body|
    ensures CanonicalBody(body)[k] == CanonicalStatement(body[k])
  {
    if k > 0 {
      CanonicalBodyAt(body[1..], k - 1);
    }
  }

  /** The body of an error-free function emits code that the abstract interpreter accepts within the stack limit. */
  lemma FunctionBodyAccepted(p: BytecodeProgram, ast: CanonicalProgram, q: Program, i: nat)
    requires Source(ast, q) && ErrorFree(q) && Surrounds(p, ast) && i < |p.functions|
    requires StatementsNamed(q, i)
    ensures var w, f := WorldAt(p, ast, q, i), q.functions[i];
            && TablesFit(w.fn)
            && BodyAccepted(w, BodyScope(q, i), f.body, InitialBody(LinearProfile(q), f), ParameterSlots(f.parameters),
                            InitialState(w.fn))
  {
    var w, scope, f := WorldAt(p, ast, q, i), BodyScope(q, i), q.functions[i];
    WorldHolds(p, ast, q, i);
    EntersScope(p, ast, q, i);
    EntersBody(p, ast, q, i);
    FunctionErrorFree(q, i);
    BodyRuns(w, scope, f.body, InitialBody(LinearProfile(q), f), ParameterSlots(f.parameters), InitialState(w.fn));
  }

  lemma LocalsAreDistinct(ast: CanonicalProgram, q: Program, i: nat)
    requires Source(ast, q) && ErrorFree(q) && i < |q.functions|
    ensures LocalsDistinct(ast.functions[i]) && Unit !in LetTypes(ast.functions[i].body)
  {
    var f, linear := q.functions[i], LinearProfile(q);
    assert Mirrors(f, ast.functions[i]);
    FunctionErrorFree(q, i);
    ParameterKeys(f.parameters);
    LetsKnown(BodyScope(q, i), f.body, InitialBody(linear, f), ParameterSlots(f.parameters));
  }

  lemma {:induction false} ParameterKeys(parameters: seq<Parameter>)
    ensures ParameterLocals(parameters).Keys == ParameterSlots(parameters).Keys
  {
    if parameters != [] {
      ParameterKeys(parameters[..|parameters| - 1]);
    }
  }

  // ---------- the whole program ----------

  /** All functions have headers, whatever their code. */
  function HeaderProgram(ast: CanonicalProgram): BytecodeProgram {
    var identity := IdentityOf(ast);
    var functions := seq(|ast.functions|, i requires 0 <= i < |ast.functions| =>
                           match Header(ast.functions[i])
                           case Some(h) => h
                           case None => BytecodeFunction("", 0, [], None, 0, [], None, Unit, None, [], None, []));
    BytecodeProgram(ast.schema, ast.moduleName, identity.digest, identity, ast, 0, functions)
  }

  lemma {:induction false} AllCompile(fs: seq<Function<string>>, indexes: map<string, nat>)
    requires forall i :: 0 <= i < |fs| ==> CompileFunction(fs[i], indexes).Some?
    ensures CompileFunctions(fs, indexes).Some?
  {
    if fs != [] {
      AllCompile(fs[1..], indexes);
    }
  }

  lemma HeadersSurround(ast: CanonicalProgram, q: Program)
    requires Source(ast, q) && ErrorFree(q)
    ensures Surrounds(HeaderProgram(ast), ast)
  {
    forall i | 0 <= i < |ast.functions| ensures HeaderAt(HeaderProgram(ast), ast, i) {
      assert Mirrors(q.functions[i], ast.functions[i]);
      FunctionErrorFree(q, i);
      HeaderKnown(q, q.functions[i], ast.functions[i]);
    }
  }

  lemma FunctionCompiles(ast: CanonicalProgram, q: Program, i: nat)
    requires Source(ast, q) && ErrorFree(q) && i < |ast.functions| && StatementsNamed(q, i)
    ensures CompileFunction(ast.functions[i], FunctionIndexes(ast.functions)).Some?
  {
    HeadersSurround(ast, q);
    BodyEmits(HeaderProgram(ast), ast, q, i);
    assert HeaderAt(HeaderProgram(ast), ast, i);
  }

  lemma BodyEmits(p: BytecodeProgram, ast: CanonicalProgram, q: Program, i: nat)
    requires Source(ast, q) && ErrorFree(q) && Surrounds(p, ast) && i < |p.functions| && StatementsNamed(q, i)
    ensures var g := ast.functions[i];
            EmitBody(g.body, ParameterSlots(g.parameters), FunctionIndexes(ast.functions)).Some?
  {
    FunctionBodyAccepted(p, ast, q, i);
    assert Mirrors(q.functions[i], ast.functions[i]);
  }

  /** A tree that passes the static rules compiles, however deep and however large it is. */
  lemma ErrorFreeCompiles(ast: CanonicalProgram, q: Program)
    requires Source(ast, q) && ErrorFree(q) && forall i :: 0 <= i < |q.functions| ==> StatementsNamed(q, i)
    ensures CompileCanonical(ast).Some?
  {
    forall i | 0 <= i < |ast.functions|
      ensures CompileFunction(ast.functions[i], FunctionIndexes(ast.functions)).Some?
    {
      FunctionCompiles(ast, q, i);
    }
    AllCompile(ast.functions, FunctionIndexes(ast.functions));
    MainIsKnown(ast, q);
  }

  lemma MainIsKnown(ast: CanonicalProgram, q: Program)
    requires Source(ast, q) && ErrorFree(q)
    ensures "main" in FunctionIndexes(ast.functions)
    ensures ast.functions[FunctionIndexes(ast.functions)["main"]].name == "main"
    ensures ast.functions[FunctionIndexes(ast.functions)["main"]].parameters == []
  {
    NamesMirror(ast, q);
    SignatureNames(q.functions, "main");
    var j :| 0 <= j < |q.functions| && q.functions[j].name == "main";
    SignatureLookup(q.functions, j);
    assert Mirrors(q.functions[j], ast.functions[j]);
    IndexLookup(ast.functions, j);
    assert |InfosOf(q.functions[j].parameters)| == 0;
  }

  predicate FunctionWithin(p: BytecodeProgram, i: nat) {
    && i < |p.functions| && i < |p.canonicalAst.functions|
    && p.functions[i].localCount <= MAX_LOCALS_PER_FUNCTION
    && |p.functions[i].instructions| <= MAX_INSTRUCTIONS_PER_FUNCTION
    && BodyNeed(p.canonicalAst.functions[i].body) <= MAX_STACK_DEPTH
  }

  /** The numeric limits of the structural verifier that static rules do not imply. */
  predicate WithinLimits(p: BytecodeProgram) {
    && (forall i :: 0 <= i < |p.functions| ==> FunctionWithin(p, i))
    && TotalInstructions(p.functions) <= MAX_TOTAL_INSTRUCTIONS
  }
}
