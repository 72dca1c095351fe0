// Artifacts on which the structural verifier breaks off instead of refusing: none
// that a compiler emits, but some that can be received.
module BrokenArtifacts {
  import opened Prelude
  import opened CallGraph
  import opened Ast
  import opened CheckRules
  import opened Bytecode
  import opened Verifier
  import opened Compiler
  import opened Artifact
  import opened CheckedStructure
  import opened Normalization
  import opened CanonicalShape
  import opened EncodingLimits
  import opened Pipeline
  import opened Encoding
  import opened EncodedText
  import J = CanonicalJson

  lemma CompiledFits(ast: CanonicalProgram, p: BytecodeProgram, k: nat)
    requires CompileCanonical(ast) == Some(p) && k < |p.functions|
    ensures p.functions[k].parameterCount <= p.functions[k].localCount
  {
    CompiledAt(ast, p, k);
  }

  /** The verifier never breaks off on what a compiler emits. */
  lemma CompiledNeverCrashes(ast: CanonicalProgram, p: BytecodeProgram)
    requires CompileCanonical(ast) == Some(p)
    ensures !ArtifactCrashes(p)
  {
    hide FunctionsOk, DeclarationStarts, TreeBound, EntryOk, CompileCanonical;
    forall k: nat ensures !CrashesAt(p, k) {
      if k < |p.functions| {
        CompiledFits(ast, p, k);
      }
    }
  }

  lemma AcceptedArtifactsDoNotCrash(p: BytecodeProgram)
    requires ArtifactOk(p)
    ensures !ArtifactCrashes(p)
  {
    CompiledNeverCrashes(p.canonicalAst, p);
  }

  /** Two parameters in a frame of one local, with label tables of just these lengths. */
  function Misfit(): BytecodeFunction {
    BytecodeFunction("a", 2, [I64, I64], Some([Public, Public]), 1, [I64], Some([Public]), Unit, Some(Public), [], Some([]),
                     [Push(UnitValue), Return])
  }

  /** The function table of an artifact replaced by the misfit and the entry function. */
  function Doctored(p: BytecodeProgram): BytecodeProgram
    requires EntryOk(p)
  {
    p.(functions := [Misfit(), p.functions[p.entryFunction]], entryFunction := 1)
  }

  /** Every artifact of the information-flow profile whose tree is in order has a doctored copy that breaks the verifier off. */
  lemma DoctoredArtifactsCrash(p: BytecodeProgram)
    requires TreeBound(p) && p.canonicalAst.schema.IsInformationFlow() && EntryOk(p)
    ensures ArtifactCrashes(Doctored(p))
  {
    hide CanonicalChecks, CanonicalShapeOk;
    var d := Doctored(p);
    MisfitStarts();
    assert d.functions[..0] == [];
    assert CrashesAt(d, 0);
  }

  lemma MisfitStarts()
    ensures IsIdentifier(Misfit().name) && SortedEffects(Misfit().effects) && AuthoritiesOk(true, Misfit())
  {
    assert Misfit().name == "a";
  }

  // ---------- one such artifact ----------

  function SmallestMain(): Function<i64> {
    Function("main", [], Unit, Some(Public), [], Some([]), [ReturnStatement(None)])
  }

  function SmallestFlowModule(): Program {
    Program(true, "m", [SmallestMain()])
  }

  lemma SmallestIsErrorFree()
    ensures StaticErrors(SmallestFlowModule()) == 0
  {
    var p, main := SmallestFlowModule(), SmallestMain();
    assert p.functions[..0] == [];
    assert SignaturesOf(p.functions) == map["main" := SignatureOf(main)];
    assert main.body[1..] == [];
    assert FunctionNames(p.functions) == ["main"];
  }

  lemma SmallestIsAcyclic()
    ensures Acyclic(CallsByName(SignaturesOf(SmallestFlowModule().functions), SmallestFlowModule().functions))
  {
    var p, main := SmallestFlowModule(), SmallestMain();
    var g := CallsByName(SignaturesOf(p.functions), p.functions);
    assert p.functions[..0] == [] && main.body[1..] == [];
    var sigs := SignaturesOf(p.functions);
    assert CalleesOfBody(sigs, main.body) == CalleesOfStatement(sigs, main.body[0]) + CalleesOfBody(sigs, main.body[1..]) == [];
    assert CallsByName(sigs, p.functions[..0]) == map[];
    assert g == map["main" := []];
    NoEdgesNoCycles(g);
  }

  lemma NoEdgesNoCycles(g: Graph<string>)
    requires forall a :: a in g ==> g[a] == []
    ensures Acyclic(g)
  {
    forall q: seq<string> ensures !IsCycle(g, q) {
      if |q| >= 2 {
        assert !Edge(g, q[0], q[1]);
      }
    }
  }

  /** The smallest information-flow module, with a doctored function table. */
  lemma ReceivedArtifactsCrash() returns (p: BytecodeProgram)
    ensures ArtifactCrashes(p)
  {
    var q := SmallestFlowModule();
    SmallestIsAccepted();
    SmallestTreeEncodes();
    AcceptedModulesAreBound(q);
    hide TreeBound, StructureCrashes, CompileCanonical;
    p := Doctored(CompileProgram(q).value);
    DoctoredArtifactsCrash(CompileProgram(q).value);
  }

  lemma SmallestIsAccepted()
    ensures CheckAccepts(SmallestFlowModule()) && Named(SmallestFlowModule())
  {
    SmallestIsErrorFree();
    SmallestIsAcyclic();
    SmallestIsNamed();
    hide StaticErrors, CallsByName, Named;
  }

  lemma SmallestIsNamed()
    ensures Named(SmallestFlowModule())
  {
    assert IsIdentifierTail("m") && IsIdentifierTail("main");
    assert FunctionNamed(SmallestMain());
  }

  /** The artifact of an accepted module whose tree can be encoded passes everything before the functions. */
  lemma AcceptedModulesAreBound(q: Program)
    requires CheckAccepts(q) && Named(q) && Encoding.TreeEncodes(Canonical(q))
    ensures CompileProgram(q).Some?
    ensures var p := CompileProgram(q).value;
            TreeBound(p) && EntryOk(p) && p.canonicalAst == Canonical(q)
  {
    CheckedProgramsCompile(q);
    EncodedTreesAreShallow(Canonical(q));
    ShapeIffLimits(q);
    ReconstructionChecks(q);
    var p := CompileProgram(q).value;
    CompiledIdentity(Canonical(q), p);
    hide CompileCanonical, CheckAccepts, Named, CanonicalChecks, CanonicalShapeOk;
    EntryIsMain(p, Canonical(q), Normalized(q));
  }

  // ---------- its encoding ----------

  lemma SmallestStatement()
    ensures Small(SizeOf(StatementJson(ReturnStatement(None))), 2, 3)
  {
    var entries := [J.Entry("kind", J.Text("return")), J.Entry("value", J.Null)];
    SmallText("return");
    assert StatementJson(ReturnStatement(None)) == J.Object(entries);
    SmallObject(entries, 1, 1);
  }

  lemma SmallestLabel()
    ensures Small(SizeOf(LabelJson(Public)), 2, 2)
  {
    var entries := [J.Entry("class", J.Text("public"))];
    SmallText("public");
    assert LabelJson(Public) == J.Object(entries);
    SmallObject(entries, 1, 1);
  }

  lemma SmallestBody()
    ensures Small(SizeOf(J.Array(BodyJson(CanonicalFunction(SmallestMain()).body))), 3, 4)
  {
    SmallestStatement();
    var body := CanonicalFunction(SmallestMain()).body;
    assert body == [ReturnStatement(None)] && body[1..] == [];
    hide SizeOf, StatementJson;
    assert BodyJson(body) == [StatementJson(body[0])];
    SmallArray(BodyJson(body), 2, 3);
  }

  lemma SmallestFunction()
    ensures Small(SizeOf(FunctionJson(CanonicalFunction(SmallestMain()))), 4, 29)
  {
    var f := CanonicalFunction(SmallestMain());
    hide SizeOf, BodyJson;
    SmallText("main");
    SmallText("unit");
    SmallestLabel();
    SmallestBody();
    SmallArray([], 2, 3);
    hide LabelJson, Small;
    var entries := [J.Entry("name", J.Text("main")), J.Entry("parameters", J.Array([])), J.Entry("return_type", J.Text("unit")),
                    J.Entry("return_information", LabelJson(Public)), J.Entry("effects", J.Array([])),
                    J.Entry("authorities", J.Array([])), J.Entry("body", J.Array(BodyJson(f.body)))];
    assert FunctionJson(f) == J.Object(entries);
    SmallObject(entries, 3, 4);
  }

  lemma SmallestCanonical()
    ensures Canonical(SmallestFlowModule()) == CanonicalProgram(Information, "m", [CanonicalFunction(SmallestMain())])
  {
  }

  /** A tree of one small function. */
  lemma SmallTree(ast: CanonicalProgram)
    requires ast.schema.Information? && |ast.moduleName| <= 40 && |ast.functions| == 1
    requires Small(SizeOf(FunctionJson(ast.functions[0])), 4, 29)
    ensures Small(SizeOf(TreeJson(ast)), 6, 91)
  {
    hide SizeOf, FunctionJson, Small;
    var functions := Mapped(FunctionJson, ast.functions);
    SmallArray(functions, 4, 29);
    SmallText(SchemaText(ast.schema));
    SmallText(ast.moduleName);
    SmallerIsSmall(SizeOf(J.Text(SchemaText(ast.schema))));
    SmallerIsSmall(SizeOf(J.Text(ast.moduleName)));
    var entries := [Field("schema", SchemaText(ast.schema)), Field("module", ast.moduleName)] + [J.Entry("functions", J.Array(functions))];
    SmallObject(entries, 5, 30);
  }

  lemma SmallerIsSmall(s: Size)
    requires Small(s, 1, 1)
    ensures Small(s, 5, 30)
  {
  }

  lemma SmallestTreeEncodes()
    ensures Encoding.TreeEncodes(Canonical(SmallestFlowModule()))
  {
    hide SizeOf, FunctionJson, TreeJson;
    var ast := Canonical(SmallestFlowModule());
    SmallestCanonical();
    SmallestFunction();
    SmallTree(ast);
    TreeEncoding(ast);
    SmallEncodes(TreeJson(ast));
  }
}
