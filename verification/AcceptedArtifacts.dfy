// The verifier accepts what the compiler delivers for accepted modules, and nothing else: the tree of
// an accepted artifact is the canonical tree of the module it stands for.
module AcceptedArtifacts {
  import opened Prelude
  import opened Ast
  import opened CheckRules
  import opened Bytecode
  import opened Verifier
  import opened Compiler
  import opened Artifact
  import opened CheckedPrograms
  import opened CanonicalShape
  import opened EncodingLimits
  import opened Pipeline
  import Encoding

  // ---------- what is sorted stays as it is ----------

  ghost predicate Ascending<T>(key: T -> string, s: seq<T>) {
    forall i :: 0 <= i < |s| - 1 ==> StrLess(key(s[i]), key(s[i + 1]))
  }

  lemma {:induction false} SortKeepsSorted<T>(key: T -> string, s: seq<T>)
    requires Ascending(key, s)
    ensures SortByKey(key, s) == s
    decreases |s|
  {
    if s != [] {
      var rest := s[1..];
      forall i | 0 <= i < |rest| - 1 ensures StrLess(key(rest[i]), key(rest[i + 1])) {
        assert rest[i] == s[i + 1] && rest[i + 1] == s[i + 1 + 1];
      }
      SortKeepsSorted(key, rest);
      if rest != [] {
        assert rest[0] == s[1];
        StrLessTotal(key(s[0]), key(s[1]));
      }
      assert [s[0]] + rest == s;
    }
  }

  lemma EffectsStay(effects: seq<string>)
    requires StrictlySorted(effects)
    ensures SortEffects(effects) == effects
  {
    SortKeepsSorted(SameName, effects);
  }

  lemma SlotsStay(items: seq<Authority>)
    requires StrictlySorted(AuthorityNames(items))
    ensures SortAuthorities(Some(items)) == Some(items)
  {
    assert forall i :: 0 <= i < |items| ==> AuthorityNames(items)[i] == AuthorityName(items[i]);
    SortKeepsSorted(AuthorityName, items);
  }

  // ---------- the tree ----------

  lemma FunctionIsCanonical(ast: CanonicalProgram, i: nat)
    requires CanonicalShapeOk(ast) && ParsedProgram(ast).Some? && i < |ast.functions|
    ensures |ParsedProgram(ast).value.functions| == |ast.functions|
    ensures CanonicalFunction(ParsedProgram(ast).value.functions[i]) == ast.functions[i]
  {
    ShapedFunction(ast, i);
    var g := ast.functions[i];
    assert FunctionShape(ast.schema.IsLinear(), ast.schema.IsInformationFlow(), g);
    hide CanonicalShapeOk, StatementShape, IsIdentifier;
    EffectsStay(g.effects);
    if g.authorities.Some? {
      SlotsStay(g.authorities.value);
    }
  }

  lemma FunctionsStay(ast: CanonicalProgram)
    requires CanonicalShapeOk(ast)
    ensures SortByKey(FunctionName, ast.functions) == ast.functions
  {
    assert forall i :: 0 <= i < |ast.functions| ==> FunctionNames(ast.functions)[i] == FunctionName(ast.functions[i]);
    SortKeepsSorted(FunctionName, ast.functions);
  }

  /** A well-shaped tree is the canonical tree of the module it stands for. */
  lemma TreeIsCanonical(ast: CanonicalProgram)
    requires CanonicalShapeOk(ast) && ParsedProgram(ast).Some?
    ensures Canonical(ParsedProgram(ast).value) == ast
  {
    var q := ParsedProgram(ast).value;
    ShapedSource(ast);
    FunctionsStay(ast);
    forall i | 0 <= i < |ast.functions| ensures CanonicalFunctions(q.functions)[i] == ast.functions[i] {
      FunctionIsCanonical(ast, i);
    }
    assert CanonicalFunctions(q.functions) == ast.functions;
    ProfileIsCanonical(ast, q);
    hide CanonicalShapeOk, ParsedProgram, Mirrors;
  }

  lemma ProfileIsCanonical(ast: CanonicalProgram, q: Program)
    requires CanonicalShapeOk(ast) && Source(ast, q)
    ensures ast.schema == if q.informationFlow then Information else if MentionsAuthority(q.functions) then Linear else Legacy
  {
    hide Mirrors, MentionsAuthority;
  }

  // ---------- names ----------

  lemma {:induction false} ShapedExpressionIsNamed(e: Expression<i64>, depth: nat)
    requires ExpressionShape(CanonicalExpression(e), depth)
    ensures ExpressionNamed(e)
    decreases e, 1
  {
    match e
    case Unary(_, operand) => ShapedExpressionIsNamed(operand, depth + 1);
    case Binary(_, left, right) =>
      ShapedExpressionIsNamed(left, depth + 1);
      ShapedExpressionIsNamed(right, depth + 1);
    case Call(_, arguments) => ShapedExpressionsAreNamed(arguments, depth + 1);
    case _ =>
  }

  lemma {:induction false} ShapedExpressionsAreNamed(es: seq<Expression<i64>>, depth: nat)
    requires ExpressionShapes(CanonicalExpressions(es), depth)
    ensures ExpressionsNamed(es)
    decreases es, 0
  {
    if es != [] {
      var canonical := CanonicalExpressions(es);
      assert canonical[0] == CanonicalExpression(es[0]) && canonical[1..] == CanonicalExpressions(es[1..]);
      ShapedExpressionIsNamed(es[0], depth);
      ShapedExpressionsAreNamed(es[1..], depth);
    }
  }

  lemma ShapedStatementIsNamed(linear: bool, flow: bool, s: Statement<i64>)
    requires StatementShape(linear, flow, CanonicalStatement(s))
    ensures StatementNames(s)
  {
    match s
    case LetStatement(_, _, _, value) => ShapedExpressionIsNamed(value, 0);
    case ReturnStatement(None) =>
    case ReturnStatement(Some(e)) => ShapedExpressionIsNamed(e, 0);
    case RequestStatement(_, _, _, arguments) => ShapedExpressionsAreNamed(arguments, 0);
    case ExpressionStatement(e) => ShapedExpressionIsNamed(e, 0);
  }

  lemma ShapedFunctionIsNamed(linear: bool, flow: bool, f: Function<i64>, g: Function<string>)
    requires Mirrors(f, g) && FunctionShape(linear, flow, g)
    ensures FunctionNamed(f)
  {
    hide IsIdentifier, LabelOk, StatementShape, StatementNames;
    forall k | 0 <= k < |f.body| ensures StatementNames(f.body[k]) {
      CanonicalBodyAt(f.body, k);
      assert StatementShape(linear, flow, g.body[k]);
      ShapedStatementIsNamed(linear, flow, f.body[k]);
    }
  }

  lemma ShapedTreeIsNamed(ast: CanonicalProgram)
    requires CanonicalShapeOk(ast) && ParsedProgram(ast).Some?
    ensures Named(ParsedProgram(ast).value)
  {
    var q := ParsedProgram(ast).value;
    ShapedSource(ast);
    forall i | 0 <= i < |q.functions| ensures FunctionNamed(q.functions[i]) {
      assert Mirrors(q.functions[i], ast.functions[i]);
      ShapedFunctionIsNamed(ast.schema.IsLinear(), ast.schema.IsInformationFlow(), q.functions[i], ast.functions[i]);
    }
  }

  // ---------- acceptance ----------

  /** The artifact is what the compiler makes of the module. */
  ghost predicate Delivers(q: Program, p: BytecodeProgram) {
    CheckAccepts(q) && Named(q) && CompileProgram(q) == Some(p) && Encoding.ArtifactEncodes(p)
  }

  lemma AcceptedIsDelivered(p: BytecodeProgram)
    requires ArtifactOk(p)
    ensures ParsedProgram(p.canonicalAst).Some? && Delivers(ParsedProgram(p.canonicalAst).value, p)
    ensures p.canonicalAst == Canonical(ParsedProgram(p.canonicalAst).value)
  {
    hide StructureOk, CanonicalShapeOk, CompileCanonical, CheckAccepts, Named, Canonical;
    TreeIsCanonical(p.canonicalAst);
    ShapedTreeIsNamed(p.canonicalAst);
  }

  /**
   * An artifact is accepted if and only if it is what the compiler delivers for some accepted module, and can
   * be encoded. There are no other acceptable artifacts.
   */
  lemma AcceptedArtifactsAreCompiled(p: BytecodeProgram)
    ensures ArtifactOk(p) <==> exists q :: Delivers(q, p)
  {
    hide ArtifactOk, CheckAccepts, Named;
    if ArtifactOk(p) {
      AcceptedIsDelivered(p);
    }
    if q :| Delivers(q, p) {
      CheckedProgramsVerify(q);
    }
  }
}
