// The canonical tree of an accepted program has the shape the verifier demands,
// exactly when its expressions are neither too deep nor too many.
module CanonicalShape {
  import opened Prelude
  import opened Ast
  import opened CheckRules
  import opened Verifier
  import opened Acceptance
  import opened Artifact
  import opened CheckedPrograms
  import opened Normalization

  // ---------- names, as the parser delivers them ----------

  predicate LabelNamed(information: Option<Label>) {
    information.Some? ==> LabelOk(information.value)
  }

  predicate ExpressionNamed(e: Expression<i64>)
    decreases e, 1
  {
    match e
    case Variable(name) => IsIdentifier(name)
    case Unary(_, operand) => ExpressionNamed(operand)
    case Binary(_, left, right) => ExpressionNamed(left) && ExpressionNamed(right)
    case Call(callee, arguments) => IsIdentifier(callee) && ExpressionsNamed(arguments)
    case _ => true
  }

  predicate ExpressionsNamed(es: seq<Expression<i64>>)
    decreases es, 0
  {
    es == [] || (ExpressionNamed(es[0]) && ExpressionsNamed(es[1..]))
  }

  predicate StatementNames(s: Statement<i64>) {
    match s
    case LetStatement(name, _, information, value) =>
      IsIdentifier(name) && LabelNamed(information) && ExpressionNamed(value)
    case ReturnStatement(None) => true
    case ReturnStatement(Some(e)) => ExpressionNamed(e)
    case RequestStatement(effect, authority, information, arguments) =>
      IsIdentifier(effect) && (authority.Some? ==> IsIdentifier(authority.value)) && LabelNamed(information)
      && ExpressionsNamed(arguments)
    case ExpressionStatement(e) => ExpressionNamed(e)
  }

  predicate FunctionNamed(f: Function<i64>) {
    && IsIdentifier(f.name)
    && (forall q :: q in f.parameters ==> IsIdentifier(q.name) && LabelNamed(q.information))
    && LabelNamed(f.returnInformation)
    && (forall e :: e in f.effects ==> IsIdentifier(e))
    && (f.authorities.Some? ==> forall a :: a in f.authorities.value ==> IsIdentifier(a.name) && IsIdentifier(a.effect))
    && (forall k :: 0 <= k < |f.body| ==> StatementNames(f.body[k]))
  }

  /** Every name is an identifier; the grammar admits nothing else. */
  predicate Named(p: Program) {
    IsIdentifier(p.moduleName) && forall j :: 0 <= j < |p.functions| ==> FunctionNamed(p.functions[j])
  }

  // ---------- size ----------

  /** How deep the nodes of an expression are nested below its root. */
  function Height(e: Expression<string>): nat
    decreases e, 1
  {
    match e
    case Unary(_, operand) => 1 + Height(operand)
    case Binary(_, left, right) => 1 + Max(Height(left), Height(right))
    case Call(_, arguments) => if arguments == [] then 0 else 1 + Heights(arguments)
    case _ => 0
  }

  function Heights(es: seq<Expression<string>>): nat
    decreases es, 0
  {
    if es == [] then 0 else Max(Height(es[0]), Heights(es[1..]))
  }

  predicate BodyWithin(body: seq<Statement<string>>) {
    forall k :: 0 <= k < |body| ==> Heights(StatementExpressions(body[k])) <= MAX_EXPRESSION_DEPTH
  }

  /** The limits on trees that the grammar and the static rules do not imply. */
  predicate TreeWithinLimits(ast: CanonicalProgram) {
    && (forall i :: 0 <= i < |ast.functions| ==> BodyWithin(ast.functions[i].body))
    && TotalNodes(ast.functions) <= MAX_EXPRESSION_NODES
  }

  // ---------- expressions ----------

  /** A named expression is well shaped exactly when it stays within the depth limit. */
  lemma {:induction false} ExpressionShaped(e: Expression<i64>, depth: nat)
    requires ExpressionNamed(e)
    ensures ExpressionShape(CanonicalExpression(e), depth) <==> depth + Height(CanonicalExpression(e)) <= MAX_EXPRESSION_DEPTH
    decreases e, 1
  {
    match e
    case Integer(n) => DecimalRoundTrip(n);
    case Unary(_, operand) => ExpressionShaped(operand, depth + 1);
    case Binary(_, left, right) =>
      ExpressionShaped(left, depth + 1);
      ExpressionShaped(right, depth + 1);
    case Call(_, arguments) => ExpressionsShaped(arguments, depth + 1);
    case _ =>
  }

  lemma {:induction false} ExpressionsShaped(es: seq<Expression<i64>>, depth: nat)
    requires ExpressionsNamed(es)
    ensures ExpressionShapes(CanonicalExpressions(es), depth) <==>
            es == [] || depth + Heights(CanonicalExpressions(es)) <= MAX_EXPRESSION_DEPTH
    decreases es, 0
  {
    if es != [] {
      ExpressionShaped(es[0], depth);
      ExpressionsShaped(es[1..], depth);
      var canonical := CanonicalExpressions(es);
      assert canonical[0] == CanonicalExpression(es[0]) && canonical[1..] == CanonicalExpressions(es[1..]);
    }
  }

  lemma OneShaped(e: Expression<i64>)
    requires ExpressionNamed(e)
    ensures ExpressionShapes([CanonicalExpression(e)], 0) <==> Heights([CanonicalExpression(e)]) <= MAX_EXPRESSION_DEPTH
  {
    assert [e][1..] == [] && [CanonicalExpression(e)][1..] == [];
    ExpressionShaped(e, 0);
  }

  lemma StatementShaped(linear: bool, flow: bool, s: Statement<i64>)
    requires StatementNames(s)
    requires s.LetStatement? || s.RequestStatement? ==> flow == s.information.Some?
    requires s.RequestStatement? ==> s.authority.Some? == linear
    ensures StatementShape(linear, flow, CanonicalStatement(s)) <==>
            Heights(StatementExpressions(CanonicalStatement(s))) <= MAX_EXPRESSION_DEPTH
  {
    match s
    case LetStatement(_, _, _, value) => OneShaped(value);
    case ReturnStatement(None) =>
    case ReturnStatement(Some(e)) => OneShaped(e);
    case RequestStatement(_, _, _, arguments) => ExpressionsShaped(arguments, 0);
    case ExpressionStatement(e) => OneShaped(e);
  }

  // ---------- what the static rules say about labels and slots ----------

  lemma {:induction false} LabelsPresent(flow: bool, body: seq<Statement<i64>>, k: nat)
    requires BodyShape(flow, body) == 0 && k < |body|
    ensures body[k].LetStatement? || body[k].RequestStatement? ==> flow == body[k].information.Some?
  {
    if k > 0 {
      LabelsPresent(flow, body[1..], k - 1);
    }
  }

  lemma {:induction false} ParameterLabelsPresent(flow: bool, parameters: seq<Parameter>)
    requires ParameterShape(flow, parameters) == 0
    ensures forall q :: q in parameters ==> flow == q.information.Some?
  {
    if parameters != [] {
      ParameterLabelsPresent(flow, parameters[1..]);
      assert forall q :: q in parameters ==> q == parameters[0] || q in parameters[1..];
    }
  }

  /** In the linear profile, every request of a body without diagnostics names a slot. */
  lemma {:induction false} SlotsNamed(scope: Scope, body: seq<Statement<i64>>, b: BodyState, k: nat)
    requires scope.linear && CheckStatements(scope, body, b).errors == 0 && k < |body|
    ensures body[k].RequestStatement? ==> body[k].authority.Some?
  {
    var b' := CheckStatement(scope, body[0], b);
    ErrorsGrow(scope, body[1..], b');
    if k > 0 {
      SlotsNamed(scope, body[1..], b', k - 1);
    }
  }

  lemma SlotsMatchProfile(p: Program, j: nat, k: nat)
    requires ErrorFree(p) && j < |p.functions| && k < |p.functions[j].body|
    ensures var s := p.functions[j].body[k];
            s.RequestStatement? ==> s.authority.Some? == LinearProfile(p)
    ensures p.functions[j].authorities.Some? == LinearProfile(p)
  {
    var f := p.functions[j];
    FunctionErrorFree(p, j);
    if LinearProfile(p) {
      SlotsNamed(BodyScope(p, j), f.body, InitialBody(true, f), k);
    }
    if f.body[k].RequestStatement? && f.body[k].authority.Some? {
      assert RequestsWithAuthority(f);
    }
    if f.authorities.Some? || RequestsWithAuthority(f) {
      assert MentionsAuthority(p.functions);
    }
  }

  lemma FunctionStatementsNamed(p: Program, j: nat)
    requires ErrorFree(p) && j < |p.functions| && FunctionNamed(p.functions[j])
    ensures StatementsNamed(p, j)
  {
    FunctionErrorFree(p, j);
    var body := p.functions[j].body;
    forall k | 0 <= k < |body| ensures StatementNamed(LinearProfile(p), p.informationFlow, body[k]) {
      assert StatementNames(body[k]);
      LabelsPresent(p.informationFlow, body, k);
      SlotsMatchProfile(p, j, k);
    }
  }

  /** The reconstructed program has the same statements, in functions that are sorted. */
  lemma NormalizedStatementsNamed(p: Program, i: nat)
    requires ErrorFree(p) && Named(p) && ParsedProgram(Canonical(p)).Some? && i < |Normalized(p).functions|
    ensures StatementsNamed(Normalized(p), i)
  {
    Reconstructs(p);
    SourceNormalizes(p);
    SortedFrom(p, i);
    var j: nat :| CameFrom(p, Canonical(p), i, j);
    ReconstructsAt(p, i, j);
    FunctionStatementsNamed(p, j);
  }

  // ---------- functions ----------

  lemma StatementsShaped(p: Program, j: nat)
    requires ErrorFree(p) && j < |p.functions| && FunctionNamed(p.functions[j])
    ensures var g := CanonicalFunction(p.functions[j]);
            (forall k :: 0 <= k < |g.body| ==> StatementShape(LinearProfile(p), p.informationFlow, g.body[k])) <==> BodyWithin(g.body)
  {
    var f, g := p.functions[j], CanonicalFunction(p.functions[j]);
    FunctionErrorFree(p, j);
    forall k | 0 <= k < |g.body|
      ensures StatementShape(LinearProfile(p), p.informationFlow, g.body[k]) <==>
              Heights(StatementExpressions(g.body[k])) <= MAX_EXPRESSION_DEPTH
    {
      LabelsPresent(p.informationFlow, f.body, k);
      SlotsMatchProfile(p, j, k);
      CanonicalBodyAt(f.body, k);
      StatementShaped(LinearProfile(p), p.informationFlow, f.body[k]);
    }
  }

  lemma SlotsShaped(p: Program, j: nat)
    requires ErrorFree(p) && j < |p.functions| && FunctionNamed(p.functions[j])
    ensures AuthorityShape(LinearProfile(p), SortAuthorities(p.functions[j].authorities))
  {
    var f := p.functions[j];
    FunctionErrorFree(p, j);
    if f.body != [] {
      SlotsMatchProfile(p, j, 0);
    }
    if LinearProfile(p) {
      AuthoritiesNormalize(f.authorities.value);
    }
  }

  lemma FunctionShaped(p: Program, j: nat)
    requires ErrorFree(p) && j < |p.functions| && FunctionNamed(p.functions[j])
    ensures var g := CanonicalFunction(p.functions[j]);
            FunctionShape(LinearProfile(p), p.informationFlow, g) <==> BodyWithin(g.body)
  {
    var f := p.functions[j];
    FunctionErrorFree(p, j);
    ParameterLabelsPresent(p.informationFlow, f.parameters);
    EffectsNormalize(f.effects);
    SlotsShaped(p, j);
    StatementsShaped(p, j);
  }

  // ---------- the program ----------

  lemma ShapedAt(p: Program, i: nat)
    requires ErrorFree(p) && Named(p) && i < |Canonical(p).functions|
    ensures FunctionShape(LinearProfile(p), p.informationFlow, Canonical(p).functions[i]) <==>
            BodyWithin(Canonical(p).functions[i].body)
  {
    SortedFrom(p, i);
    var j: nat :| CameFrom(p, Canonical(p), i, j);
    FunctionShaped(p, j);
  }

  lemma MainExists(p: Program)
    requires ErrorFree(p)
    ensures p.functions != []
  {
    SignatureNames(p.functions, "main");
  }

  lemma FunctionsShaped(p: Program)
    requires ErrorFree(p) && Named(p)
    ensures var ast := Canonical(p);
            (forall i :: 0 <= i < |ast.functions| ==> FunctionShape(LinearProfile(p), p.informationFlow, ast.functions[i])) <==>
            (forall i :: 0 <= i < |ast.functions| ==> BodyWithin(ast.functions[i].body))
  {
    var ast := Canonical(p);
    forall i | 0 <= i < |ast.functions|
      ensures FunctionShape(LinearProfile(p), p.informationFlow, ast.functions[i]) <==> BodyWithin(ast.functions[i].body)
    {
      ShapedAt(p, i);
    }
  }

  /** The canonical tree of an accepted program is well shaped exactly when it is within the tree limits. */
  lemma ShapeIffLimits(p: Program)
    requires CheckAccepts(p) && Named(p)
    ensures CanonicalShapeOk(Canonical(p)) <==> TreeWithinLimits(Canonical(p))
  {
    hide CheckAccepts, Canonical, FunctionShape, BodyWithin, Named, StrictlySorted, StatementCount, TotalNodes;
    NoErrors(p);
    AcceptedHasNoErrors(p);
    HeaderShaped(p);
    FunctionsShaped(p);
  }

  lemma AcceptedHasNoErrors(p: Program)
    requires CheckAccepts(p)
    ensures StaticErrors(p) == 0
  {
  }

  /** Everything the shape asks of the tree as a whole, apart from its functions and its size. */
  lemma HeaderShaped(p: Program)
    requires ErrorFree(p) && Named(p)
    ensures var ast := Canonical(p);
            && ast.schema.IsLinear() == LinearProfile(p) && ast.schema.IsInformationFlow() == p.informationFlow
            && !ast.schema.Unknown? && IsIdentifier(ast.moduleName)
            && 1 <= |ast.functions| <= MAX_FUNCTIONS
            && StrictlySorted(FunctionNames(ast.functions))
            && StatementCount(ast.functions) <= MAX_STATEMENTS
  {
    MainExists(p);
    NamesNormalize(p);
    CountNormalizes(p);
  }
}
