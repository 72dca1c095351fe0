// Complete verification of a bytecode artifact, as joan-bytecode does it before
// anything runs: the embedded tree is well shaped and passes the static rules
// again, its identity matches, the code is structurally valid, it is exactly what
// the independent emitter produces, and tree and artifact can be encoded.
module Artifact {
  import opened Prelude
  import opened Ast
  import opened CheckRules
  import opened Bytecode
  import opened Verifier
  import opened Compiler
  import Encoding

  const MAX_STATEMENTS: nat := 100_000
  const MAX_EXPRESSION_NODES: nat := 200_000
  const MAX_EXPRESSION_DEPTH: nat := 256

  // ---------- back from the canonical tree ----------

  function ParsedExpression(e: Expression<string>): Option<Expression<i64>>
    decreases e, 1
  {
    match e
    case Integer(text) =>
      (match ParseI64(text)
       case Some(n) => Some(Integer(n))
       case None => None)
    case Boolean(b) => Some(Boolean(b))
    case Text(s) => Some(Text(s))
    case Variable(name) => Some(Variable(name))
    case Unary(op, operand) =>
      (match ParsedExpression(operand)
       case Some(o) => Some(Unary(op, o))
       case None => None)
    case Binary(op, left, right) =>
      (match (ParsedExpression(left), ParsedExpression(right))
       case (Some(l), Some(r)) => Some(Binary(op, l, r))
       case (_, _) => None)
    case Call(callee, arguments) =>
      (match ParsedExpressions(arguments)
       case Some(es) => Some(Call(callee, es))
       case None => None)
  }

  function ParsedExpressions(es: seq<Expression<string>>): Option<seq<Expression<i64>>>
    decreases es, 0
  {
    if es == [] then Some([])
    else
      match (ParsedExpression(es[0]), ParsedExpressions(es[1..]))
      case (Some(e), Some(rest)) => Some([e] + rest)
      case (_, _) => None
  }

  function ParsedStatement(s: Statement<string>): Option<Statement<i64>> {
    match s
    case LetStatement(name, ty, information, value) =>
      (match ParsedExpression(value)
       case Some(e) => Some(LetStatement(name, ty, information, e))
       case None => None)
    case ReturnStatement(None) => Some(ReturnStatement(None))
    case ReturnStatement(Some(value)) =>
      (match ParsedExpression(value)
       case Some(e) => Some(ReturnStatement(Some(e)))
       case None => None)
    case RequestStatement(effect, authority, information, arguments) =>
      (match ParsedExpressions(arguments)
       case Some(es) => Some(RequestStatement(effect, authority, information, es))
       case None => None)
    case ExpressionStatement(value) =>
      (match ParsedExpression(value)
       case Some(e) => Some(ExpressionStatement(e))
       case None => None)
  }

  function ParsedBody(body: seq<Statement<string>>): Option<seq<Statement<i64>>> {
    if body == [] then Some([])
    else
      match (ParsedStatement(body[0]), ParsedBody(body[1..]))
      case (Some(s), Some(rest)) => Some([s] + rest)
      case (_, _) => None
  }

  function ParsedFunction(f: Function<string>): Option<Function<i64>> {
    match ParsedBody(f.body)
    case Some(body) =>
      Some(Function(f.name, f.parameters, f.returnType, f.returnInformation, f.effects, f.authorities, body))
    case None => None
  }

  function ParsedFunctions(fs: seq<Function<string>>): Option<seq<Function<i64>>> {
    if fs == [] then Some([])
    else
      match (ParsedFunction(fs[0]), ParsedFunctions(fs[1..]))
      case (Some(f), Some(rest)) => Some([f] + rest)
      case (_, _) => None
  }

  function ParsedProgram(ast: CanonicalProgram): Option<Program> {
    match ParsedFunctions(ast.functions)
    case Some(functions) => Some(Program(ast.schema.IsInformationFlow(), ast.moduleName, functions))
    case None => None
  }

  // ---------- the shape of a canonical tree ----------

  function NodeCount(e: Expression<string>): nat
    decreases e, 1
  {
    match e
    case Unary(_, operand) => 1 + NodeCount(operand)
    case Binary(_, left, right) => 1 + NodeCount(left) + NodeCount(right)
    case Call(_, arguments) => 1 + NodeCounts(arguments)
    case _ => 1
  }

  function NodeCounts(es: seq<Expression<string>>): nat
    decreases es, 0
  {
    if es == [] then 0 else NodeCount(es[0]) + NodeCounts(es[1..])
  }

  /** Names are identifiers, integer text is the canonical spelling, and no node is nested too deeply. */
  predicate ExpressionShape(e: Expression<string>, depth: nat)
    decreases e, 1
  {
    depth <= MAX_EXPRESSION_DEPTH &&
    match e
    case Integer(text) => ParseI64(text).Some? && ToDecimal(ParseI64(text).value) == text
    case Variable(name) => IsIdentifier(name)
    case Unary(_, operand) => ExpressionShape(operand, depth + 1)
    case Binary(_, left, right) => ExpressionShape(left, depth + 1) && ExpressionShape(right, depth + 1)
    case Call(callee, arguments) => IsIdentifier(callee) && ExpressionShapes(arguments, depth + 1)
    case _ => true
  }

  predicate ExpressionShapes(es: seq<Expression<string>>, depth: nat)
    decreases es, 0
  {
    es == [] || (ExpressionShape(es[0], depth) && ExpressionShapes(es[1..], depth))
  }

  function StatementExpressions(s: Statement<string>): seq<Expression<string>> {
    match s
    case LetStatement(_, _, _, value) => [value]
    case ReturnStatement(None) => []
    case ReturnStatement(Some(e)) => [e]
    case RequestStatement(_, _, _, arguments) => arguments
    case ExpressionStatement(e) => [e]
  }

  predicate StatementShape(linear: bool, flow: bool, s: Statement<string>) {
    && ExpressionShapes(StatementExpressions(s), 0)
    && (s.LetStatement? ==> IsIdentifier(s.name) && InformationPresence(flow, s.information))
    && (s.RequestStatement? ==>
          && IsIdentifier(s.effect) && InformationPresence(flow, s.information)
          && s.authority.Some? == linear
          && (linear ==> IsIdentifier(s.authority.value)))
  }

  predicate AuthorityShape(linear: bool, authorities: Option<seq<Authority>>) {
    && authorities.Some? == linear
    && (linear ==>
          && (forall a :: a in authorities.value ==> IsIdentifier(a.name) && IsIdentifier(a.effect))
          && StrictlySorted(AuthorityNames(authorities.value)))
  }

  predicate FunctionShape(linear: bool, flow: bool, f: Function<string>) {
    && IsIdentifier(f.name)
    && |f.parameters| <= MAX_PARAMETERS
    && (forall q :: q in f.parameters ==> IsIdentifier(q.name) && InformationPresence(flow, q.information))
    && InformationPresence(flow, f.returnInformation)
    && SortedEffects(f.effects)
    && AuthorityShape(linear, f.authorities)
    && (forall i :: 0 <= i < |f.body| ==> StatementShape(linear, flow, f.body[i]))
  }

  function BodyNodes(body: seq<Statement<string>>): nat {
    if body == [] then 0 else NodeCounts(StatementExpressions(body[0])) + BodyNodes(body[1..])
  }

  function TotalNodes(functions: seq<Function<string>>): nat {
    if functions == [] then 0
    else
      var n := |functions| - 1;
      TotalNodes(functions[..n]) + BodyNodes(functions[n].body)
  }

  predicate CanonicalShapeOk(ast: CanonicalProgram) {
    && !ast.schema.Unknown?
    && IsIdentifier(ast.moduleName)
    && 1 <= |ast.functions| <= MAX_FUNCTIONS
    && StrictlySorted(FunctionNames(ast.functions))
    && (forall i :: 0 <= i < |ast.functions| ==>
                      FunctionShape(ast.schema.IsLinear(), ast.schema.IsInformationFlow(), ast.functions[i]))
    && StatementCount(ast.functions) <= MAX_STATEMENTS
    && TotalNodes(ast.functions) <= MAX_EXPRESSION_NODES
  }

  // ---------- acceptance ----------

  ghost predicate CanonicalChecks(ast: CanonicalProgram) {
    ParsedProgram(ast).Some? && CheckAccepts(ParsedProgram(ast).value)
  }

  /** Everything that is examined before the functions: schema, tree, its encoding and its identity. */
  ghost predicate TreeBound(p: BytecodeProgram) {
    && !p.schema.Unknown? && p.schema == p.canonicalAst.schema
    && CanonicalShapeOk(p.canonicalAst)
    && CanonicalChecks(p.canonicalAst)
    && Encoding.TreeEncodes(p.canonicalAst)
    && p.semanticIdentity == IdentityOf(p.canonicalAst)
    && p.semanticDigest == p.semanticIdentity.digest
    && p.moduleName == p.canonicalAst.moduleName
  }

  /** Code for a canonical tree, bound to its identity; a tree that cannot be encoded has none. */
  ghost function CompileTree(ast: CanonicalProgram): Option<BytecodeProgram> {
    if Encoding.TreeEncodes(ast) then CompileCanonical(ast) else None
  }

  /** What verify_bytecode accepts. */
  ghost predicate ArtifactOk(p: BytecodeProgram) {
    TreeBound(p) && StructureOk(p) && CompileCanonical(p.canonicalAst) == Some(p) && Encoding.ArtifactEncodes(p)
  }

  /** What verify_bytecode breaks off on. */
  ghost predicate ArtifactCrashes(p: BytecodeProgram) {
    TreeBound(p) && StructureCrashes(p)
  }
}
