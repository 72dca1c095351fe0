// Which modules the native backend takes, stated over the source: no effects, no strings, and so
// many operations, counted in the expressions as they are written.
module NativeRules {
  import opened Prelude
  import opened Ast
  import opened Bytecode
  import opened Compiler
  import opened CheckedPrograms
  import opened Normalization
  import opened AcceptedArtifacts
  import opened NativeLowering
  import opened Semantics
  import Artifact

  // ---------- the rules ----------

  /** No text anywhere in the expression. */
  predicate Textless(e: Expression<i64>) {
    match e
    case Text(_) => false
    case Unary(_, operand) => Textless(operand)
    case Binary(_, left, right) => Textless(left) && Textless(right)
    case Call(_, arguments) => forall i :: 0 <= i < |arguments| ==> Textless(arguments[i])
    case _ => true
  }

  /** Every literal, variable, operator and call is one operation. */
  function Operations(e: Expression<i64>): nat
    decreases e, 1
  {
    match e
    case Unary(_, operand) => Operations(operand) + 1
    case Binary(_, left, right) => Operations(left) + Operations(right) + 1
    case Call(_, arguments) => AllOperations(arguments) + 1
    case _ => 1
  }

  function AllOperations(es: seq<Expression<i64>>): nat
    decreases es, 0
  {
    if es == [] then 0 else Operations(es[0]) + AllOperations(es[1..])
  }

  predicate PureStatement(s: Statement<i64>) {
    match s
    case LetStatement(_, ty, _, value) => ty != String && Textless(value)
    case ReturnStatement(result) => result.Some? ==> Textless(result.value)
    case RequestStatement(_, _, _, _) => false
    case ExpressionStatement(e) => Textless(e)
  }

  /** A statement is one operation more than its expressions, and a bare return is two. */
  function StatementOperations(s: Statement<i64>): nat {
    match s
    case LetStatement(_, _, _, value) => Operations(value) + 1
    case ReturnStatement(None) => 2
    case ReturnStatement(Some(e)) => Operations(e) + 1
    case RequestStatement(_, _, _, arguments) => AllOperations(arguments) + 1
    case ExpressionStatement(e) => Operations(e) + 1
  }

  function BodyOperations(body: seq<Statement<i64>>): nat {
    if body == [] then 0 else StatementOperations(body[0]) + BodyOperations(body[1..])
  }

  function Bindings(body: seq<Statement<i64>>): nat {
    if body == [] then 0 else (if body[0].LetStatement? then 1 else 0) + Bindings(body[1..])
  }

  /** A function without effects and strings, of at most 10,000 operations and as many locals. */
  predicate PureFunction(f: Function<i64>) {
    && f.effects == [] && f.authorities == None && f.returnType != String
    && (forall i :: 0 <= i < |f.parameters| ==> f.parameters[i].valueType != String)
    && (forall k :: 0 <= k < |f.body| ==> PureStatement(f.body[k]))
    && BodyOperations(f.body) <= 10_000 && |f.parameters| + Bindings(f.body) <= 10_000
  }

  function ModuleOperations(fs: seq<Function<i64>>): nat {
    if fs == [] then 0 else BodyOperations(fs[0].body) + ModuleOperations(fs[1..])
  }

  /** A module without labels, of at most 256 such functions and 50,000 operations. */
  predicate PureModule(q: Program) {
    && !q.informationFlow && |q.functions| <= 256 && ModuleOperations(q.functions) <= 50_000
    && forall i :: 0 <= i < |q.functions| ==> PureFunction(q.functions[i])
  }

  // ---------- code ----------

  predicate AllInSubset(code: seq<Instruction>) {
    forall k :: 0 <= k < |code| ==> InstructionInSubset(code[k])
  }

  lemma SubsetJoins(a: seq<Instruction>, b: seq<Instruction>)
    ensures AllInSubset(a + b) <==> AllInSubset(a) && AllInSubset(b)
  {
    var c := a + b;
    assert forall k :: 0 <= k < |a| ==> c[k] == a[k];
    assert forall k :: 0 <= k < |b| ==> c[|a| + k] == b[k];
    assert AllInSubset(c) ==> AllInSubset(b) by {
      if AllInSubset(c) {
        forall k | 0 <= k < |b| ensures InstructionInSubset(b[k]) {
          assert InstructionInSubset(c[|a| + k]);
        }
      }
    }
  }

  lemma {:induction false} ExpressionCode(e: Expression<i64>, slots: Slots, indexes: map<string, nat>)
    requires Emit(CanonicalExpression(e), slots, indexes).Some?
    ensures var code := Emit(CanonicalExpression(e), slots, indexes).value;
            |code| == Operations(e) && (AllInSubset(code) <==> Textless(e))
    decreases e, 1
  {
    hide InstructionInSubset;
    match e
    case Unary(op, operand) =>
      ExpressionCode(operand, slots, indexes);
      OneInSubset(UnaryInstruction(op));
      SubsetJoins(Emit(CanonicalExpression(operand), slots, indexes).value, [UnaryInstruction(op)]);
    case Binary(op, left, right) =>
      ExpressionCode(left, slots, indexes);
      ExpressionCode(right, slots, indexes);
      var l, r := Emit(CanonicalExpression(left), slots, indexes).value, Emit(CanonicalExpression(right), slots, indexes).value;
      OneInSubset(BinaryInstruction(op));
      SubsetJoins(l, r);
      SubsetJoins(l + r, [BinaryInstruction(op)]);
    case Call(callee, arguments) =>
      ExpressionsCode(arguments, slots, indexes);
      var call := Invoke(indexes[callee], |arguments|);
      OneInSubset(call);
      SubsetJoins(EmitAll(CanonicalExpressions(arguments), slots, indexes).value, [call]);
    case _ =>
      OneInSubset(Emit(CanonicalExpression(e), slots, indexes).value[0]);
  }

  lemma OneInSubset(i: Instruction)
    ensures AllInSubset([i]) <==> !i.Request? && !(i.Push? && i.value.TextValue?)
  {
    assert [i][0] == i;
  }

  lemma {:induction false} ExpressionsCode(es: seq<Expression<i64>>, slots: Slots, indexes: map<string, nat>)
    requires EmitAll(CanonicalExpressions(es), slots, indexes).Some?
    ensures var code := EmitAll(CanonicalExpressions(es), slots, indexes).value;
            |code| == AllOperations(es) && (AllInSubset(code) <==> forall i :: 0 <= i < |es| ==> Textless(es[i]))
    decreases es, 0
  {
    hide InstructionInSubset;
    if es != [] {
      var canonical := CanonicalExpressions(es);
      assert canonical[0] == CanonicalExpression(es[0]) && canonical[1..] == CanonicalExpressions(es[1..]);
      ExpressionCode(es[0], slots, indexes);
      ExpressionsCode(es[1..], slots, indexes);
      SubsetJoins(Emit(canonical[0], slots, indexes).value, EmitAll(canonical[1..], slots, indexes).value);
      FirstAndOthers(es);
    }
  }

  lemma FirstAndOthers(es: seq<Expression<i64>>)
    requires es != []
    ensures (forall i :: 0 <= i < |es| ==> Textless(es[i])) <==>
            Textless(es[0]) && forall i :: 0 <= i < |es[1..]| ==> Textless(es[1..][i])
  {
    var rest := es[1..];
    assert forall i :: 0 < i < |es| ==> es[i] == rest[i - 1];
  }

  /** A binding of type string puts nothing into the code that the subset refuses; its type does. */
  predicate StringBinding(s: Statement<i64>) {
    s.LetStatement? && s.valueType == String
  }

  lemma StatementCode(s: Statement<i64>, slots: Slots, indexes: map<string, nat>)
    requires EmitStatement(CanonicalStatement(s), slots, indexes).Some?
    ensures var code := EmitStatement(CanonicalStatement(s), slots, indexes).value;
            && |code| == StatementOperations(s)
            && (AllInSubset(code) && !StringBinding(s) <==> PureStatement(s))
  {
    hide InstructionInSubset;
    match s
    case LetStatement(_, _, _, value) =>
      ExpressionCode(value, slots, indexes);
      OneInSubset(StoreLocal(|slots|));
      SubsetJoins(Emit(CanonicalExpression(value), slots, indexes).value, [StoreLocal(|slots|)]);
    case ReturnStatement(None) =>
      OneInSubset(Push(UnitValue));
      OneInSubset(Return);
      SubsetJoins([Push(UnitValue)], [Return]);
      assert [Push(UnitValue)] + [Return] == [Push(UnitValue), Return];
    case ReturnStatement(Some(e)) =>
      ExpressionCode(e, slots, indexes);
      OneInSubset(Return);
      SubsetJoins(Emit(CanonicalExpression(e), slots, indexes).value, [Return]);
    case RequestStatement(effect, authority, information, arguments) =>
      ExpressionsCode(arguments, slots, indexes);
      var request := Request(effect, authority, information, |arguments|);
      OneInSubset(request);
      SubsetJoins(EmitAll(CanonicalExpressions(arguments), slots, indexes).value, [request]);
    case ExpressionStatement(e) =>
      ExpressionCode(e, slots, indexes);
      OneInSubset(Pop);
      SubsetJoins(Emit(CanonicalExpression(e), slots, indexes).value, [Pop]);
  }

  lemma {:induction false} BodyCode(body: seq<Statement<i64>>, slots: Slots, indexes: map<string, nat>)
    requires EmitBody(CanonicalBody(body), slots, indexes).Some?
    ensures var code := EmitBody(CanonicalBody(body), slots, indexes).value;
            && |code| == BodyOperations(body)
            && (AllInSubset(code) && String !in LetTypes(CanonicalBody(body)) <==> forall k :: 0 <= k < |body| ==> PureStatement(body[k]))
    ensures |LetTypes(CanonicalBody(body))| == Bindings(body)
    decreases |body|
  {
    hide InstructionInSubset, PureStatement, EmitStatement, StatementOperations;
    if body != [] {
      var s, rest, canonical := body[0], body[1..], CanonicalBody(body);
      assert canonical[0] == CanonicalStatement(s) && canonical[1..] == CanonicalBody(rest);
      var after := SlotsAfter(canonical[0], slots);
      StatementCode(s, slots, indexes);
      BodyCode(rest, after, indexes);
      SubsetJoins(EmitStatement(canonical[0], slots, indexes).value, EmitBody(canonical[1..], after, indexes).value);
      assert forall k :: 0 < k < |body| ==> body[k] == rest[k - 1];
      assert (forall k :: 0 <= k < |body| ==> PureStatement(body[k])) <==>
             PureStatement(s) && forall k :: 0 <= k < |rest| ==> PureStatement(rest[k]) by {
        if PureStatement(s) && forall k :: 0 <= k < |rest| ==> PureStatement(rest[k]) {
          forall k | 0 <= k < |body| ensures PureStatement(body[k]) {
            assert k > 0 ==> PureStatement(rest[k - 1]);
          }
        }
        if forall k :: 0 <= k < |body| ==> PureStatement(body[k]) {
          forall k | 0 <= k < |rest| ensures PureStatement(rest[k]) {
            assert PureStatement(body[k + 1]);
          }
        }
      }
    }
  }

  lemma NoStringParameters(parameters: seq<Parameter>)
    ensures String !in ParameterTypes(parameters) <==> forall i :: 0 <= i < |parameters| ==> parameters[i].valueType != String
  {
    var types := ParameterTypes(parameters);
    if String in types {
      var i :| 0 <= i < |types| && types[i] == String;
      assert parameters[i].valueType == String;
    } else {
      forall i | 0 <= i < |parameters| ensures parameters[i].valueType != String {
        assert types[i] in types;
      }
    }
  }

  lemma SortedLength<T>(key: T -> string, s: seq<T>)
    ensures |SortByKey(key, s)| == |s|
  {
    SortIsPermutation(key, s);
    PermutedMembers(SortByKey(key, s), s);
  }

  lemma PermutedAt<T>(s: seq<T>, t: seq<T>, i: nat)
    requires multiset(s) == multiset(t) && i < |s|
    ensures exists j :: 0 <= j < |t| && t[j] == s[i]
  {
    assert s[i] in multiset(s);
    assert s[i] in multiset(t);
  }

  lemma FunctionSubsetMeans(f: Function<i64>, indexes: map<string, nat>)
    requires CompileFunction(CanonicalFunction(f), indexes).Some?
    ensures var g := CompileFunction(CanonicalFunction(f), indexes).value;
            (FunctionInSubset(g) <==> PureFunction(f)) && |g.instructions| == BodyOperations(f.body)
  {
    hide InstructionInSubset, PureStatement;
    var c := CanonicalFunction(f);
    BodyCode(f.body, ParameterSlots(c.parameters), indexes);
    NoStringParameters(f.parameters);
    SortedLength(SameName, f.effects);
    var types, lets := ParameterTypes(f.parameters), LetTypes(c.body);
    assert String in types + lets <==> String in types || String in lets;
  }

  // ---------- modules ----------

  function Sum<T>(weight: T -> nat, s: seq<T>): nat {
    if s == [] then 0 else weight(s[0]) + Sum(weight, s[1..])
  }

  lemma {:induction false} InsertedSum<T>(key: T -> string, weight: T -> nat, x: T, s: seq<T>)
    ensures Sum(weight, InsertByKey(key, x, s)) == weight(x) + Sum(weight, s)
  {
    var r := InsertByKey(key, x, s);
    if s != [] && StrLess(key(s[0]), key(x)) {
      InsertedSum(key, weight, x, s[1..]);
      assert r[0] == s[0] && r[1..] == InsertByKey(key, x, s[1..]);
    } else {
      assert r[0] == x && r[1..] == s;
    }
  }

  lemma {:induction false} SortedSum<T>(key: T -> string, weight: T -> nat, s: seq<T>)
    ensures Sum(weight, SortByKey(key, s)) == Sum(weight, s)
  {
    if s != [] {
      SortedSum(key, weight, s[1..]);
      InsertedSum(key, weight, s[0], SortByKey(key, s[1..]));
    }
  }

  function CodeLength(indexes: map<string, nat>): Function<string> -> nat {
    (g: Function<string>) =>
      var code := EmitBody(g.body, ParameterSlots(g.parameters), indexes);
      if code.Some? then |code.value| else 0
  }

  lemma {:induction false} CompiledTotal(fs: seq<Function<string>>, indexes: map<string, nat>)
    requires CompileFunctions(fs, indexes).Some?
    ensures InstructionTotal(CompileFunctions(fs, indexes).value) == Sum(CodeLength(indexes), fs)
  {
    if fs != [] {
      CompiledTotal(fs[1..], indexes);
      var compiled := CompileFunctions(fs, indexes).value;
      assert compiled[0] == CompileFunction(fs[0], indexes).value && compiled[1..] == CompileFunctions(fs[1..], indexes).value;
    }
  }

  lemma {:induction false} SourceTotal(fs: seq<Function<i64>>, indexes: map<string, nat>)
    requires forall i :: 0 <= i < |fs| ==> CompileFunction(CanonicalFunction(fs[i]), indexes).Some?
    ensures Sum(CodeLength(indexes), CanonicalFunctions(fs)) == ModuleOperations(fs)
  {
    if fs != [] {
      SourceTotal(fs[1..], indexes);
      FunctionSubsetMeans(fs[0], indexes);
      hide CanonicalFunction, CompileFunction;
      var canonical := CanonicalFunctions(fs);
      assert canonical[0] == CanonicalFunction(fs[0]) && canonical[1..] == CanonicalFunctions(fs[1..]);
      LengthIsOperations(fs[0], indexes);
    }
  }

  lemma LengthIsOperations(f: Function<i64>, indexes: map<string, nat>)
    requires CompileFunction(CanonicalFunction(f), indexes).Some?
    ensures CodeLength(indexes)(CanonicalFunction(f)) == BodyOperations(f.body)
  {
    FunctionSubsetMeans(f, indexes);
  }

  lemma CanonicalFunctionsPermute(q: Program)
    ensures |Canonical(q).functions| == |q.functions|
    ensures multiset(Canonical(q).functions) == multiset(CanonicalFunctions(q.functions))
  {
    SortIsPermutation(FunctionName, CanonicalFunctions(q.functions));
    SortedLength(FunctionName, CanonicalFunctions(q.functions));
  }

  /** Every function of the tree is one of the source. */
  lemma SourceFunction(q: Program, i: nat) returns (j: nat)
    requires i < |Canonical(q).functions|
    ensures j < |q.functions| && Canonical(q).functions[i] == CanonicalFunction(q.functions[j])
  {
    hide Canonical, CanonicalFunction;
    CanonicalFunctionsPermute(q);
    PermutedAt(Canonical(q).functions, CanonicalFunctions(q.functions), i);
    j :| 0 <= j < |q.functions| && CanonicalFunctions(q.functions)[j] == Canonical(q).functions[i];
  }

  /** Every function of the source is one of the tree. */
  lemma TreeFunction(q: Program, j: nat) returns (i: nat)
    requires j < |q.functions|
    ensures i < |Canonical(q).functions| && Canonical(q).functions[i] == CanonicalFunction(q.functions[j])
  {
    hide Canonical, CanonicalFunction;
    CanonicalFunctionsPermute(q);
    PermutedAt(CanonicalFunctions(q.functions), Canonical(q).functions, j);
    i :| 0 <= i < |q.functions| && Canonical(q).functions[i] == CanonicalFunctions(q.functions)[j];
  }

  lemma FunctionsAgree(q: Program, ast: CanonicalProgram, indexes: map<string, nat>, compiled: seq<BytecodeFunction>)
    requires ast == Canonical(q) && CompileFunctions(ast.functions, indexes) == Some(compiled)
    ensures (forall i :: 0 <= i < |compiled| ==> FunctionInSubset(compiled[i])) <==>
            (forall j :: 0 <= j < |q.functions| ==> PureFunction(q.functions[j]))
    ensures InstructionTotal(compiled) == ModuleOperations(q.functions)
    ensures |compiled| == |q.functions|
  {
    hide FunctionInSubset, PureFunction, CompileFunction, CanonicalFunction;
    CanonicalFunctionsPermute(q);
    forall j | 0 <= j < |q.functions|
      ensures CompileFunction(CanonicalFunction(q.functions[j]), indexes).Some?
      ensures (forall i :: 0 <= i < |compiled| ==> FunctionInSubset(compiled[i])) ==> PureFunction(q.functions[j])
    {
      var i := TreeFunction(q, j);
      assert CompileFunction(ast.functions[i], indexes) == Some(compiled[i]);
      FunctionSubsetMeans(q.functions[j], indexes);
    }
    if forall j :: 0 <= j < |q.functions| ==> PureFunction(q.functions[j]) {
      forall i | 0 <= i < |compiled| ensures FunctionInSubset(compiled[i]) {
        var j := SourceFunction(q, i);
        assert CompileFunction(ast.functions[i], indexes) == Some(compiled[i]);
        FunctionSubsetMeans(q.functions[j], indexes);
      }
    }
    CompiledTotal(ast.functions, indexes);
    SourceTotal(q.functions, indexes);
    SortedSum(FunctionName, CodeLength(indexes), CanonicalFunctions(q.functions));
  }

  lemma NoSlots(q: Program)
    ensures (forall j :: 0 <= j < |q.functions| ==> PureFunction(q.functions[j])) ==> !MentionsAuthority(q.functions)
  {
    if (forall j :: 0 <= j < |q.functions| ==> PureFunction(q.functions[j])) && MentionsAuthority(q.functions) {
      var j :| 0 <= j < |q.functions| && (q.functions[j].authorities.Some? || RequestsWithAuthority(q.functions[j]));
      assert PureFunction(q.functions[j]);
      var k :| 0 <= k < |q.functions[j].body| && q.functions[j].body[k].RequestStatement? && q.functions[j].body[k].authority.Some?;
      assert PureStatement(q.functions[j].body[k]);
    }
  }

  /**
   * The code of a module is in the subset of the native backend if and only if the module is pure: no labels, no
   * effects, no slots, no requests, no strings in types or expressions, and no more operations and locals,
   * counted in the source, than the limits allow.
   */
  lemma SubsetMeans(q: Program, p: BytecodeProgram)
    requires CompileCanonical(Canonical(q)) == Some(p)
    ensures InSubset(p) <==> PureModule(q)
  {
    hide FunctionInSubset, PureFunction, MentionsAuthority, CompileFunctions;
    var ast := Canonical(q);
    FunctionsAgree(q, ast, FunctionIndexes(ast.functions), p.functions);
    NoSlots(q);
  }

  /** An accepted artifact is compiled natively, unless the code generator objects, exactly if its module is pure. */
  lemma NativeModules(q: Program, p: BytecodeProgram)
    requires Delivers(q, p)
    ensures Artifact.ArtifactOk(p) && (InSubset(p) <==> PureModule(q))
  {
    hide Artifact.ArtifactOk, PureModule, InSubset;
    AcceptedArtifactsAreCompiled(p);
    SubsetMeans(q, p);
  }
}
