// The bounds on encodings are the only limits that matter: whatever can be encoded is far within
// the limits on nesting, nodes, instructions, locals and stacks that the verifier states itself.
module EncodingLimits {
  import opened Prelude
  import opened Ast
  import opened CheckRules
  import opened Bytecode
  import opened Verifier
  import opened Compiler
  import opened Artifact
  import opened Acceptance
  import opened CheckedPrograms
  import opened CheckedStructure
  import opened CanonicalShape
  import opened Machine
  import opened Encoding
  import Tokens
  import J = CanonicalJson

  // ---------- parts of a value ----------

  predicate Below(a: Size, b: Size) {
    a.depth <= b.depth && a.nodes <= b.nodes && a.longest <= b.longest && a.magnitude <= b.magnitude
  }

  lemma SizesArePositive(v: J.CanonicalValue)
    ensures SizeOf(v).depth >= 1 && SizeOf(v).nodes >= 1
  {
  }

  lemma {:induction false} MembersCount(entries: seq<J.Entry>)
    ensures SizeOfEntries(entries).nodes >= |entries|
  {
    if entries != [] {
      SizesArePositive(entries[0].value);
      MembersCount(entries[1..]);
    }
  }

  /** A member between others is no larger than its object, which has a node for each of the others. */
  lemma MemberSize(before: seq<J.Entry>, e: J.Entry, after: seq<J.Entry>)
    ensures var inner := SizeOfEntries(before + [e] + after);
            && Below(SizeOf(e.value), inner)
            && inner.nodes == SizeOfEntries(before).nodes + SizeOf(e.value).nodes + SizeOfEntries(after).nodes
            && inner.nodes >= |before| + SizeOf(e.value).nodes + |after|
    ensures BytesOfEntries(before + [e] + after) >= TextBytes(e.value)
  {
    hide SizeOf, SizeOfEntries, TextBytes, BytesOfEntries;
    EntriesAppend(before + [e], after);
    EntriesAppend(before, [e]);
    OneEntry(e);
    MembersCount(before);
    MembersCount(after);
    BytesAppend(before + [e], after);
    BytesAppend(before, [e]);
    OneEntryBytes(e);
  }

  lemma OneEntryBytes(e: J.Entry)
    ensures BytesOfEntries([e]) >= TextBytes(e.value)
  {
    hide TextBytes;
  }

  lemma {:induction false} BytesAppend(a: seq<J.Entry>, b: seq<J.Entry>)
    ensures BytesOfEntries(a + b) == BytesOfEntries(a) + BytesOfEntries(b)
  {
    if a == [] {
      assert a + b == b;
    } else {
      hide TextBytes;
      assert (a + b)[1..] == a[1..] + b;
      BytesAppend(a[1..], b);
    }
  }

  lemma {:induction false} ItemSize(items: seq<J.CanonicalValue>, k: nat)
    requires k < |items|
    ensures Below(SizeOf(items[k]), SizeOfItems(items))
    decreases |items|
  {
    if k > 0 {
      ItemSize(items[1..], k - 1);
    }
  }

  // ---------- trees ----------

  lemma LastMember(before: seq<J.Entry>, e: J.Entry)
    ensures var whole := SizeOf(J.Object(before + [e]));
            && whole.depth >= 1 + SizeOf(e.value).depth && whole.nodes >= 1 + |before| + SizeOf(e.value).nodes
  {
    hide SizeOfEntries;
    MemberSize(before, e, []);
    assert before + [e] + [] == before + [e];
  }

  lemma TaggedSize(tag: string, kind: string, fields: seq<J.Entry>, e: J.Entry)
    ensures var whole := SizeOf(Tagged(tag, kind, fields + [e]));
            && whole.depth >= 1 + SizeOf(e.value).depth && whole.nodes >= 2 + |fields| + SizeOf(e.value).nodes
  {
    hide SizeOf;
    assert [J.Entry(tag, J.Text(kind))] + (fields + [e]) == [J.Entry(tag, J.Text(kind))] + fields + [e];
    LastMember([J.Entry(tag, J.Text(kind))] + fields, e);
  }

  lemma LeafSize(tag: string, kind: string, e: J.Entry)
    ensures var whole := SizeOf(Tagged(tag, kind, [e]));
            && whole.depth >= 1 + SizeOf(e.value).depth && whole.depth >= 2
            && whole.nodes >= 2 + SizeOf(e.value).nodes && whole.nodes >= 3
  {
    hide SizeOf;
    SizesArePositive(e.value);
    TaggedSize(tag, kind, [], e);
    assert [] + [e] == [e];
  }

  lemma UnarySize(op: UnaryOperator, operand: J.CanonicalValue)
    ensures var whole := SizeOf(UnaryJson(op, operand));
            whole.depth >= 1 + SizeOf(operand).depth && whole.nodes >= 3 + SizeOf(operand).nodes
  {
    hide SizeOf, Tagged;
    var field, e := Field("operator", UnaryText(op)), J.Entry("operand", operand);
    assert [field] + [e] == [field, e];
    TaggedSize("kind", "unary", [field], e);
  }

  lemma BinarySize(op: BinaryOperator, left: J.CanonicalValue, right: J.CanonicalValue)
    ensures var whole := SizeOf(BinaryJson(op, left, right));
            && whole.depth >= 1 + SizeOf(left).depth && whole.depth >= 1 + SizeOf(right).depth
            && whole.nodes >= 3 + SizeOf(left).nodes + SizeOf(right).nodes
  {
    var before := [J.Entry("kind", J.Text("binary")), Field("operator", BinaryText(op))];
    var l, r := J.Entry("left", left), J.Entry("right", right);
    assert BinaryJson(op, left, right) == J.Object(before + [l] + [r]);
    ObjectOfTwo(before, l, r);
  }

  lemma ObjectOfTwo(before: seq<J.Entry>, l: J.Entry, r: J.Entry)
    ensures var whole := SizeOf(J.Object(before + [l] + [r]));
            && whole.depth >= 1 + SizeOf(l.value).depth && whole.depth >= 1 + SizeOf(r.value).depth
            && whole.nodes >= 1 + |before| + SizeOf(l.value).nodes + SizeOf(r.value).nodes
  {
    hide SizeOfEntries;
    MemberSize(before, l, [r]);
    OneEntry(r);
    MembersCount(before);
    LastMember(before + [l], r);
  }

  lemma CallSize(callee: string, arguments: seq<J.CanonicalValue>)
    ensures var whole := SizeOf(CallJson(callee, arguments));
            && whole.depth >= 2 + SizeOfItems(arguments).depth && whole.nodes >= 4 + SizeOfItems(arguments).nodes
  {
    hide SizeOfItems, Tagged;
    var field, e := Field("function", callee), J.Entry("arguments", J.Array(arguments));
    assert [field] + [e] == [field, e];
    TaggedSize("kind", "call", [field], e);
  }

  lemma {:induction false} ExpressionSize(e: Expression<string>)
    ensures Height(e) + 2 <= SizeOf(ExpressionJson(e)).depth && 3 * NodeCount(e) <= SizeOf(ExpressionJson(e)).nodes
    decreases e, 1
  {
    hide SizeOf, SizeOfItems, Tagged, UnaryJson, BinaryJson, CallJson;
    match e
    case Integer(text) => LeafSize("kind", "integer", Field("value", text));
    case Boolean(b) => LeafSize("kind", "boolean", J.Entry("value", J.Bool(b)));
    case Text(s) => LeafSize("kind", "string", Field("value", s));
    case Variable(name) => LeafSize("kind", "variable", Field("name", name));
    case Unary(op, operand) =>
      ExpressionSize(operand);
      UnarySize(op, ExpressionJson(operand));
    case Binary(op, left, right) =>
      ExpressionSize(left);
      ExpressionSize(right);
      BinarySize(op, ExpressionJson(left), ExpressionJson(right));
    case Call(callee, arguments) =>
      ExpressionsSize(arguments);
      CallSize(callee, ExpressionsJson(arguments));
  }

  lemma {:induction false} ExpressionsSize(es: seq<Expression<string>>)
    ensures es != [] ==> Heights(es) + 2 <= SizeOfItems(ExpressionsJson(es)).depth
    ensures 3 * NodeCounts(es) <= SizeOfItems(ExpressionsJson(es)).nodes
    decreases es, 0
  {
    if es != [] {
      ExpressionSize(es[0]);
      ExpressionsSize(es[1..]);
      hide SizeOf, ExpressionJson;
      var items := ExpressionsJson(es);
      assert items[0] == ExpressionJson(es[0]) && items[1..] == ExpressionsJson(es[1..]);
    }
  }

  /** A statement takes more levels and three times as many nodes as its expressions. */
  lemma StatementSize(s: Statement<string>)
    ensures Heights(StatementExpressions(s)) <= SizeOf(StatementJson(s)).depth
    ensures 3 * NodeCounts(StatementExpressions(s)) <= SizeOf(StatementJson(s)).nodes
  {
    hide SizeOf, SizeOfItems, Tagged, LetFields, RequestFields, Heights, NodeCounts;
    match s
    case LetStatement(name, ty, information, value) =>
      OneExpression(value);
      TaggedSize("kind", "let", LetFields(name, ty, information), J.Entry("value", ExpressionJson(value)));
    case ReturnStatement(None) => NoExpression();
    case ReturnStatement(Some(e)) =>
      OneExpression(e);
      LeafSize("kind", "return", J.Entry("value", ExpressionJson(e)));
    case RequestStatement(effect, authority, information, arguments) =>
      SomeExpressions(arguments);
      TaggedSize("kind", "request", RequestFields(effect, authority, information), J.Entry("arguments", J.Array(ExpressionsJson(arguments))));
    case ExpressionStatement(e) =>
      OneExpression(e);
      LeafSize("kind", "expression", J.Entry("expression", ExpressionJson(e)));
  }

  lemma NoExpression()
    ensures Heights([]) == 0 && NodeCounts([]) == 0
  {
  }

  lemma SomeExpressions(es: seq<Expression<string>>)
    ensures Heights(es) <= SizeOf(J.Array(ExpressionsJson(es))).depth
    ensures 3 * NodeCounts(es) <= SizeOf(J.Array(ExpressionsJson(es))).nodes
  {
    ExpressionsSize(es);
  }

  lemma OneExpression(e: Expression<string>)
    ensures Heights([e]) == Height(e) && NodeCounts([e]) == NodeCount(e)
    ensures Height(e) + 2 <= SizeOf(ExpressionJson(e)).depth && 3 * NodeCount(e) <= SizeOf(ExpressionJson(e)).nodes
  {
    ExpressionSize(e);
    hide SizeOf, ExpressionJson;
  }

  lemma {:induction false} BodySize(body: seq<Statement<string>>, k: nat)
    ensures k < |body| ==> Heights(StatementExpressions(body[k])) <= SizeOfItems(BodyJson(body)).depth
    ensures 3 * BodyNodes(body) <= SizeOfItems(BodyJson(body)).nodes
    decreases |body|
  {
    if body != [] {
      hide SizeOf, StatementJson;
      StatementSize(body[0]);
      BodySize(body[1..], if k > 0 then k - 1 else 0);
      var items := BodyJson(body);
      assert items[0] == StatementJson(body[0]) && items[1..] == BodyJson(body[1..]);
    }
  }

  lemma FunctionSize(f: Function<string>)
    ensures BodyWithin(f.body) || SizeOf(FunctionJson(f)).depth > MAX_ENCODED_DEPTH
    ensures 3 * BodyNodes(f.body) <= SizeOf(FunctionJson(f)).nodes
  {
    hide SizeOfEntries, SizeOfItems, Heights, BodyNodes, FunctionFields;
    LastMember(FunctionFields(f), J.Entry("body", J.Array(BodyJson(f.body))));
    BodySize(f.body, 0);
    forall k | 0 <= k < |f.body| ensures Heights(StatementExpressions(f.body[k])) <= SizeOf(FunctionJson(f)).depth {
      BodySize(f.body, k);
    }
  }

  lemma {:induction false} FunctionsSize(functions: seq<Function<string>>)
    ensures 3 * TotalNodes(functions) <= SizeOfItems(Mapped(FunctionJson, functions)).nodes
  {
    if functions != [] {
      var n := |functions| - 1;
      FunctionsSize(functions[..n]);
      FunctionSize(functions[n]);
      LastMapped(FunctionJson, functions);
      hide SizeOf, FunctionJson, BodyNodes;
      ItemsAppend(Mapped(FunctionJson, functions[..n]), [FunctionJson(functions[n])]);
      OneItem(FunctionJson(functions[n]));
    }
  }

  lemma LastMapped<T>(f: T -> J.CanonicalValue, items: seq<T>)
    requires items != []
    ensures Mapped(f, items) == Mapped(f, items[..|items| - 1]) + [f(items[|items| - 1])]
  {
  }

  /** A tree that can be encoded is within the limits on its depth and its nodes. */
  lemma EncodedTreesAreShallow(ast: CanonicalProgram)
    requires TreeEncodes(ast)
    ensures TreeWithinLimits(ast) && 3 * TotalNodes(ast.functions) <= MAX_ENCODED_NODES
  {
    hide SizeOf, TextBytes, TotalNodes, FunctionJson, BodyWithin, TreeJson;
    TreeEncoding(ast);
    TreeSize(ast);
    FunctionsSize(ast.functions);
    var items := Mapped(FunctionJson, ast.functions);
    forall i | 0 <= i < |ast.functions| ensures BodyWithin(ast.functions[i].body) {
      ItemSize(items, i);
      FunctionSize(ast.functions[i]);
    }
  }

  lemma TreeSize(ast: CanonicalProgram)
    ensures var items := SizeOfItems(Mapped(FunctionJson, ast.functions));
            SizeOf(TreeJson(ast)).depth >= items.depth && SizeOf(TreeJson(ast)).nodes >= items.nodes
  {
    hide SizeOfEntries, SizeOfItems, FunctionJson;
    LastMember([Field("schema", SchemaText(ast.schema)), Field("module", ast.moduleName)],
               J.Entry("functions", J.Array(Mapped(FunctionJson, ast.functions))));
  }

  // ---------- code ----------

  /** The artifact contains its tree. */
  lemma EncodedArtifactsHaveTrees(p: BytecodeProgram)
    requires ArtifactEncodes(p)
    ensures TreeEncodes(p.canonicalAst)
  {
    hide SizeOfEntries, SizeOfItems, BytesOfEntries, BytesOfItems, ArtifactFields, TreeJson;
    ArtifactEncoding(p);
    TreeEncoding(p.canonicalAst);
    var tree := J.Entry("canonical_ast", TreeJson(p.canonicalAst));
    var after := [Counter("entry_function", p.entryFunction)] + [J.Entry("functions", J.Array(Mapped(CodeJson, p.functions)))];
    MemberSize(ArtifactFields(p), tree, after);
    RegroupMembers(ArtifactFields(p), [tree], [Counter("entry_function", p.entryFunction)],
                   [J.Entry("functions", J.Array(Mapped(CodeJson, p.functions)))]);
  }

  lemma RegroupMembers(a: seq<J.Entry>, b: seq<J.Entry>, c: seq<J.Entry>, d: seq<J.Entry>)
    ensures a + b + c + d == a + b + (c + d)
  {
  }

  lemma {:induction false} ItemsCount(items: seq<J.CanonicalValue>, least: nat)
    requires forall i :: 0 <= i < |items| ==> SizeOf(items[i]).nodes >= least
    ensures SizeOfItems(items).nodes >= least * |items|
    decreases |items|
  {
    hide SizeOf;
    if items != [] {
      forall i | 0 <= i < |items| - 1 ensures SizeOf(items[1..][i]).nodes >= least {
        assert items[1..][i] == items[i + 1];
      }
      ItemsCount(items[1..], least);
      assert least * |items| == least + least * (|items| - 1);
    }
  }

  lemma InstructionSize(i: Instruction)
    ensures SizeOf(InstructionJson(i)).nodes >= 2
  {
    hide SizeOfEntries, ValueJson, RequestFields, Counter, OpcodeText;
    MembersCount(InstructionJson(i).entries);
  }

  /** A function takes two nodes for each of its instructions and one for each of its locals. */
  lemma CodeSize(f: BytecodeFunction)
    ensures SizeOf(CodeJson(f)).nodes >= |f.localTypes| + 2 * |f.instructions|
  {
    hide SizeOfEntries, FrameFields, EffectFields;
    var types, code := Mapped(TypeJson, f.localTypes), Mapped(InstructionJson, f.instructions);
    forall i | 0 <= i < |types| ensures SizeOf(types[i]).nodes >= 1 {
      SizesArePositive(types[i]);
    }
    ItemsCount(types, 1);
    forall i | 0 <= i < |code| ensures SizeOf(code[i]).nodes >= 2 {
      InstructionSize(f.instructions[i]);
    }
    ItemsCount(code, 2);
    CodeMembers(f, types, code);
  }

  lemma CodeMembers(f: BytecodeFunction, types: seq<J.CanonicalValue>, code: seq<J.CanonicalValue>)
    requires types == Mapped(TypeJson, f.localTypes) && code == Mapped(InstructionJson, f.instructions)
    ensures SizeOf(CodeJson(f)).nodes >= SizeOfItems(types).nodes + SizeOfItems(code).nodes
  {
    hide SizeOfEntries, SizeOfItems, FrameFields, EffectFields, Mapped;
    var l, r := J.Entry("local_types", J.Array(types)), J.Entry("instructions", J.Array(code));
    MemberSize(FrameFields(f), l, EffectFields(f));
    MemberSize(FrameFields(f) + [l] + EffectFields(f), r, []);
    assert FrameFields(f) + [l] + EffectFields(f) + [r] + [] == FrameFields(f) + [l] + EffectFields(f) + [r];
  }

  lemma {:induction false} CodesSize(functions: seq<BytecodeFunction>)
    ensures 2 * TotalInstructions(functions) <= SizeOfItems(Mapped(CodeJson, functions)).nodes
  {
    if functions != [] {
      var n := |functions| - 1;
      CodesSize(functions[..n]);
      CodeSize(functions[n]);
      LastMapped(CodeJson, functions);
      hide SizeOf, CodeJson;
      ItemsAppend(Mapped(CodeJson, functions[..n]), [CodeJson(functions[n])]);
      OneItem(CodeJson(functions[n]));
    }
  }

  lemma ArtifactSize(p: BytecodeProgram)
    ensures SizeOf(ArtifactJson(p)).nodes >= SizeOfItems(Mapped(CodeJson, p.functions)).nodes
  {
    hide SizeOfEntries, SizeOfItems, CodeJson, ArtifactFields, TreeJson;
    LastMember(ArtifactFields(p) + [J.Entry("canonical_ast", TreeJson(p.canonicalAst))] + [Counter("entry_function", p.entryFunction)],
               J.Entry("functions", J.Array(Mapped(CodeJson, p.functions))));
  }

  // ---------- stacks ----------

  lemma {:induction false} NeedBound(e: Expression<string>)
    ensures Need(e) <= NodeCount(e)
    decreases e, 1
  {
    match e
    case Unary(_, operand) => NeedBound(operand);
    case Binary(_, left, right) =>
      NeedBound(left);
      NeedBound(right);
    case Call(_, arguments) => NeedsBound(arguments);
    case _ =>
  }

  lemma {:induction false} NeedsBound(es: seq<Expression<string>>)
    ensures NeedAll(es) <= NodeCounts(es)
    decreases es, 0
  {
    if es != [] {
      NeedBound(es[0]);
      NeedsBound(es[1..]);
    }
  }

  lemma StatementNeedBound(s: Statement<string>)
    ensures StatementNeed(s) <= 1 + NodeCounts(StatementExpressions(s))
  {
    match s
    case LetStatement(_, _, _, value) => OneNeed(value);
    case ReturnStatement(None) =>
    case ReturnStatement(Some(e)) => OneNeed(e);
    case RequestStatement(_, _, _, arguments) => NeedsBound(arguments);
    case ExpressionStatement(e) => OneNeed(e);
  }

  lemma OneNeed(e: Expression<string>)
    ensures Need(e) <= NodeCounts([e])
  {
    NeedBound(e);
  }

  lemma {:induction false} BodyNeedBound(body: seq<Statement<string>>)
    ensures BodyNeed(body) <= 1 + BodyNodes(body)
  {
    if body != [] {
      hide StatementNeed, NodeCounts, StatementExpressions;
      StatementNeedBound(body[0]);
      BodyNeedBound(body[1..]);
    }
  }

  // ---------- all limits ----------

  /** Code of an artifact that can be encoded is within all limits of the structural verifier. */
  lemma EncodedArtifactsAreWithinLimits(ast: CanonicalProgram, p: BytecodeProgram)
    requires CompileCanonical(ast) == Some(p) && ArtifactEncodes(p)
    ensures WithinLimits(p)
  {
    hide SizeOf, TextBytes, CodeJson, BodyNeed, CompileCanonical, TotalInstructions, ArtifactJson;
    ArtifactEncoding(p);
    ArtifactSize(p);
    CodesSize(p.functions);
    var items := Mapped(CodeJson, p.functions);
    CompiledTree(ast, p);
    forall i | 0 <= i < |p.functions| ensures FunctionWithin(p, i) {
      ItemSize(items, i);
      CodeSize(p.functions[i]);
      CompiledLocals(ast, p, i);
      EncodedArtifactsHaveTrees(p);
      EncodedStack(p.canonicalAst, i);
    }
  }

  lemma CompiledTree(ast: CanonicalProgram, p: BytecodeProgram)
    requires CompileCanonical(ast) == Some(p)
    ensures p.canonicalAst == ast && |p.functions| == |ast.functions|
  {
  }

  lemma CompiledLocals(ast: CanonicalProgram, p: BytecodeProgram, i: nat)
    requires CompileCanonical(ast) == Some(p) && i < |p.functions|
    ensures p.functions[i].localCount == |p.functions[i].localTypes|
  {
    CompiledAt(ast, p, i);
  }

  lemma EncodedStack(ast: CanonicalProgram, i: nat)
    requires TreeEncodes(ast) && i < |ast.functions|
    ensures BodyNeed(ast.functions[i].body) <= MAX_STACK_DEPTH
  {
    hide SizeOf, TextBytes, FunctionJson, BodyNodes, BodyNeed, TreeJson;
    TreeEncoding(ast);
    TreeSize(ast);
    ItemSize(Mapped(FunctionJson, ast.functions), i);
    FunctionSize(ast.functions[i]);
    BodyNeedBound(ast.functions[i].body);
  }

  // ---------- requests ----------

  /** A text argument beyond the bound on strings leaves a request without an identity, whatever else it says. */
  lemma LongArgumentsHaveNoIdentity(id: RequestId, k: nat)
    requires !id.LegacyId? && k < |id.arguments|
    requires id.arguments[k].TextValue? && Tokens.Utf8Length(id.arguments[k].text) > MAX_ENCODED_TEXT
    ensures !IdEncodes(id)
  {
    hide SizeOf, TextBytes;
    var information := if id.InformationId? then Some(id.information) else None;
    LongArgument(id, information, k);
    assert EncodesId(IdJson(id), id);
  }

  lemma LongArgument(id: RequestId, information: Option<Label>, k: nat)
    requires !id.LegacyId? && k < |id.arguments| && id.arguments[k].TextValue?
    ensures SizeOf(RequestJson(id.semantic, id.index, id.function_, id.effect, id.slot, information, id.arguments)).longest
            >= Tokens.Utf8Length(id.arguments[k].text)
  {
    hide SizeOfEntries, SizeOfItems, HeadFields, Mapped, ValueJson;
    var head := HeadFields(id.semantic, id.index, id.function_, id.effect, id.slot, information);
    var items := Mapped(ValueJson, id.arguments);
    var e := J.Entry("arguments", J.Array(items));
    MemberSize(head, e, []);
    assert head + [e] + [] == head + [e];
    ItemSize(items, k);
    LongText(id.arguments[k].text);
  }

  lemma LongText(s: string)
    ensures SizeOf(ValueJson(TextValue(s))).longest >= Tokens.Utf8Length(s)
  {
    LastIsLongest("type", "string", Field("value", s));
  }

  lemma LastIsLongest(tag: string, kind: string, e: J.Entry)
    ensures SizeOf(Tagged(tag, kind, [e])).longest >= SizeOf(e.value).longest
  {
    hide SizeOfEntries;
    var first := J.Entry(tag, J.Text(kind));
    MemberSize([first], e, []);
    assert [first] + [e] + [] == [first] + [e];
  }
}
