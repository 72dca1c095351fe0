// How trees, artifacts and requests are encoded before they are digested, and the bounds that
// joan-canonical puts on an encoding. The language crates digest encodings only, so that a value
// beyond the bounds has no digest.
module Encoding {
  import opened Prelude
  import opened Ast
  import opened Bytecode
  import Tokens
  import J = CanonicalJson

  const MAX_ENCODED_BYTES: nat := 1_048_576
  const MAX_ENCODED_DEPTH: nat := 64
  const MAX_ENCODED_NODES: nat := 100_000
  const MAX_ENCODED_TEXT: nat := 262_144

  // ---------- sizes ----------

  /** Levels, nodes, bytes of the longest string or key, and the largest absolute value of an integer. */
  datatype Size = Size(depth: nat, nodes: nat, longest: nat, magnitude: nat)

  const NOTHING := Size(0, 0, 0, 0)

  function Beside(a: Size, b: Size): Size {
    Size(Max(a.depth, b.depth), a.nodes + b.nodes, Max(a.longest, b.longest), Max(a.magnitude, b.magnitude))
  }

  function Enclosed(inner: Size): Size {
    inner.(depth := inner.depth + 1, nodes := inner.nodes + 1)
  }

  function Keyed(key: string, value: Size): Size {
    value.(longest := Max(Tokens.Utf8Length(key), value.longest))
  }

  function SizeOf(v: J.CanonicalValue): Size
    decreases v, 1
  {
    match v
    case Integer(n) => Size(1, 1, 0, Abs(J.NumberOf(n)))
    case Text(s) => Size(1, 1, Tokens.Utf8Length(s), 0)
    case Array(items) => Enclosed(SizeOfItems(items))
    case Object(entries) => Enclosed(SizeOfEntries(entries))
    case _ => Size(1, 1, 0, 0)
  }

  function SizeOfItems(items: seq<J.CanonicalValue>): Size
    decreases items, 0
  {
    if items == [] then NOTHING else Beside(SizeOf(items[0]), SizeOfItems(items[1..]))
  }

  function SizeOfEntries(entries: seq<J.Entry>): Size
    decreases entries, 0
  {
    if entries == [] then NOTHING
    else Beside(Keyed(entries[0].key, SizeOf(entries[0].value)), SizeOfEntries(entries[1..]))
  }

  function Commas(n: nat): nat {
    if n == 0 then 0 else n - 1
  }

  /** Bytes of the text of a value, whatever the order of its members. */
  function TextBytes(v: J.CanonicalValue): nat
    decreases v, 1
  {
    match v
    case Null => 4
    case Bool(b) => if b then 4 else 5
    case Integer(n) => |ToDecimal(J.NumberOf(n))|
    case Text(s) => Tokens.Utf8Length(J.Quoted(s))
    case Array(items) => 2 + Commas(|items|) + BytesOfItems(items)
    case Object(entries) => 2 + Commas(|entries|) + BytesOfEntries(entries)
  }

  function BytesOfItems(items: seq<J.CanonicalValue>): nat
    decreases items, 0
  {
    if items == [] then 0 else TextBytes(items[0]) + BytesOfItems(items[1..])
  }

  function BytesOfEntries(entries: seq<J.Entry>): nat
    decreases entries, 0
  {
    if entries == [] then 0
    else Tokens.Utf8Length(J.Quoted(entries[0].key)) + 1 + TextBytes(entries[0].value) + BytesOfEntries(entries[1..])
  }

  predicate Fits(s: Size) {
    && s.depth <= MAX_ENCODED_DEPTH && s.nodes <= MAX_ENCODED_NODES && s.longest <= MAX_ENCODED_TEXT
    && s.magnitude <= J.MAX_SAFE_JSON_INTEGER
  }

  /** The value has an encoding, and with it a digest. */
  predicate Encodable(v: J.CanonicalValue) {
    TextBytes(v) <= MAX_ENCODED_BYTES && Fits(SizeOf(v))
  }

  // ---------- the check, node by node ----------

  lemma BesideAssociates(a: Size, b: Size, c: Size)
    ensures Beside(Beside(a, b), c) == Beside(a, Beside(b, c))
    ensures Beside(NOTHING, a) == a == Beside(a, NOTHING)
  {
  }

  lemma {:induction false} ItemsAppend(a: seq<J.CanonicalValue>, b: seq<J.CanonicalValue>)
    ensures SizeOfItems(a + b) == Beside(SizeOfItems(a), SizeOfItems(b))
  {
    hide Beside, SizeOf, Keyed;
    BesideAssociates(SizeOfItems(b), NOTHING, NOTHING);
    if a == [] {
      assert a + b == b;
    } else {
      assert (a + b)[1..] == a[1..] + b;
      ItemsAppend(a[1..], b);
      BesideAssociates(SizeOf(a[0]), SizeOfItems(a[1..]), SizeOfItems(b));
    }
  }

  lemma {:induction false} EntriesAppend(a: seq<J.Entry>, b: seq<J.Entry>)
    ensures SizeOfEntries(a + b) == Beside(SizeOfEntries(a), SizeOfEntries(b))
  {
    hide Beside, SizeOf, Keyed;
    BesideAssociates(SizeOfEntries(b), NOTHING, NOTHING);
    if a == [] {
      assert a + b == b;
    } else {
      assert (a + b)[1..] == a[1..] + b;
      EntriesAppend(a[1..], b);
      BesideAssociates(Keyed(a[0].key, SizeOf(a[0].value)), SizeOfEntries(a[1..]), SizeOfEntries(b));
    }
  }

  lemma CutAt<T>(s: seq<T>, k: nat)
    requires k < |s|
    ensures s[..k + 1] == s[..k] + [s[k]] && s == s[..k + 1] + s[k + 1..]
  {
  }

  lemma ItemsAt(items: seq<J.CanonicalValue>, k: nat)
    requires k < |items|
    ensures SizeOfItems(items[..k + 1]) == Beside(SizeOfItems(items[..k]), SizeOf(items[k]))
    ensures SizeOfItems(items) == Beside(SizeOfItems(items[..k + 1]), SizeOfItems(items[k + 1..]))
  {
    hide SizeOf, SizeOfItems, Beside;
    CutAt(items, k);
    ItemsAppend(items[..k], [items[k]]);
    ItemsAppend(items[..k + 1], items[k + 1..]);
    OneItem(items[k]);
  }

  lemma OneItem(v: J.CanonicalValue)
    ensures SizeOfItems([v]) == SizeOf(v)
  {
    assert [v][1..] == [];
    hide SizeOf;
  }

  lemma OneEntry(e: J.Entry)
    ensures SizeOfEntries([e]) == Keyed(e.key, SizeOf(e.value))
  {
    assert [e][1..] == [];
    hide SizeOf, Keyed;
  }

  lemma EntriesAt(entries: seq<J.Entry>, k: nat)
    requires k < |entries|
    ensures SizeOfEntries(entries[..k + 1]) ==
            Beside(SizeOfEntries(entries[..k]), Keyed(entries[k].key, SizeOf(entries[k].value)))
    ensures SizeOfEntries(entries) == Beside(SizeOfEntries(entries[..k + 1]), SizeOfEntries(entries[k + 1..]))
  {
    hide SizeOf, SizeOfEntries, Beside, Keyed;
    CutAt(entries, k);
    EntriesAppend(entries[..k], [entries[k]]);
    EntriesAppend(entries[..k + 1], entries[k + 1..]);
    OneEntry(entries[k]);
  }

  /** What lies at most `levels` deep, has at most `nodes` nodes and no overlong string. */
  predicate Within(s: Size, levels: int, nodes: int) {
    s.depth <= levels && s.nodes <= nodes && s.longest <= MAX_ENCODED_TEXT
  }

  lemma WithinBeside(a: Size, b: Size, levels: int, nodes: int)
    ensures Within(Beside(a, b), levels, nodes) <==> Within(a, levels, nodes) && Within(b, levels, nodes - a.nodes)
    ensures Beside(a, b).nodes == a.nodes + b.nodes
  {
  }

  lemma WithinKeyed(key: string, value: Size, levels: int, nodes: int)
    ensures Within(Keyed(key, value), levels, nodes) <==>
            Tokens.Utf8Length(key) <= MAX_ENCODED_TEXT && Within(value, levels, nodes)
    ensures Keyed(key, value).nodes == value.nodes
  {
  }

  /** Counts the nodes of a value on top of those before it, and stops at the first bound that is exceeded. */
  method ValidateNode(v: J.CanonicalValue, depth: nat, before: nat) returns (ok: bool, nodes: nat)
    ensures ok <==> Within(SizeOf(v), MAX_ENCODED_DEPTH + 1 - depth, MAX_ENCODED_NODES - before)
    ensures ok ==> nodes == before + SizeOf(v).nodes
    decreases v, 1
  {
    nodes := before + 1;
    if depth > MAX_ENCODED_DEPTH || nodes > MAX_ENCODED_NODES {
      return false, nodes;
    }
    match v
    case Text(s) => ok := Tokens.Utf8Length(s) <= MAX_ENCODED_TEXT;
    case Array(items) => ok, nodes := ValidateItems(items, depth + 1, nodes);
    case Object(entries) => ok, nodes := ValidateEntries(entries, depth + 1, nodes);
    case _ => ok := true;
  }

  method ValidateItems(items: seq<J.CanonicalValue>, depth: nat, before: nat) returns (ok: bool, nodes: nat)
    requires depth <= MAX_ENCODED_DEPTH + 1 && before <= MAX_ENCODED_NODES
    ensures ok <==> Within(SizeOfItems(items), MAX_ENCODED_DEPTH + 1 - depth, MAX_ENCODED_NODES - before)
    ensures ok ==> nodes == before + SizeOfItems(items).nodes
    decreases items, 0
  {
    hide Beside, SizeOf;
    nodes := before;
    ghost var levels, room := MAX_ENCODED_DEPTH + 1 - depth, MAX_ENCODED_NODES - before;
    for k := 0 to |items|
      invariant nodes == before + SizeOfItems(items[..k]).nodes
      invariant Within(SizeOfItems(items[..k]), MAX_ENCODED_DEPTH + 1 - depth, MAX_ENCODED_NODES - before)
    {
      ItemsAt(items, k);
      ghost var front, item := SizeOfItems(items[..k]), SizeOf(items[k]);
      WithinBeside(front, item, levels, room);
      WithinBeside(Beside(front, item), SizeOfItems(items[k + 1..]), levels, room);
      ok, nodes := ValidateNode(items[k], depth, nodes);
      if !ok {
        return;
      }
    }
    assert items[..|items|] == items;
    ok := true;
  }

  method ValidateEntries(entries: seq<J.Entry>, depth: nat, before: nat) returns (ok: bool, nodes: nat)
    requires depth <= MAX_ENCODED_DEPTH + 1 && before <= MAX_ENCODED_NODES
    ensures ok <==> Within(SizeOfEntries(entries), MAX_ENCODED_DEPTH + 1 - depth, MAX_ENCODED_NODES - before)
    ensures ok ==> nodes == before + SizeOfEntries(entries).nodes
    decreases entries, 0
  {
    hide Beside, SizeOf, Keyed;
    nodes := before;
    ghost var levels, room := MAX_ENCODED_DEPTH + 1 - depth, MAX_ENCODED_NODES - before;
    for k := 0 to |entries|
      invariant nodes == before + SizeOfEntries(entries[..k]).nodes
      invariant Within(SizeOfEntries(entries[..k]), MAX_ENCODED_DEPTH + 1 - depth, MAX_ENCODED_NODES - before)
    {
      EntriesAt(entries, k);
      ghost var front, value := SizeOfEntries(entries[..k]), SizeOf(entries[k].value);
      ghost var member := Keyed(entries[k].key, value);
      WithinKeyed(entries[k].key, value, levels, room - front.nodes);
      WithinBeside(front, member, levels, room);
      WithinBeside(Beside(front, member), SizeOfEntries(entries[k + 1..]), levels, room);
      if Tokens.Utf8Length(entries[k].key) > MAX_ENCODED_TEXT {
        return false, nodes;
      }
      ok, nodes := ValidateNode(entries[k].value, depth, nodes);
      if !ok {
        return;
      }
    }
    assert entries[..|entries|] == entries;
    ok := true;
  }

  lemma {:induction false} SafeIntegers(v: J.CanonicalValue)
    ensures J.Jce1Valid(v) <==> SizeOf(v).magnitude <= J.MAX_SAFE_JSON_INTEGER
    decreases v, 1
  {
    match v
    case Array(items) => SafeItems(items);
    case Object(entries) => SafeEntries(entries);
    case _ =>
  }

  lemma {:induction false} SafeItems(items: seq<J.CanonicalValue>)
    ensures (forall i :: 0 <= i < |items| ==> J.Jce1Valid(items[i])) <==> SizeOfItems(items).magnitude <= J.MAX_SAFE_JSON_INTEGER
    decreases items, 0
  {
    if items != [] {
      SafeIntegers(items[0]);
      SafeItems(items[1..]);
      assert forall i :: 0 < i < |items| ==> items[i] == items[1..][i - 1];
      assert forall i :: 0 <= i < |items| - 1 ==> items[1..][i] == items[i + 1];
    }
  }

  lemma {:induction false} SafeEntries(entries: seq<J.Entry>)
    ensures (forall i :: 0 <= i < |entries| ==> J.Jce1Valid(entries[i].value)) <==>
            SizeOfEntries(entries).magnitude <= J.MAX_SAFE_JSON_INTEGER
    decreases entries, 0
  {
    if entries != [] {
      SafeIntegers(entries[0].value);
      SafeEntries(entries[1..]);
      assert forall i :: 0 < i < |entries| ==> entries[i] == entries[1..][i - 1];
      assert forall i :: 0 <= i < |entries| - 1 ==> entries[1..][i] == entries[i + 1];
    }
  }

  /** The three checks on a value before it is encoded: its text, its nodes and its integers. */
  method CheckEncodable(v: J.CanonicalValue) returns (ok: bool)
    ensures ok <==> Encodable(v)
  {
    SafeIntegers(v);
    if TextBytes(v) > MAX_ENCODED_BYTES {
      return false;
    }
    var nodes;
    ok, nodes := ValidateNode(v, 1, 0);
    ok := ok && J.Jce1Valid(v);
  }

  // ---------- the encoding of a tree ----------

  function Tagged(tag: string, kind: string, fields: seq<J.Entry>): J.CanonicalValue {
    J.Object([J.Entry(tag, J.Text(kind))] + fields)
  }

  function Field(name: string, text: string): J.Entry {
    J.Entry(name, J.Text(text))
  }

  /** Counters of artifacts have 64 bits. */
  function Counter(name: string, n: nat): J.Entry {
    J.Entry(name, J.Integer(J.Unsigned(if n <= U64_MAX then n else U64_MAX)))
  }

  function TypeText(t: Type): string {
    match t
    case I64 => "i64"
    case Bool => "bool"
    case String => "string"
    case Unit => "unit"
  }

  function LabelJson(l: Label): J.CanonicalValue {
    match l
    case Public => Tagged("class", "public", [])
    case Secret(tenant, purpose) => Tagged("class", "secret", [Field("tenant", tenant), Field("purpose", purpose)])
  }

  /** A label that is left out where there is none. */
  function LabelField(name: string, information: Option<Label>): seq<J.Entry> {
    match information
    case None => []
    case Some(l) => [J.Entry(name, LabelJson(l))]
  }

  function UnaryText(op: UnaryOperator): string {
    match op
    case Minus => "negate"
    case Bang => "not"
  }

  function BinaryText(op: BinaryOperator): string {
    match op
    case Add => "add"
    case Subtract => "subtract"
    case Multiply => "multiply"
    case Divide => "divide"
    case Remainder => "remainder"
    case Equal => "equal"
    case NotEqual => "not-equal"
    case Less => "less"
    case LessEqual => "less-equal"
    case Greater => "greater"
    case GreaterEqual => "greater-equal"
    case And => "and"
    case Or => "or"
  }

  function UnaryJson(op: UnaryOperator, operand: J.CanonicalValue): J.CanonicalValue {
    Tagged("kind", "unary", [Field("operator", UnaryText(op)), J.Entry("operand", operand)])
  }

  function BinaryJson(op: BinaryOperator, left: J.CanonicalValue, right: J.CanonicalValue): J.CanonicalValue {
    Tagged("kind", "binary", [Field("operator", BinaryText(op)), J.Entry("left", left), J.Entry("right", right)])
  }

  function CallJson(callee: string, arguments: seq<J.CanonicalValue>): J.CanonicalValue {
    Tagged("kind", "call", [Field("function", callee), J.Entry("arguments", J.Array(arguments))])
  }

  function ExpressionJson(e: Expression<string>): J.CanonicalValue
    decreases e, 1
  {
    match e
    case Integer(text) => Tagged("kind", "integer", [Field("value", text)])
    case Boolean(b) => Tagged("kind", "boolean", [J.Entry("value", J.Bool(b))])
    case Text(s) => Tagged("kind", "string", [Field("value", s)])
    case Variable(name) => Tagged("kind", "variable", [Field("name", name)])
    case Unary(op, operand) => UnaryJson(op, ExpressionJson(operand))
    case Binary(op, left, right) => BinaryJson(op, ExpressionJson(left), ExpressionJson(right))
    case Call(callee, arguments) => CallJson(callee, ExpressionsJson(arguments))
  }

  function ExpressionsJson(es: seq<Expression<string>>): seq<J.CanonicalValue>
    decreases es, 0
  {
    if es == [] then [] else [ExpressionJson(es[0])] + ExpressionsJson(es[1..])
  }

  function LetFields(name: string, ty: Type, information: Option<Label>): seq<J.Entry> {
    [Field("name", name), Field("value_type", TypeText(ty))] + LabelField("information", information)
  }

  function RequestFields(effect: string, authority: Option<string>, information: Option<Label>): seq<J.Entry> {
    [Field("effect", effect)] + TextField("authority", authority) + LabelField("information", information)
  }

  function StatementJson(s: Statement<string>): J.CanonicalValue {
    match s
    case LetStatement(name, ty, information, value) =>
      Tagged("kind", "let", LetFields(name, ty, information) + [J.Entry("value", ExpressionJson(value))])
    case ReturnStatement(None) => Tagged("kind", "return", [J.Entry("value", J.Null)])
    case ReturnStatement(Some(e)) => Tagged("kind", "return", [J.Entry("value", ExpressionJson(e))])
    case RequestStatement(effect, authority, information, arguments) =>
      Tagged("kind", "request",
             RequestFields(effect, authority, information) + [J.Entry("arguments", J.Array(ExpressionsJson(arguments)))])
    case ExpressionStatement(e) => Tagged("kind", "expression", [J.Entry("expression", ExpressionJson(e))])
  }

  /** A text that is left out where there is none. */
  function TextField(name: string, text: Option<string>): seq<J.Entry> {
    match text
    case None => []
    case Some(t) => [Field(name, t)]
  }

  function BodyJson(body: seq<Statement<string>>): seq<J.CanonicalValue> {
    if body == [] then [] else [StatementJson(body[0])] + BodyJson(body[1..])
  }

  function ParameterJson(p: Parameter): J.CanonicalValue {
    J.Object([Field("name", p.name), Field("value_type", TypeText(p.valueType))] + LabelField("information", p.information))
  }

  function AuthorityJson(a: Authority): J.CanonicalValue {
    J.Object([Field("name", a.name), Field("effect", a.effect)])
  }

  function TextJson(text: string): J.CanonicalValue {
    J.Text(text)
  }

  function Mapped<T>(f: T -> J.CanonicalValue, items: seq<T>): (r: seq<J.CanonicalValue>)
    ensures |r| == |items| && forall i :: 0 <= i < |r| ==> r[i] == f(items[i])
  {
    seq(|items|, i requires 0 <= i < |items| => f(items[i]))
  }

  function AuthoritiesField(name: string, authorities: Option<seq<Authority>>): seq<J.Entry> {
    match authorities
    case None => []
    case Some(items) => [J.Entry(name, J.Array(Mapped(AuthorityJson, items)))]
  }

  function FunctionFields(f: Function<string>): seq<J.Entry> {
    [Field("name", f.name), J.Entry("parameters", J.Array(Mapped(ParameterJson, f.parameters))),
     Field("return_type", TypeText(f.returnType))]
    + LabelField("return_information", f.returnInformation)
    + [J.Entry("effects", J.Array(Mapped(TextJson, f.effects)))]
    + AuthoritiesField("authorities", f.authorities)
  }

  function FunctionJson(f: Function<string>): J.CanonicalValue {
    J.Object(FunctionFields(f) + [J.Entry("body", J.Array(BodyJson(f.body)))])
  }

  function SchemaText(schema: Schema): string {
    match schema
    case Legacy => "joan.canonical-ast.v0"
    case Linear => "joan.canonical-ast.v1"
    case Information => "joan.canonical-ast.v2"
    case Unknown(text) => text
  }

  function TreeJson(ast: CanonicalProgram): J.CanonicalValue {
    J.Object([Field("schema", SchemaText(ast.schema)), Field("module", ast.moduleName)]
             + [J.Entry("functions", J.Array(Mapped(FunctionJson, ast.functions)))])
  }

  predicate EncodesTree(v: J.CanonicalValue, ast: CanonicalProgram) {
    v == TreeJson(ast)
  }

  /** The tree can be encoded and has an identity. */
  ghost predicate TreeEncodes(ast: CanonicalProgram) {
    forall v :: EncodesTree(v, ast) ==> Encodable(v)
  }

  lemma TreeEncoding(ast: CanonicalProgram)
    ensures TreeEncodes(ast) <==> Encodable(TreeJson(ast))
  {
    assert EncodesTree(TreeJson(ast), ast);
    hide TreeJson, Encodable;
  }

  // ---------- the encoding of an artifact ----------

  // Every digest has 64 hexadecimal digits; which ones makes no difference to its size.
  const DIGEST_TEXT: string := "0000000000000000000000000000000000000000000000000000000000000000"

  function DomainText(schema: Schema): string {
    match schema
    case Legacy => "joan.language-canonical-ast.v1"
    case Linear => "joan.language-canonical-ast.v2"
    case Information => "joan.language-canonical-ast.v3"
    case Unknown(text) => text
  }

  function DigestJson(d: Digest): J.CanonicalValue {
    J.Object([Field("algorithm", "sha256"), Field("profile", "joan-hash-v1"), Field("domain", DomainText(d.schema)),
              Field("value", DIGEST_TEXT)])
  }

  function IdentitySchemaText(schema: Schema): string {
    match schema
    case Legacy => "joan.canonical-ast-identity.v0"
    case Linear => "joan.canonical-ast-identity.v1"
    case Information => "joan.canonical-ast-identity.v2"
    case Unknown(text) => text
  }

  function IdentityJson(i: AstIdentity): J.CanonicalValue {
    J.Object([Field("schema", IdentitySchemaText(i.astSchema)), Field("encoding", "JCE1"), Field("ast_schema", SchemaText(i.astSchema)),
              J.Entry("digest", DigestJson(i.digest))])
  }

  function ValueJson(v: Value): J.CanonicalValue {
    match v
    case IntValue(n) => Tagged("type", "i64", [Field("value", ToDecimal(n))])
    case BoolValue(b) => Tagged("type", "bool", [J.Entry("value", J.Bool(b))])
    case TextValue(s) => Tagged("type", "string", [Field("value", s)])
    case UnitValue => Tagged("type", "unit", [])
  }

  function OpcodeText(op: Opcode): string {
    match op
    case AddI64 => "add"
    case SubI64 => "subtract"
    case MulI64 => "multiply"
    case DivI64 => "divide"
    case RemI64 => "remainder"
    case EqualAny => "equal"
    case NotEqualAny => "not-equal"
    case LessI64 => "less"
    case LessEqualI64 => "less-equal"
    case GreaterI64 => "greater"
    case GreaterEqualI64 => "greater-equal"
    case AndBool => "and"
    case OrBool => "or"
  }

  function InstructionJson(i: Instruction): J.CanonicalValue {
    match i
    case Push(v) => Tagged("op", "push", [J.Entry("value", ValueJson(v))])
    case LoadLocal(slot) => Tagged("op", "load-local", [Counter("slot", slot)])
    case StoreLocal(slot) => Tagged("op", "store-local", [Counter("slot", slot)])
    case Pop => Tagged("op", "pop", [])
    case Negate => Tagged("op", "negate", [])
    case Not => Tagged("op", "not", [])
    case Operate(op) => Tagged("op", OpcodeText(op), [])
    case Invoke(target, n) => Tagged("op", "call", [Counter("function", target), Counter("argument_count", n)])
    case Request(effect, authority, information, n) =>
      Tagged("op", "request", RequestFields(effect, authority, information) + [Counter("argument_count", n)])
    case Return => Tagged("op", "return", [])
  }

  function TypeJson(t: Type): J.CanonicalValue {
    J.Text(TypeText(t))
  }

  function LabelsField(name: string, labels: Option<seq<Label>>): seq<J.Entry> {
    match labels
    case None => []
    case Some(items) => [J.Entry(name, J.Array(Mapped(LabelJson, items)))]
  }

  function FrameFields(f: BytecodeFunction): seq<J.Entry> {
    [Field("name", f.name), Counter("parameter_count", f.parameterCount),
     J.Entry("parameter_types", J.Array(Mapped(TypeJson, f.parameterTypes)))]
    + LabelsField("parameter_information", f.parameterInformation)
    + [Counter("local_count", f.localCount)]
  }

  function EffectFields(f: BytecodeFunction): seq<J.Entry> {
    LabelsField("local_information", f.localInformation)
    + [Field("return_type", TypeText(f.returnType))]
    + LabelField("return_information", f.returnInformation)
    + [J.Entry("effects", J.Array(Mapped(TextJson, f.effects)))]
    + AuthoritiesField("authority_slots", f.authoritySlots)
  }

  function CodeJson(f: BytecodeFunction): J.CanonicalValue {
    J.Object(FrameFields(f) + [J.Entry("local_types", J.Array(Mapped(TypeJson, f.localTypes)))]
             + EffectFields(f) + [J.Entry("instructions", J.Array(Mapped(InstructionJson, f.instructions)))])
  }

  function ArtifactSchemaText(schema: Schema): string {
    match schema
    case Legacy => "joan.bytecode-program.v1"
    case Linear => "joan.bytecode-program.v2"
    case Information => "joan.bytecode-program.v3"
    case Unknown(text) => text
  }

  function ArtifactFields(p: BytecodeProgram): seq<J.Entry> {
    [Field("schema", ArtifactSchemaText(p.schema)), Field("module", p.moduleName),
     J.Entry("semantic_digest", DigestJson(p.semanticDigest)), J.Entry("semantic_identity", IdentityJson(p.semanticIdentity))]
  }

  function ArtifactJson(p: BytecodeProgram): J.CanonicalValue {
    J.Object(ArtifactFields(p) + [J.Entry("canonical_ast", TreeJson(p.canonicalAst))]
             + [Counter("entry_function", p.entryFunction)] + [J.Entry("functions", J.Array(Mapped(CodeJson, p.functions)))])
  }

  predicate EncodesArtifact(v: J.CanonicalValue, p: BytecodeProgram) {
    v == ArtifactJson(p)
  }

  /** The artifact can be encoded and has a digest. */
  ghost predicate ArtifactEncodes(p: BytecodeProgram) {
    forall v :: EncodesArtifact(v, p) ==> Encodable(v)
  }

  lemma ArtifactEncoding(p: BytecodeProgram)
    ensures ArtifactEncodes(p) <==> Encodable(ArtifactJson(p))
  {
    assert EncodesArtifact(ArtifactJson(p), p);
    hide ArtifactJson, Encodable;
  }

  // ---------- the encoding of a request ----------

  /** What the identity of a request covers; the label belongs to the information-flow profile. */
  function RequestJson(semantic: Digest, index: nat, function_: string, effect: string, slot: string, information: Option<Label>,
                       arguments: seq<Value>): J.CanonicalValue
  {
    J.Object(HeadFields(semantic, index, function_, effect, slot, information)
             + [J.Entry("arguments", J.Array(Mapped(ValueJson, arguments)))])
  }

  function HeadFields(semantic: Digest, index: nat, function_: string, effect: string, slot: string, information: Option<Label>): seq<J.Entry> {
    [J.Entry("semantic_digest", DigestJson(semantic)), Counter("request_index", index), Field("function", function_),
     Field("effect", effect), Field("authority_slot", slot)]
    + LabelField("information", information)
  }
}
