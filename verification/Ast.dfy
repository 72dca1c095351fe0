// The abstract syntax of joan-ast: types, information labels, expressions and
// programs, and the projection of a parsed program to its canonical form.
module Ast {
  import opened Prelude

  datatype Type = I64 | Bool | String | Unit

  // ---------- information labels ----------

  datatype Label = Public | Secret(tenant: string, purpose: string) {

    predicate CanFlowTo(destination: Label) {
      this == destination || Public?
    }

    function Join(other: Label): Option<Label> {
      if this == other then Some(this)
      else if Public? then Some(other)
      else if other.Public? then Some(this)
      else None
    }
  }

  lemma FlowIsPartialOrder(a: Label, b: Label, c: Label)
    ensures a.CanFlowTo(a)
    ensures a.CanFlowTo(b) && b.CanFlowTo(a) ==> a == b
    ensures a.CanFlowTo(b) && b.CanFlowTo(c) ==> a.CanFlowTo(c)
  {
  }

  /** Join is the least upper bound, and fails exactly when there is no upper bound. */
  lemma JoinIsLeastUpperBound(a: Label, b: Label)
    ensures a.Join(b) == b.Join(a)
    ensures a.Join(b).None? <==> !exists c: Label :: a.CanFlowTo(c) && b.CanFlowTo(c)
    ensures a.Join(b).Some? ==>
              forall c: Label :: a.Join(b).value.CanFlowTo(c) <==> a.CanFlowTo(c) && b.CanFlowTo(c)
  {
    if a.Join(b).Some? {
      var j := a.Join(b).value;
      assert a.CanFlowTo(j) && b.CanFlowTo(j);
    }
  }

  /** The label of a boundary that may be left unlabelled. */
  function LabelOr(information: Option<Label>): Label {
    match information
    case Some(l) => l
    case None => Public
  }

  // ---------- operators ----------

  datatype UnaryOperator = Minus | Bang

  datatype BinaryOperator =
    | Add | Subtract | Multiply | Divide | Remainder
    | Equal | NotEqual | Less | LessEqual | Greater | GreaterEqual
    | And | Or

  // ---------- programs, over the representation of integer literals ----------

  datatype Expression<+N> =
    | Integer(value: N)
    | Boolean(truth: bool)
    | Text(text: string)
    | Variable(name: string)
    | Unary(unop: UnaryOperator, operand: Expression<N>)
    | Binary(binop: BinaryOperator, left: Expression<N>, right: Expression<N>)
    | Call(callee: string, arguments: seq<Expression<N>>)

  datatype Statement<+N> =
    | LetStatement(name: string, valueType: Type, information: Option<Label>, value: Expression<N>)
    | ReturnStatement(result: Option<Expression<N>>)
    | RequestStatement(effect: string, authority: Option<string>, information: Option<Label>,
                       arguments: seq<Expression<N>>)
    | ExpressionStatement(expression: Expression<N>)

  datatype Parameter = Parameter(name: string, valueType: Type, information: Option<Label>)

  datatype Authority = Authority(name: string, effect: string)

  datatype Function<+N> = Function(
    name: string,
    parameters: seq<Parameter>,
    returnType: Type,
    returnInformation: Option<Label>,
    effects: seq<string>,
    authorities: Option<seq<Authority>>,
    body: seq<Statement<N>>)

  // A parsed module: integer literals are i64 values.
  datatype Program = Program(informationFlow: bool, moduleName: string, functions: seq<Function<i64>>)

  // Known schema identifiers of canonical syntax trees and bytecode, and any other text.
  datatype Schema = Legacy | Linear | Information | Unknown(text: string) {

    predicate IsLinear() {
      Linear? || Information?
    }

    predicate IsInformationFlow() {
      Information?
    }
  }

  // The canonical tree: integer literals are decimal text, declarations are sorted.
  datatype CanonicalProgram = CanonicalProgram(
    schema: Schema,
    moduleName: string,
    functions: seq<Function<string>>)

  function AuthorityNames(items: seq<Authority>): (r: seq<string>)
    ensures |r| == |items|
    ensures forall i :: 0 <= i < |items| ==> r[i] == items[i].name
  {
    seq(|items|, i requires 0 <= i < |items| => items[i].name)
  }

  /** Name-to-effect map of declared slots; a later slot shadows an earlier one. */
  function AuthorityMap(items: seq<Authority>): map<string, string> {
    if items == [] then map[]
    else
      var n := |items| - 1;
      AuthorityMap(items[..n])[items[n].name := items[n].effect]
  }

  function FunctionNames<N>(functions: seq<Function<N>>): (r: seq<string>)
    ensures |r| == |functions|
    ensures forall i :: 0 <= i < |functions| ==> r[i] == functions[i].name
  {
    seq(|functions|, i requires 0 <= i < |functions| => functions[i].name)
  }

  // ---------- stable sorting by name ----------

  /** Insert in front of every item whose key is not smaller, so equal keys keep their order. */
  function InsertByKey<T>(key: T -> string, x: T, s: seq<T>): seq<T> {
    if s != [] && StrLess(key(s[0]), key(x)) then [s[0]] + InsertByKey(key, x, s[1..]) else [x] + s
  }

  function SortByKey<T>(key: T -> string, s: seq<T>): seq<T> {
    if s == [] then [] else InsertByKey(key, s[0], SortByKey(key, s[1..]))
  }

  lemma {:induction false} InsertKeeps<T>(key: T -> string, x: T, s: seq<T>)
    ensures multiset(InsertByKey(key, x, s)) == multiset(s) + multiset{x}
  {
    if s != [] && StrLess(key(s[0]), key(x)) {
      InsertKeeps(key, x, s[1..]);
      assert s == [s[0]] + s[1..];
    }
  }

  /** Sorting rearranges and loses nothing. */
  lemma {:induction false} SortIsPermutation<T>(key: T -> string, s: seq<T>)
    ensures multiset(SortByKey(key, s)) == multiset(s)
  {
    if s != [] {
      SortIsPermutation(key, s[1..]);
      InsertKeeps(key, s[0], SortByKey(key, s[1..]));
      assert s == [s[0]] + s[1..];
    }
  }

  ghost predicate SortedByKey<T>(key: T -> string, s: seq<T>) {
    forall i, j :: 0 <= i < j < |s| ==> !StrLess(key(s[j]), key(s[i]))
  }

  lemma {:induction false} InsertSorts<T>(key: T -> string, x: T, s: seq<T>)
    requires SortedByKey(key, s)
    ensures SortedByKey(key, InsertByKey(key, x, s))
  {
    if s != [] {
      var first := s[0];
      if StrLess(key(first), key(x)) {
        InsertSorts(key, x, s[1..]);
        InsertKeeps(key, x, s[1..]);
        var rest := InsertByKey(key, x, s[1..]);
        forall i | 0 <= i < |rest| ensures !StrLess(key(rest[i]), key(first)) {
          assert rest[i] in multiset(rest);
          StrLessTotal(key(x), key(first));
        }
      } else {
        forall i | 0 <= i < |s| ensures !StrLess(key(s[i]), key(x)) {
          StrLessTotal(key(first), key(s[i]));
          if StrLess(key(s[i]), key(x)) && i > 0 && StrLess(key(first), key(s[i])) {
            StrLessTransitive(key(first), key(s[i]), key(x));
          }
        }
      }
    }
  }

  lemma {:induction false} SortSorts<T>(key: T -> string, s: seq<T>)
    ensures SortedByKey(key, SortByKey(key, s))
  {
    if s != [] {
      SortSorts(key, s[1..]);
      InsertSorts(key, s[0], SortByKey(key, s[1..]));
    }
  }

  // ---------- the canonical projection ----------

  function CanonicalExpression(e: Expression<i64>): Expression<string>
    decreases e, 1
  {
    match e
    case Integer(value) => Integer(ToDecimal(value))
    case Boolean(truth) => Boolean(truth)
    case Text(text) => Text(text)
    case Variable(name) => Variable(name)
    case Unary(op, operand) => Unary(op, CanonicalExpression(operand))
    case Binary(op, left, right) => Binary(op, CanonicalExpression(left), CanonicalExpression(right))
    case Call(callee, arguments) => Call(callee, CanonicalExpressions(arguments))
  }

  function CanonicalExpressions(es: seq<Expression<i64>>): (r: seq<Expression<string>>)
    ensures |r| == |es|
    decreases es, 0
  {
    if es == [] then [] else [CanonicalExpression(es[0])] + CanonicalExpressions(es[1..])
  }

  function CanonicalStatement(s: Statement<i64>): Statement<string> {
    match s
    case LetStatement(name, ty, information, value) =>
      LetStatement(name, ty, information, CanonicalExpression(value))
    case ReturnStatement(None) => ReturnStatement(None)
    case ReturnStatement(Some(e)) => ReturnStatement(Some(CanonicalExpression(e)))
    case RequestStatement(effect, authority, information, arguments) =>
      RequestStatement(effect, authority, information, CanonicalExpressions(arguments))
    case ExpressionStatement(e) => ExpressionStatement(CanonicalExpression(e))
  }

  function CanonicalBody(body: seq<Statement<i64>>): (r: seq<Statement<string>>)
    ensures |r| == |body|
  {
    if body == [] then [] else [CanonicalStatement(body[0])] + CanonicalBody(body[1..])
  }

  function AuthorityName(a: Authority): string { a.name }

  function SameName(name: string): string { name }

  function FunctionName(f: Function<string>): string { f.name }

  function SortAuthorities(authorities: Option<seq<Authority>>): Option<seq<Authority>> {
    match authorities
    case None => None
    case Some(items) => Some(SortByKey(AuthorityName, items))
  }

  function SortEffects(effects: seq<string>): seq<string> {
    SortByKey(SameName, effects)
  }

  function CanonicalFunction(f: Function<i64>): Function<string> {
    Function(f.name, f.parameters, f.returnType, f.returnInformation,
             SortEffects(f.effects), SortAuthorities(f.authorities), CanonicalBody(f.body))
  }

  function CanonicalFunctions(fs: seq<Function<i64>>): (r: seq<Function<string>>)
    ensures |r| == |fs|
    ensures forall i :: 0 <= i < |fs| ==> r[i] == CanonicalFunction(fs[i])
  {
    if fs == [] then [] else [CanonicalFunction(fs[0])] + CanonicalFunctions(fs[1..])
  }

  predicate RequestsWithAuthority<N>(f: Function<N>) {
    exists i :: 0 <= i < |f.body| && f.body[i].RequestStatement? && f.body[i].authority.Some?
  }

  /** A module is linear as soon as one function mentions authority. */
  predicate MentionsAuthority<N>(functions: seq<Function<N>>) {
    exists i :: 0 <= i < |functions| && (functions[i].authorities.Some? || RequestsWithAuthority(functions[i]))
  }

  function Canonical(p: Program): CanonicalProgram {
    CanonicalProgram(
      if p.informationFlow then Information
      else if MentionsAuthority(p.functions) then Linear
      else Legacy,
      p.moduleName,
      SortByKey(FunctionName, CanonicalFunctions(p.functions)))
  }
}
