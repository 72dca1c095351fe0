// Canonical trees and canonical sets as what they are: names in byte order, literals in
// decimal, nothing lost and nothing added.
module CanonicalRules {
  import opened Prelude
  import opened Ast
  import opened Normalization
  import opened CanonicalOrder
  import opened StaticRules
  import CanonicalJson
  import CheckRules
  import RuleAgreement

  // ---------- order ----------

  /** The first difference decides; a proper prefix comes first. */
  predicate Before(a: string, b: string) {
    exists k :: 0 <= k <= |a| && k < |b| && a[..k] == b[..k] && (k == |a| || a[k] as int < b[k] as int)
  }

  lemma BeforeTail(a: string, b: string)
    requires a != [] && b != [] && a[0] == b[0]
    ensures Before(a, b) <==> Before(a[1..], b[1..])
  {
    if k :| 0 <= k <= |a| && k < |b| && a[..k] == b[..k] && (k == |a| || a[k] as int < b[k] as int) {
      assert k > 0;
      assert a[1..][..k - 1] == a[..k][1..] && b[1..][..k - 1] == b[..k][1..];
      var m := k - 1;
      assert m == |a[1..]| || a[1..][m] as int < b[1..][m] as int;
    }
    if m :| 0 <= m <= |a[1..]| && m < |b[1..]| && a[1..][..m] == b[1..][..m] && (m == |a[1..]| || a[1..][m] as int < b[1..][m] as int) {
      var k := m + 1;
      assert a[..k] == [a[0]] + a[1..][..m] && b[..k] == [b[0]] + b[1..][..m];
      assert k == |a| || a[k] as int < b[k] as int;
    }
  }

  lemma BeforeHead(a: string, b: string)
    requires a != [] && b != [] && a[0] != b[0]
    ensures Before(a, b) <==> a[0] < b[0]
  {
    if a[0] < b[0] {
      assert a[..0] == b[..0];
    }
    if k :| 0 <= k <= |a| && k < |b| && a[..k] == b[..k] && (k == |a| || a[k] as int < b[k] as int) {
      CommonHead(a, b, k);
    }
  }

  lemma CommonHead(a: string, b: string, k: nat)
    requires k <= |a| && k <= |b| && a[..k] == b[..k]
    ensures k == 0 || a[0] == b[0]
  {
    if k > 0 {
      assert a[..k][0] == a[0] && b[..k][0] == b[0];
    }
  }

  /** The order of names is the order of their characters. */
  lemma {:induction false} StringOrder(a: string, b: string)
    ensures StrLess(a, b) <==> Before(a, b)
    decreases |a|
  {
    if a == [] && b != [] {
      assert a[..0] == b[..0];
    } else if a != [] && b != [] {
      if a[0] == b[0] {
        BeforeTail(a, b);
        StringOrder(a[1..], b[1..]);
      } else {
        BeforeHead(a, b);
      }
    }
  }

  // ---------- what is sorted ----------

  ghost predicate Ordered<T>(key: T -> string, s: seq<T>) {
    forall i, j :: 0 <= i < j < |s| ==> Before(key(s[i]), key(s[j]))
  }

  ghost predicate SameItems<T(!new)>(s: seq<T>, t: seq<T>) {
    forall x :: x in s <==> x in t
  }

  lemma OrderedIsStrict<T>(key: T -> string, s: seq<T>)
    ensures Ordered(key, s) <==> StrictByKey(key, s)
  {
    forall i, j | 0 <= i < j < |s| ensures Before(key(s[i]), key(s[j])) <==> StrLess(key(s[i]), key(s[j])) {
      StringOrder(key(s[i]), key(s[j]));
    }
    hide Before, StrLess;
  }

  lemma SortedStrictly<T(!new)>(key: T -> string, s: seq<T>)
    requires forall i, j :: 0 <= i < j < |s| ==> key(s[i]) != key(s[j])
    ensures StrictByKey(key, SortByKey(key, s)) && SameItems(SortByKey(key, s), s)
  {
    hide StrLess, SortByKey;
    var sorted := SortByKey(key, s);
    SortIsPermutation(key, s);
    SortSorts(key, s);
    PermutedKeys(key, s, sorted);
    forall i, j | 0 <= i < j < |sorted| ensures StrLess(key(sorted[i]), key(sorted[j])) {
      StrLessTotal(key(sorted[i]), key(sorted[j]));
    }
    PermutedMembers(sorted, s);
  }

  /** With different keys there is one ordered arrangement of the items, and it is the sorted one. */
  lemma SortMeans<T(!new)>(key: T -> string, s: seq<T>, t: seq<T>)
    requires forall i, j :: 0 <= i < j < |s| ==> key(s[i]) != key(s[j])
    ensures t == SortByKey(key, s) <==> Ordered(key, t) && SameItems(t, s)
  {
    hide SortByKey;
    SortedStrictly(key, s);
    OrderedIsStrict(key, t);
    if Ordered(key, t) && SameItems(t, s) {
      StrictUnique(key, t, SortByKey(key, s));
    }
  }

  // ---------- numerals ----------

  function Power(n: nat): nat {
    if n == 0 then 1 else 10 * Power(n - 1)
  }

  /** Every digit counts ten times as much as the one after it. */
  function Numeral(s: string): nat
    requires AllDigits(s)
  {
    if s == [] then 0 else (s[0] as int - '0' as int) * Power(|s| - 1) + Numeral(s[1..])
  }

  predicate Spells(text: string, n: i64) {
    if n < 0 then |text| > 1 && text[0] == '-' && AllDigits(text[1..]) && text[1] != '0' && Numeral(text[1..]) == 0 - n
    else AllDigits(text) && text != [] && (text[0] == '0' ==> |text| == 1) && Numeral(text) == n
  }

  lemma TenTimes(digit: nat, power: nat)
    ensures digit * (10 * power) == 10 * (digit * power)
  {
  }

  lemma {:induction false} NumeralLast(s: string, c: char)
    requires AllDigits(s) && IsDigit(c)
    ensures AllDigits(s + [c]) && Numeral(s + [c]) == 10 * Numeral(s) + (c as int - '0' as int)
  {
    var t := s + [c];
    if s == [] {
      assert t[1..] == [];
    } else {
      assert t[1..] == s[1..] + [c] && IsDigit(s[0]);
      NumeralLast(s[1..], c);
      TenTimes(s[0] as int - '0' as int, Power(|s| - 1));
    }
  }

  lemma {:induction false} NumeralOfDigits(n: nat)
    ensures Numeral(Digits(n)) == n && (Digits(n)[0] == '0' ==> n == 0)
  {
    if n >= 10 {
      NumeralOfDigits(n / 10);
      NumeralLast(Digits(n / 10), ('0' as int + n % 10) as char);
    } else {
      assert Digits(n)[1..] == [];
    }
  }

  lemma {:induction false} DigitsAreUnique(s: string)
    requires AllDigits(s) && s != [] && (s[0] == '0' ==> |s| == 1)
    ensures s == Digits(Numeral(s))
    ensures s[0] != '0' ==> Numeral(s) > 0
    decreases |s|
  {
    var n := |s| - 1;
    var front, last := s[..n], s[n];
    assert s == front + [last];
    NumeralLast(front, last);
    assert IsDigit(last);
    hide Numeral;
    if n > 0 {
      assert front[0] == s[0];
      DigitsAreUnique(front);
    } else {
      assert front == [];
    }
  }

  /** The decimal spelling of a number is the numeral without leading zeros that has its value. */
  lemma DecimalMeans(text: string, n: i64)
    ensures text == ToDecimal(n) <==> Spells(text, n)
  {
    NumeralOfDigits(Abs(n));
    var digits := if n < 0 && text != [] then text[1..] else text;
    assert n < 0 && text != [] && text[0] == '-' ==> text == "-" + digits;
    assert n < 0 ==> ToDecimal(n)[1..] == Digits(0 - n);
    if Spells(text, n) {
      DigitsAreUnique(digits);
    }
  }

  // ---------- trees ----------

  predicate SameExpression(e: Expression<i64>, c: Expression<string>) {
    match e
    case Integer(n) => c.Integer? && Spells(c.value, n)
    case Boolean(b) => c == Boolean(b)
    case Text(text) => c == Text(text)
    case Variable(name) => c == Variable(name)
    case Unary(op, operand) => c.Unary? && c.unop == op && SameExpression(operand, c.operand)
    case Binary(op, left, right) => c.Binary? && c.binop == op && SameExpression(left, c.left) && SameExpression(right, c.right)
    case Call(callee, arguments) =>
      && c.Call? && c.callee == callee && |c.arguments| == |arguments|
      && forall i :: 0 <= i < |arguments| ==> SameExpression(arguments[i], c.arguments[i])
  }

  predicate SameStatement(s: Statement<i64>, c: Statement<string>) {
    match s
    case LetStatement(name, ty, information, value) =>
      c.LetStatement? && c.name == name && c.valueType == ty && c.information == information && SameExpression(value, c.value)
    case ReturnStatement(None) => c == ReturnStatement(None)
    case ReturnStatement(Some(e)) => c.ReturnStatement? && c.result.Some? && SameExpression(e, c.result.value)
    case RequestStatement(effect, slot, information, arguments) =>
      && c.RequestStatement? && c.effect == effect && c.authority == slot && c.information == information
      && |c.arguments| == |arguments| && forall i :: 0 <= i < |arguments| ==> SameExpression(arguments[i], c.arguments[i])
    case ExpressionStatement(e) => c.ExpressionStatement? && SameExpression(e, c.expression)
  }

  function NameOf(name: string): string {
    name
  }

  function SlotName(a: Authority): string {
    a.name
  }

  /** Signature and body are as written; effects and slots come in order. */
  ghost predicate SameFunction(f: Function<i64>, g: Function<string>) {
    && g.name == f.name && g.parameters == f.parameters && g.returnType == f.returnType && g.returnInformation == f.returnInformation
    && Ordered(NameOf, g.effects) && SameItems(g.effects, f.effects)
    && g.authorities.Some? == f.authorities.Some?
    && (g.authorities.Some? ==> Ordered(SlotName, g.authorities.value) && SameItems(g.authorities.value, f.authorities.value))
    && |g.body| == |f.body| && forall k :: 0 <= k < |f.body| ==> SameStatement(f.body[k], g.body[k])
  }

  /** The profile is that of the labels and slots in the module. */
  predicate SchemaRule(p: Program, schema: Schema) {
    && (schema == Information <==> p.informationFlow)
    && (schema == Linear <==> KeepsAuthority(p) && !p.informationFlow)
    && (schema == Legacy <==> !KeepsAuthority(p))
  }

  predicate InNameOrder(gs: seq<Function<string>>) {
    forall i, j :: 0 <= i < j < |gs| ==> Before(gs[i].name, gs[j].name)
  }

  /** Every function of the module is in the tree, and the tree has no other. */
  ghost predicate SameFunctions(fs: seq<Function<i64>>, gs: seq<Function<string>>) {
    && (forall i :: 0 <= i < |fs| ==> IsFound(fs[i], gs))
    && (forall j :: 0 <= j < |gs| ==> ComesFrom(fs, gs[j]))
  }

  ghost predicate IsFound(f: Function<i64>, gs: seq<Function<string>>) {
    exists j :: 0 <= j < |gs| && SameFunction(f, gs[j])
  }

  ghost predicate ComesFrom(fs: seq<Function<i64>>, g: Function<string>) {
    exists i :: 0 <= i < |fs| && SameFunction(fs[i], g)
  }

  ghost predicate IsTreeOf(p: Program, t: CanonicalProgram) {
    SchemaRule(p, t.schema) && t.moduleName == p.moduleName && InNameOrder(t.functions) && SameFunctions(p.functions, t.functions)
  }

  /** No two functions, effects of a function, or slots of a function have the same name. */
  predicate NamesDiffer(p: Program) {
    && (forall i, j :: 0 <= i < j < |p.functions| ==> p.functions[i].name != p.functions[j].name)
    && forall i :: 0 <= i < |p.functions| ==> RowsDiffer(p.functions[i])
  }

  predicate RowsDiffer(f: Function<i64>) {
    && (forall i, j :: 0 <= i < j < |f.effects| ==> f.effects[i] != f.effects[j])
    && (f.authorities.Some? ==>
          forall i, j :: 0 <= i < j < |f.authorities.value| ==> f.authorities.value[i].name != f.authorities.value[j].name)
  }

  // ---------- the projection meets the rules ----------

  lemma {:induction false} SameExpressionMeans(e: Expression<i64>, c: Expression<string>)
    ensures SameExpression(e, c) <==> c == CanonicalExpression(e)
    decreases e, 1
  {
    match e
    case Integer(n) =>
      if c.Integer? {
        DecimalMeans(c.value, n);
      }
    case Unary(_, operand) =>
      if c.Unary? {
        SameExpressionMeans(operand, c.operand);
      }
    case Binary(_, left, right) =>
      if c.Binary? {
        SameExpressionMeans(left, c.left);
        SameExpressionMeans(right, c.right);
      }
    case Call(_, arguments) =>
      if c.Call? {
        SameExpressionsMean(arguments, c.arguments);
      }
    case _ =>
  }

  lemma {:induction false} SameExpressionsMean(es: seq<Expression<i64>>, cs: seq<Expression<string>>)
    ensures |cs| == |es| && (forall i :: 0 <= i < |es| ==> SameExpression(es[i], cs[i])) <==> cs == CanonicalExpressions(es)
    decreases es, 0
  {
    if es != [] && |cs| == |es| {
      SameExpressionMeans(es[0], cs[0]);
      SameExpressionsMean(es[1..], cs[1..]);
      hide SameExpression;
      assert cs == [cs[0]] + cs[1..];
      assert forall i :: 0 < i < |es| ==> es[i] == es[1..][i - 1] && cs[i] == cs[1..][i - 1];
      if forall i :: 0 <= i < |es| ==> SameExpression(es[i], cs[i]) {
        forall i | 0 <= i < |es[1..]| ensures SameExpression(es[1..][i], cs[1..][i]) {
          assert SameExpression(es[i + 1], cs[i + 1]);
        }
      }
      if cs == CanonicalExpressions(es) {
        assert cs[1..] == CanonicalExpressions(es[1..]) && cs[0] == CanonicalExpression(es[0]);
      }
    }
  }

  lemma SameStatementMeans(s: Statement<i64>, c: Statement<string>)
    ensures SameStatement(s, c) <==> c == CanonicalStatement(s)
  {
    hide SameExpression, CanonicalExpression, CanonicalExpressions;
    match s
    case LetStatement(_, _, _, value) =>
      if c.LetStatement? {
        SameExpressionMeans(value, c.value);
      }
    case ReturnStatement(None) =>
    case ReturnStatement(Some(e)) =>
      if c.ReturnStatement? && c.result.Some? {
        SameExpressionMeans(e, c.result.value);
      }
    case RequestStatement(_, _, _, arguments) =>
      if c.RequestStatement? {
        SameExpressionsMean(arguments, c.arguments);
      }
    case ExpressionStatement(e) =>
      if c.ExpressionStatement? {
        SameExpressionMeans(e, c.expression);
      }
  }

  lemma {:induction false} SameBodyMeans(body: seq<Statement<i64>>, cs: seq<Statement<string>>)
    ensures |cs| == |body| && (forall k :: 0 <= k < |body| ==> SameStatement(body[k], cs[k])) <==> cs == CanonicalBody(body)
    decreases |body|
  {
    hide SameStatement, CanonicalStatement;
    if body != [] && |cs| == |body| {
      SameStatementMeans(body[0], cs[0]);
      SameBodyMeans(body[1..], cs[1..]);
      assert cs == [cs[0]] + cs[1..];
      assert forall k :: 0 < k < |body| ==> body[k] == body[1..][k - 1] && cs[k] == cs[1..][k - 1];
      if forall k :: 0 <= k < |body| ==> SameStatement(body[k], cs[k]) {
        forall k | 0 <= k < |body[1..]| ensures SameStatement(body[1..][k], cs[1..][k]) {
          assert SameStatement(body[k + 1], cs[k + 1]);
        }
      }
      if cs == CanonicalBody(body) {
        assert cs[1..] == CanonicalBody(body[1..]) && cs[0] == CanonicalStatement(body[0]);
      }
    }
  }

  lemma EffectsMean(effects: seq<string>, t: seq<string>)
    requires forall i, j :: 0 <= i < j < |effects| ==> effects[i] != effects[j]
    ensures t == SortEffects(effects) <==> Ordered(NameOf, t) && SameItems(t, effects)
  {
    SortMeans(SameName, effects, t);
    assert Ordered(NameOf, t) <==> Ordered(SameName, t);
  }

  lemma SlotsMean(items: seq<Authority>, t: seq<Authority>)
    requires forall i, j :: 0 <= i < j < |items| ==> items[i].name != items[j].name
    ensures t == SortByKey(AuthorityName, items) <==> Ordered(SlotName, t) && SameItems(t, items)
  {
    assert forall i, j :: 0 <= i < j < |items| ==> AuthorityName(items[i]) != AuthorityName(items[j]);
    SortMeans(AuthorityName, items, t);
    assert Ordered(SlotName, t) <==> Ordered(AuthorityName, t);
  }

  lemma SameFunctionMeans(f: Function<i64>, g: Function<string>)
    requires RowsDiffer(f)
    ensures SameFunction(f, g) <==> g == CanonicalFunction(f)
  {
    hide Ordered, SameItems, SameStatement, SortByKey, CanonicalBody;
    SameBodyMeans(f.body, g.body);
    EffectsMean(f.effects, g.effects);
    if f.authorities.Some? && g.authorities.Some? {
      SlotsMean(f.authorities.value, g.authorities.value);
    }
  }

  lemma ProfileMeans(p: Program)
    ensures MentionsAuthority(p.functions) || p.informationFlow <==> KeepsAuthority(p)
  {
    assert forall i :: 0 <= i < |p.functions| ==> (RequestsWithSlot(p.functions[i]) <==> RequestsWithAuthority(p.functions[i]));
  }

  predicate InTree(p: Program, gs: seq<Function<string>>, i: nat)
    requires i < |p.functions|
  {
    CanonicalFunction(p.functions[i]) in gs
  }

  predicate InSource(p: Program, g: Function<string>) {
    g in CanonicalFunctions(p.functions)
  }

  lemma InTreeMeans(p: Program, gs: seq<Function<string>>, i: nat)
    requires i < |p.functions| && RowsDiffer(p.functions[i])
    ensures InTree(p, gs, i) <==> IsFound(p.functions[i], gs)
  {
    hide SameFunction, CanonicalFunction, RowsDiffer;
    var f := p.functions[i];
    forall j | 0 <= j < |gs| ensures SameFunction(f, gs[j]) <==> gs[j] == CanonicalFunction(f) {
      SameFunctionMeans(f, gs[j]);
    }
  }

  lemma InSourceMeans(p: Program, g: Function<string>)
    requires forall i :: 0 <= i < |p.functions| ==> RowsDiffer(p.functions[i])
    ensures InSource(p, g) <==> ComesFrom(p.functions, g)
  {
    hide SameFunction, CanonicalFunction, RowsDiffer;
    var fs := CanonicalFunctions(p.functions);
    forall i | 0 <= i < |p.functions| ensures SameFunction(p.functions[i], g) <==> g == fs[i] {
      SameFunctionMeans(p.functions[i], g);
    }
  }

  lemma ItemsMean(p: Program, gs: seq<Function<string>>)
    ensures SameItems(gs, CanonicalFunctions(p.functions)) <==>
            && (forall i :: 0 <= i < |p.functions| ==> InTree(p, gs, i))
            && (forall j :: 0 <= j < |gs| ==> InSource(p, gs[j]))
  {
    hide CanonicalFunction;
    var fs := CanonicalFunctions(p.functions);
    if SameItems(gs, fs) {
      forall i | 0 <= i < |p.functions| ensures InTree(p, gs, i) {
        assert fs[i] in fs;
      }
    }
    if (forall i :: 0 <= i < |p.functions| ==> InTree(p, gs, i)) && (forall j :: 0 <= j < |gs| ==> InSource(p, gs[j])) {
      forall x ensures x in gs <==> x in fs {
        if x in gs {
          var j :| 0 <= j < |gs| && gs[j] == x;
          assert InSource(p, gs[j]);
        }
        if x in fs {
          var i :| 0 <= i < |fs| && fs[i] == x;
          assert InTree(p, gs, i);
        }
      }
    }
  }

  lemma FunctionsMean(p: Program, gs: seq<Function<string>>)
    requires NamesDiffer(p)
    ensures SameItems(gs, CanonicalFunctions(p.functions)) <==> SameFunctions(p.functions, gs)
  {
    hide IsFound, ComesFrom, RowsDiffer, SameItems, InTree, InSource;
    ItemsMean(p, gs);
    forall i | 0 <= i < |p.functions| ensures InTree(p, gs, i) <==> IsFound(p.functions[i], gs) {
      InTreeMeans(p, gs, i);
    }
    forall j | 0 <= j < |gs| ensures InSource(p, gs[j]) <==> ComesFrom(p.functions, gs[j]) {
      InSourceMeans(p, gs[j]);
    }
  }

  lemma OrderedFunctions(fs: seq<Function<string>>, gs: seq<Function<string>>)
    requires forall i, j :: 0 <= i < j < |fs| ==> fs[i].name != fs[j].name
    ensures gs == SortByKey(FunctionName, fs) <==>
            InNameOrder(gs) && SameItems(gs, fs)
  {
    hide SortByKey, SameItems, Before;
    assert forall i, j :: 0 <= i < j < |fs| ==> FunctionName(fs[i]) != FunctionName(fs[j]);
    SortMeans(FunctionName, fs, gs);
  }

  lemma OrderedTree(p: Program, gs: seq<Function<string>>)
    requires NamesDiffer(p)
    ensures gs == Canonical(p).functions <==> InNameOrder(gs) && SameItems(gs, CanonicalFunctions(p.functions))
  {
    hide Before, RowsDiffer, SameItems, SortByKey, MentionsAuthority;
    var fs := CanonicalFunctions(p.functions);
    forall i, j | 0 <= i < j < |fs| ensures fs[i].name != fs[j].name {
      assert fs[i] == CanonicalFunction(p.functions[i]) && fs[j] == CanonicalFunction(p.functions[j]);
      assert p.functions[i].name != p.functions[j].name;
    }
    OrderedFunctions(fs, gs);
  }

  /**
   * The canonical tree of a module: a tree is it if and only if it has the module's profile and name, the same
   * functions in the order of their names, each with its effects and slots in the order of theirs, and the same
   * bodies with every number spelled without leading zeros.
   */
  lemma TreeMeans(p: Program, t: CanonicalProgram)
    requires NamesDiffer(p)
    ensures Canonical(p) == t <==> IsTreeOf(p, t)
  {
    hide SameFunctions, NamesDiffer, SchemaRule, InNameOrder, SameItems;
    OrderedTree(p, t.functions);
    FunctionsMean(p, t.functions);
    SchemaMeans(p, t.schema);
    hide Canonical;
    ModuleNameStays(p);
  }

  lemma ModuleNameStays(p: Program)
    ensures Canonical(p).moduleName == p.moduleName
  {
  }

  lemma SchemaMeans(p: Program, schema: Schema)
    ensures schema == Canonical(p).schema <==> SchemaRule(p, schema)
  {
    ProfileMeans(p);
    hide MentionsAuthority, KeepsAuthority, SortByKey;
  }

  /** The static rules keep names apart, so every accepted module has exactly the tree that the rules describe. */
  lemma AcceptedTreeMeans(p: Program, t: CanonicalProgram)
    requires CheckRules.CheckAccepts(p)
    ensures Canonical(p) == t <==> IsTreeOf(p, t)
  {
    RuleAgreement.CheckMeetsRules(p);
    hide CheckRules.CheckAccepts, Canonical, IsTreeOf, NoRecursion;
    RulesKeepNamesApart(p);
    TreeMeans(p, t);
  }

  lemma RulesKeepNamesApart(p: Program)
    requires ModuleRule(p)
    ensures NamesDiffer(p)
  {
    hide StatementRule;
    forall i | 0 <= i < |p.functions| ensures RowsDiffer(p.functions[i]) {
      assert FunctionRule(p, p.functions[i]);
      if p.functions[i].authorities.Some? {
        assert KeepsAuthority(p);
      }
    }
  }

  // ---------- sets ----------

  /** Two elements of a canonical set in order: by digest, and by canonical form where digests agree. */
  predicate SetOrder(digest: string -> string, v: CanonicalJson.CanonicalValue, w: CanonicalJson.CanonicalValue) {
    var a, b := CanonicalJson.Write(v), CanonicalJson.Write(w);
    Before(digest(a), digest(b)) || (digest(a) == digest(b) && Before(a, b))
  }

  lemma {:induction false} SamePrefix(d: string, a: string, b: string)
    ensures StrLess(d + a, d + b) <==> StrLess(a, b)
  {
    if d == [] {
      assert d + a == a && d + b == b;
    } else {
      assert (d + a)[1..] == d[1..] + a && (d + b)[1..] == d[1..] + b;
      SamePrefix(d[1..], a, b);
    }
  }

  lemma {:induction false} OtherPrefix(d: string, e: string, a: string, b: string)
    requires |d| == |e| && d != e
    ensures StrLess(d + a, e + b) <==> StrLess(d, e)
  {
    assert (d + a)[1..] == d[1..] + a && (e + b)[1..] == e[1..] + b;
    if d[0] == e[0] {
      assert d == [d[0]] + d[1..] && e == [e[0]] + e[1..];
      OtherPrefix(d[1..], e[1..], a, b);
    }
  }

  lemma SetOrderMeans(digest: string -> string, n: nat, v: CanonicalJson.CanonicalValue, w: CanonicalJson.CanonicalValue)
    requires OneLength(digest, n)
    ensures SetOrder(digest, v, w) <==> StrLess(ElementKey(ElementOf(digest, v)), ElementKey(ElementOf(digest, w)))
  {
    hide CanonicalJson.Write, StrLess, Before;
    var a, b := CanonicalJson.Write(v), CanonicalJson.Write(w);
    var d, e := digest(a), digest(b);
    assert |d| == |e|;
    StringOrder(d, e);
    StringOrder(a, b);
    StrLessTotal(d, d);
    if d == e {
      SamePrefix(d, a, b);
    } else {
      OtherPrefix(d, e, a, b);
    }
  }

  /** No two values have the same canonical form. */
  predicate FormsAreDistinct(values: seq<CanonicalJson.CanonicalValue>) {
    forall i, j :: 0 <= i < j < |values| ==> CanonicalJson.Write(values[i]) != CanonicalJson.Write(values[j])
  }

  lemma {:induction false} FormsCount(values: seq<CanonicalJson.CanonicalValue>)
    ensures |Forms(values)| == |values| <==> FormsAreDistinct(values)
  {
    hide CanonicalJson.Write;
    if |Forms(values)| == |values| {
      forall i, j | 0 <= i < j < |values| ensures CanonicalJson.Write(values[i]) != CanonicalJson.Write(values[j]) {
        FormsDiffer(values, i, j);
      }
    }
    if values == [] {
      NoForms();
    } else if FormsAreDistinct(values) {
      RestIsDistinct(values);
      FormsCount(values[1..]);
      FormsStep(values);
    }
  }

  lemma RestIsDistinct(values: seq<CanonicalJson.CanonicalValue>)
    requires values != [] && FormsAreDistinct(values)
    ensures FormsAreDistinct(values[1..]) && CanonicalJson.Write(values[0]) !in Forms(values[1..])
  {
    hide CanonicalJson.Write;
    var rest := values[1..];
    forall v | v in rest ensures CanonicalJson.Write(v) != CanonicalJson.Write(values[0]) {
      var k :| 0 <= k < |rest| && rest[k] == v;
      assert values[k + 1] == v;
    }
    forall i, j | 0 <= i < j < |rest| ensures CanonicalJson.Write(rest[i]) != CanonicalJson.Write(rest[j]) {
      assert rest[i] == values[i + 1] && rest[j] == values[j + 1];
    }
  }

  /** The elements of a set in order. */
  ghost predicate SetInOrder(digest: string -> string, out: seq<CanonicalJson.CanonicalValue>) {
    forall i, j :: 0 <= i < j < |out| ==> SetOrder(digest, out[i], out[j])
  }

  lemma SetInOrderMeans(digest: string -> string, n: nat, out: seq<CanonicalJson.CanonicalValue>)
    requires OneLength(digest, n)
    ensures SetInOrder(digest, out) <==> StrictByKey(ElementKey, Elements(digest, out))
  {
    hide SetOrder, StrLess, OneLength;
    var elements := Elements(digest, out);
    forall i, j | 0 <= i < j < |out| ensures SetOrder(digest, out[i], out[j]) <==> StrLess(ElementKey(elements[i]), ElementKey(elements[j])) {
      SetOrderMeans(digest, n, out[i], out[j]);
    }
    hide ElementKey;
  }

  lemma ElementsBack(digest: string -> string, sorted: seq<Element>)
    requires forall x :: x in sorted ==> x == ElementOf(digest, x.value)
    ensures Elements(digest, Values(sorted)) == sorted
  {
    forall i | 0 <= i < |sorted| ensures Elements(digest, Values(sorted))[i] == sorted[i] {
      assert sorted[i] in sorted;
    }
  }

  lemma ElementIn(digest: string -> string, values: seq<CanonicalJson.CanonicalValue>, x: Element)
    ensures x in Elements(digest, values) <==> x.value in values && x == ElementOf(digest, x.value)
  {
    hide CanonicalJson.Write;
    if x.value in values && x == ElementOf(digest, x.value) {
      var i :| 0 <= i < |values| && values[i] == x.value;
      assert Elements(digest, values)[i] == x;
    }
  }

  lemma SortedIn(digest: string -> string, n: nat, values: seq<CanonicalJson.CanonicalValue>)
    requires OneLength(digest, n) && |Forms(values)| == |values|
    ensures var sorted := SortByKey(ElementKey, Elements(digest, values));
            && StrictByKey(ElementKey, sorted)
            && forall x :: x in sorted <==> x.value in values && x == ElementOf(digest, x.value)
  {
    hide CanonicalJson.Write, StrLess, OneLength, Forms, SortByKey;
    SortedElements(digest, n, values);
    var sorted := SortByKey(ElementKey, Elements(digest, values));
    forall x ensures x in sorted <==> x.value in values && x == ElementOf(digest, x.value) {
      if x in sorted {
        var v :| v in values && x == ElementOf(digest, v);
      }
    }
  }

  lemma ItemsOfElements(digest: string -> string, out: seq<CanonicalJson.CanonicalValue>, values: seq<CanonicalJson.CanonicalValue>)
    ensures SameItems(out, values) <==> forall x :: x in Elements(digest, out) <==> x.value in values && x == ElementOf(digest, x.value)
  {
    hide CanonicalJson.Write;
    if SameItems(out, values) {
      forall x ensures x in Elements(digest, out) <==> x.value in values && x == ElementOf(digest, x.value) {
        ElementIn(digest, out, x);
      }
    }
    if forall x :: x in Elements(digest, out) <==> x.value in values && x == ElementOf(digest, x.value) {
      forall v ensures v in out <==> v in values {
        var x := ElementOf(digest, v);
        assert x.value == v;
        ElementIn(digest, out, x);
        assert x in Elements(digest, out) <==> x.value in values && x == ElementOf(digest, x.value);
      }
    }
  }

  /** An arrangement of the values is in order exactly if it is the sorted one. */
  lemma SortedSetMeans(digest: string -> string, n: nat, values: seq<CanonicalJson.CanonicalValue>, out: seq<CanonicalJson.CanonicalValue>)
    requires OneLength(digest, n) && |Forms(values)| == |values|
    ensures out == Values(SortByKey(ElementKey, Elements(digest, values))) <==> SetInOrder(digest, out) && SameItems(out, values)
  {
    hide CanonicalJson.Write, StrLess, OneLength, Forms, SortByKey, SetInOrder, SameItems, StrictByKey;
    var sorted := SortByKey(ElementKey, Elements(digest, values));
    SortedIn(digest, n, values);
    SetInOrderMeans(digest, n, out);
    ItemsOfElements(digest, out, values);
    ElementsBack(digest, sorted);
    if SetInOrder(digest, out) && SameItems(out, values) {
      StrictUnique(ElementKey, Elements(digest, out), sorted);
      assert Values(Elements(digest, out)) == out;
    }
  }

  /**
   * A canonical set: the array is it if and only if all elements have digests and different canonical forms, and
   * the array holds exactly these elements in the order of their digests, ties broken by their canonical forms.
   */
  lemma SetMeans(digest: string -> string, n: nat, values: seq<CanonicalJson.CanonicalValue>, out: seq<CanonicalJson.CanonicalValue>)
    requires OneLength(digest, n)
    ensures CanonicalSet(digest, values) == Ok(CanonicalJson.Array(out)) <==>
            && (forall v :: v in values ==> Digestible(v)) && FormsAreDistinct(values)
            && SetInOrder(digest, out) && SameItems(out, values)
  {
    hide SortByKey, SetInOrder, SameItems, FormsAreDistinct, Digestible, Forms, OneLength, SetErrorAt, Elements, Values;
    SetErrorMeans(values, {});
    FormsCount(values);
    if |Forms(values)| == |values| {
      SortedSetMeans(digest, n, values, out);
    }
  }
}
