// Sorting declarations does not change the verdict of the static rules: the
// canonical tree of an accepted program is well shaped and is accepted again.
module Normalization {
  import opened Prelude
  import opened CallGraph
  import opened Ast
  import opened CheckRules
  import opened Bytecode
  import opened Verifier
  import opened Acceptance
  import opened Artifact
  import opened CheckedPrograms
  import opened CheckedStructure

  // ---------- permutations ----------

  lemma {:induction false} DistinctCounts<T>(s: seq<T>, x: T)
    requires Distinct(s)
    ensures multiset(s)[x] <= 1
  {
    if s != [] {
      var n := |s| - 1;
      DistinctCounts(s[..n], x);
      assert s == s[..n] + [s[n]];
      if s[n] == x {
        assert x !in s[..n];
      }
    }
  }

  lemma RepeatedCounts<T>(s: seq<T>, i: nat, j: nat)
    requires i < j < |s| && s[i] == s[j]
    ensures multiset(s)[s[i]] >= 2
  {
    assert s == s[..j] + [s[j]] + s[j + 1..];
    assert s[..j][i] == s[i];
    assert s[i] in multiset(s[..j]);
  }

  lemma PermutedDistinct<T>(s: seq<T>, t: seq<T>)
    requires Distinct(s) && multiset(s) == multiset(t)
    ensures Distinct(t)
  {
    forall i, j | 0 <= i < j < |t| ensures t[i] != t[j] {
      if t[i] == t[j] {
        RepeatedCounts(t, i, j);
        DistinctCounts(s, t[i]);
      }
    }
  }

  lemma PermutedMembers<T>(s: seq<T>, t: seq<T>)
    requires multiset(s) == multiset(t)
    ensures |s| == |t| && forall x :: x in s <==> x in t
  {
    assert |multiset(s)| == |s| && |multiset(t)| == |t|;
    forall x ensures x in s <==> x in t {
      assert x in s <==> x in multiset(s);
      assert x in t <==> x in multiset(t);
    }
  }

  lemma SortedStrictly<T>(key: T -> string, s: seq<T>, keys: seq<string>)
    requires SortedByKey(key, s) && |keys| == |s| && Distinct(keys)
    requires forall i :: 0 <= i < |s| ==> keys[i] == key(s[i])
    ensures StrictlySorted(keys)
  {
    forall i | 0 <= i < |keys| - 1 ensures StrLess(keys[i], keys[i + 1]) {
      StrLessTotal(keys[i], keys[i + 1]);
      assert !StrLess(key(s[i + 1]), key(s[i]));
    }
  }

  /** With distinct keys, a permutation has distinct keys. */
  lemma PermutedKeys<T>(key: T -> string, s: seq<T>, t: seq<T>)
    requires multiset(s) == multiset(t)
    requires forall i, j :: 0 <= i < j < |s| ==> key(s[i]) != key(s[j])
    ensures forall i, j :: 0 <= i < j < |t| ==> key(t[i]) != key(t[j])
  {
    assert Distinct(s);
    PermutedDistinct(s, t);
    PermutedMembers(s, t);
    forall i, j | 0 <= i < j < |t| ensures key(t[i]) != key(t[j]) {
      assert t[i] in s && t[j] in s;
      var a :| 0 <= a < |s| && s[a] == t[i];
      var b :| 0 <= b < |s| && s[b] == t[j];
      assert a != b;
    }
  }

  // ---------- effects and authority slots ----------

  lemma EffectsNormalize(effects: seq<string>)
    requires Distinct(effects)
    ensures EffectSet(SortEffects(effects)) == EffectSet(effects)
    ensures StrictlySorted(SortEffects(effects)) && Repeats(SortEffects(effects)) == 0
    ensures forall e :: e in SortEffects(effects) <==> e in effects
  {
    SortIsPermutation(SameName, effects);
    SortSorts(SameName, effects);
    PermutedMembers(effects, SortEffects(effects));
    PermutedDistinct(effects, SortEffects(effects));
    SortedStrictly(SameName, SortEffects(effects), SortEffects(effects));
    RepeatsZero(SortEffects(effects));
  }

  lemma {:induction false} AuthorityLookup(items: seq<Authority>, i: nat)
    requires i < |items| && Distinct(AuthorityNames(items))
    ensures items[i].name in AuthorityMap(items) && AuthorityMap(items)[items[i].name] == items[i].effect
  {
    var n := |items| - 1;
    if i < n {
      assert AuthorityNames(items[..n]) == AuthorityNames(items)[..n];
      AuthorityLookup(items[..n], i);
      assert AuthorityNames(items)[i] != AuthorityNames(items)[n];
    }
  }

  lemma {:induction false} AuthorityKnown(items: seq<Authority>, name: string)
    requires name in AuthorityMap(items)
    ensures exists i :: 0 <= i < |items| && items[i].name == name
  {
    var n := |items| - 1;
    if items[n].name != name {
      AuthorityKnown(items[..n], name);
      var i :| 0 <= i < n && items[..n][i].name == name;
      assert items[i].name == name;
    }
  }

  lemma AuthorityMapIncluded(a: seq<Authority>, b: seq<Authority>, name: string)
    requires Distinct(AuthorityNames(a)) && Distinct(AuthorityNames(b)) && multiset(a) == multiset(b)
    requires name in AuthorityMap(a)
    ensures name in AuthorityMap(b) && AuthorityMap(a)[name] == AuthorityMap(b)[name]
  {
    AuthorityKnown(a, name);
    var i :| 0 <= i < |a| && a[i].name == name;
    PermutedMembers(a, b);
    assert a[i] in b;
    var j :| 0 <= j < |b| && b[j] == a[i];
    AuthorityLookup(a, i);
    AuthorityLookup(b, j);
  }

  function SortedItems(items: seq<Authority>): seq<Authority> {
    SortByKey(AuthorityName, items)
  }

  lemma AuthoritiesNormalize(items: seq<Authority>)
    requires Distinct(AuthorityNames(items))
    ensures AuthorityMap(SortedItems(items)) == AuthorityMap(items)
    ensures StrictlySorted(AuthorityNames(SortedItems(items)))
    ensures Repeats(AuthorityNames(SortedItems(items))) == 0
    ensures forall a :: a in SortedItems(items) <==> a in items
  {
    var sorted := SortedItems(items);
    SortIsPermutation(AuthorityName, items);
    SortSorts(AuthorityName, items);
    PermutedMembers(items, sorted);
    forall i, j | 0 <= i < j < |items| ensures AuthorityName(items[i]) != AuthorityName(items[j]) {
      assert AuthorityNames(items)[i] != AuthorityNames(items)[j];
    }
    PermutedKeys(AuthorityName, items, sorted);
    SortedStrictly(AuthorityName, sorted, AuthorityNames(sorted));
    RepeatsZero(AuthorityNames(sorted));
    forall name ensures name in AuthorityMap(items) <==> name in AuthorityMap(sorted) {
      if name in AuthorityMap(items) {
        AuthorityMapIncluded(items, sorted, name);
      }
      if name in AuthorityMap(sorted) {
        AuthorityMapIncluded(sorted, items, name);
      }
    }
    forall name | name in AuthorityMap(items) ensures AuthorityMap(items)[name] == AuthorityMap(sorted)[name] {
      AuthorityMapIncluded(items, sorted, name);
    }
  }

  lemma {:induction false} UndeclaredIffZero(items: seq<Authority>, effects: set<string>)
    ensures UndeclaredEffects(items, effects) == 0 <==> forall a :: a in items ==> a.effect in effects
  {
    if items != [] {
      UndeclaredIffZero(items[1..], effects);
      assert forall a :: a in items <==> a == items[0] || a in items[1..];
    }
  }

  // ---------- one function ----------

  function SortedFunction(f: Function<i64>): Function<i64> {
    f.(effects := SortEffects(f.effects), authorities := SortAuthorities(f.authorities))
  }

  lemma SortedSignature(f: Function<i64>)
    requires Distinct(f.effects)
    ensures SignatureOf(SortedFunction(f)) == SignatureOf(f)
  {
    EffectsNormalize(f.effects);
  }

  lemma SlotsNormalize(linear: bool, f: Function<i64>)
    requires Distinct(f.effects) && Distinct(AuthorityNames(DeclaredSlots(linear, f)))
    requires UndeclaredEffects(DeclaredSlots(linear, f), EffectSet(f.effects)) == 0
    ensures var g := SortedFunction(f);
            && AuthorityMap(DeclaredSlots(linear, g)) == AuthorityMap(DeclaredSlots(linear, f))
            && Repeats(AuthorityNames(DeclaredSlots(linear, g))) == 0
            && UndeclaredEffects(DeclaredSlots(linear, g), EffectSet(g.effects)) == 0
  {
    EffectsNormalize(f.effects);
    var items := DeclaredSlots(linear, f);
    AuthoritiesNormalize(items);
    UndeclaredIffZero(items, EffectSet(f.effects));
    UndeclaredIffZero(SortedItems(items), EffectSet(f.effects));
    RepeatsZero(AuthorityNames(items));
  }

  /** Sorting a function's declarations keeps it free of diagnostics. */
  lemma FunctionNormalizes(sigs: Signatures, flow: bool, linear: bool, f: Function<i64>)
    requires CheckFunction(sigs, flow, linear, f) == 0 && Repeats(f.effects) == 0
    ensures CheckFunction(sigs, flow, linear, SortedFunction(f)) == 0
  {
    var g := SortedFunction(f);
    RepeatsZero(f.effects);
    RepeatsZero(AuthorityNames(DeclaredSlots(linear, f)));
    EffectsNormalize(f.effects);
    SlotsNormalize(linear, f);
    assert ScopeOf(sigs, flow, linear, g) == ScopeOf(sigs, flow, linear, f);
    assert InitialBody(linear, g) == InitialBody(linear, f);
  }

  // ---------- through the canonical tree and back ----------

  lemma {:induction false} ExpressionReturns(e: Expression<i64>)
    ensures ParsedExpression(CanonicalExpression(e)) == Some(e)
    decreases e, 1
  {
    match e
    case Integer(n) => DecimalRoundTrip(n);
    case Unary(_, operand) => ExpressionReturns(operand);
    case Binary(_, left, right) =>
      ExpressionReturns(left);
      ExpressionReturns(right);
    case Call(_, arguments) => ExpressionsReturn(arguments);
    case _ =>
  }

  lemma FirstReturns(canonical: seq<Expression<string>>, e: Expression<i64>, rest: seq<Expression<i64>>)
    requires canonical == [CanonicalExpression(e)] + CanonicalExpressions(rest)
    requires ParsedExpression(CanonicalExpression(e)) == Some(e)
    requires ParsedExpressions(CanonicalExpressions(rest)) == Some(rest)
    ensures ParsedExpressions(canonical) == Some([e] + rest)
  {
    assert canonical[0] == CanonicalExpression(e) && canonical[1..] == CanonicalExpressions(rest);
  }

  lemma {:induction false} ExpressionsReturn(es: seq<Expression<i64>>)
    ensures ParsedExpressions(CanonicalExpressions(es)) == Some(es)
    decreases es, 0
  {
    if es != [] {
      ExpressionReturns(es[0]);
      ExpressionsReturn(es[1..]);
      FirstReturns(CanonicalExpressions(es), es[0], es[1..]);
      assert es == [es[0]] + es[1..];
    }
  }

  lemma StatementReturns(s: Statement<i64>)
    ensures ParsedStatement(CanonicalStatement(s)) == Some(s)
  {
    match s
    case LetStatement(_, _, _, e) => ExpressionReturns(e);
    case ReturnStatement(None) =>
    case ReturnStatement(Some(e)) => ExpressionReturns(e);
    case RequestStatement(_, _, _, arguments) => ExpressionsReturn(arguments);
    case ExpressionStatement(e) => ExpressionReturns(e);
  }

  lemma {:induction false} BodyReturns(body: seq<Statement<i64>>)
    ensures ParsedBody(CanonicalBody(body)) == Some(body)
  {
    if body != [] {
      StatementReturns(body[0]);
      BodyReturns(body[1..]);
      assert CanonicalBody(body)[1..] == CanonicalBody(body[1..]);
      assert body == [body[0]] + body[1..];
    }
  }

  lemma FunctionReturns(f: Function<i64>)
    ensures ParsedFunction(CanonicalFunction(f)) == Some(SortedFunction(f))
    ensures Mirrors(SortedFunction(f), CanonicalFunction(f))
  {
    BodyReturns(f.body);
  }

  lemma {:induction false} FunctionsReturn(fs: seq<Function<string>>)
    requires forall i :: 0 <= i < |fs| ==> ParsedFunction(fs[i]).Some?
    ensures ParsedFunctions(fs).Some? && |ParsedFunctions(fs).value| == |fs|
    ensures forall i :: 0 <= i < |fs| ==> ParsedFunctions(fs).value[i] == ParsedFunction(fs[i]).value
  {
    if fs != [] {
      FunctionsReturn(fs[1..]);
      assert forall i :: 0 < i < |fs| ==> fs[i] == fs[1..][i - 1];
    }
  }

  // ---------- the whole program ----------

  /** Where function i of the sorted tree comes from. */
  predicate CameFrom(p: Program, ast: CanonicalProgram, i: nat, j: nat) {
    i < |ast.functions| && j < |p.functions| && ast.functions[i] == CanonicalFunction(p.functions[j])
  }

  lemma SortedFrom(p: Program, i: nat)
    requires i < |Canonical(p).functions|
    ensures exists j: nat :: CameFrom(p, Canonical(p), i, j)
  {
    var fs := CanonicalFunctions(p.functions);
    var sorted := Canonical(p).functions;
    SortIsPermutation(FunctionName, fs);
    PermutedMembers(fs, sorted);
    assert sorted[i] in multiset(sorted);
    var j :| 0 <= j < |fs| && fs[j] == sorted[i];
    assert CameFrom(p, Canonical(p), i, j);
  }

  lemma SortedTo(p: Program, j: nat)
    requires j < |p.functions|
    ensures exists i: nat :: CameFrom(p, Canonical(p), i, j)
  {
    var fs := CanonicalFunctions(p.functions);
    var sorted := Canonical(p).functions;
    SortIsPermutation(FunctionName, fs);
    PermutedMembers(fs, sorted);
    assert fs[j] in multiset(fs);
    var i :| 0 <= i < |sorted| && sorted[i] == fs[j];
    assert CameFrom(p, Canonical(p), i, j);
  }

  lemma NamesNormalize(p: Program)
    requires Distinct(FunctionNames(p.functions))
    ensures |Canonical(p).functions| == |p.functions|
    ensures StrictlySorted(FunctionNames(Canonical(p).functions)) && Distinct(FunctionNames(Canonical(p).functions))
  {
    var fs := CanonicalFunctions(p.functions);
    var sorted := Canonical(p).functions;
    SortIsPermutation(FunctionName, fs);
    SortSorts(FunctionName, fs);
    PermutedMembers(fs, sorted);
    forall i, j | 0 <= i < j < |fs| ensures FunctionName(fs[i]) != FunctionName(fs[j]) {
      assert FunctionNames(p.functions)[i] != FunctionNames(p.functions)[j];
    }
    PermutedKeys(FunctionName, fs, sorted);
    SortedStrictly(FunctionName, sorted, FunctionNames(sorted));
  }

  /** The program that the verifier reconstructs from the canonical tree. */
  function Normalized(p: Program): Program
    requires ParsedProgram(Canonical(p)).Some?
  {
    ParsedProgram(Canonical(p)).value
  }

  lemma Reconstructs(p: Program)
    ensures ParsedProgram(Canonical(p)).Some?
    ensures |Normalized(p).functions| == |Canonical(p).functions|
    ensures Normalized(p).informationFlow == p.informationFlow && Normalized(p).moduleName == p.moduleName
  {
    var ast := Canonical(p);
    forall i | 0 <= i < |ast.functions| ensures ParsedFunction(ast.functions[i]).Some? {
      SortedFrom(p, i);
      var j: nat :| CameFrom(p, ast, i, j);
      FunctionReturns(p.functions[j]);
    }
    FunctionsReturn(ast.functions);
  }

  lemma ReconstructsAt(p: Program, i: nat, j: nat)
    requires CameFrom(p, Canonical(p), i, j)
    ensures ParsedProgram(Canonical(p)).Some? && i < |Normalized(p).functions|
    ensures Normalized(p).functions[i] == SortedFunction(p.functions[j])
    ensures Mirrors(Normalized(p).functions[i], Canonical(p).functions[i])
  {
    Reconstructs(p);
    var ast := Canonical(p);
    forall k | 0 <= k < |ast.functions| ensures ParsedFunction(ast.functions[k]).Some? {
      SortedFrom(p, k);
      var l: nat :| CameFrom(p, ast, k, l);
      FunctionReturns(p.functions[l]);
    }
    FunctionsReturn(ast.functions);
    FunctionReturns(p.functions[j]);
  }

  lemma MentionsNormalize(p: Program)
    requires ParsedProgram(Canonical(p)).Some?
    ensures MentionsAuthority(Normalized(p).functions) == MentionsAuthority(p.functions)
  {
    var q, ast := Normalized(p), Canonical(p);
    if MentionsAuthority(p.functions) {
      var j :| 0 <= j < |p.functions| && (p.functions[j].authorities.Some? || RequestsWithAuthority(p.functions[j]));
      SortedTo(p, j);
      var i: nat :| CameFrom(p, ast, i, j);
      ReconstructsAt(p, i, j);
      if RequestsWithAuthority(p.functions[j]) {
        assert RequestsWithAuthority(q.functions[i]);
      }
      assert q.functions[i].authorities.Some? || RequestsWithAuthority(q.functions[i]);
    }
    if MentionsAuthority(q.functions) {
      var i :| 0 <= i < |q.functions| && (q.functions[i].authorities.Some? || RequestsWithAuthority(q.functions[i]));
      Reconstructs(p);
      SortedFrom(p, i);
      var j: nat :| CameFrom(p, ast, i, j);
      ReconstructsAt(p, i, j);
      if RequestsWithAuthority(q.functions[i]) {
        assert RequestsWithAuthority(p.functions[j]);
      }
      assert p.functions[j].authorities.Some? || RequestsWithAuthority(p.functions[j]);
    }
  }

  lemma SourceNormalizes(p: Program)
    ensures ParsedProgram(Canonical(p)).Some? && Source(Canonical(p), Normalized(p))
    ensures LinearProfile(Normalized(p)) == LinearProfile(p)
  {
    Reconstructs(p);
    MentionsNormalize(p);
    forall i | 0 <= i < |Normalized(p).functions| ensures Mirrors(Normalized(p).functions[i], Canonical(p).functions[i]) {
      SortedFrom(p, i);
      var j: nat :| CameFrom(p, Canonical(p), i, j);
      ReconstructsAt(p, i, j);
    }
  }

  // ---------- the rules see the same program ----------

  lemma SignaturesNormalize(p: Program)
    requires ErrorFree(p)
    ensures ParsedProgram(Canonical(p)).Some?
    ensures SignaturesOf(Normalized(p).functions) == SignaturesOf(p.functions)
  {
    SourceNormalizes(p);
    NamesNormalize(p);
    var q := Normalized(p);
    NamesMirror(Canonical(p), q);
    var s, t := SignaturesOf(p.functions), SignaturesOf(q.functions);
    forall name | name in s ensures name in t && t[name] == s[name] {
      SignatureNames(p.functions, name);
      var j :| 0 <= j < |p.functions| && p.functions[j].name == name;
      SortedTo(p, j);
      var i: nat :| CameFrom(p, Canonical(p), i, j);
      SameSignature(p, i, j);
    }
    forall name | name in t ensures name in s {
      SignatureNames(q.functions, name);
      var i :| 0 <= i < |q.functions| && q.functions[i].name == name;
      SortedFrom(p, i);
      var j: nat :| CameFrom(p, Canonical(p), i, j);
      SameSignature(p, i, j);
    }
  }

  lemma SameSignature(p: Program, i: nat, j: nat)
    requires ErrorFree(p) && CameFrom(p, Canonical(p), i, j)
    requires ParsedProgram(Canonical(p)).Some? && Distinct(FunctionNames(Normalized(p).functions))
    ensures i < |Normalized(p).functions| && Normalized(p).functions[i].name == p.functions[j].name
    ensures var name := p.functions[j].name;
            && name in SignaturesOf(p.functions) && name in SignaturesOf(Normalized(p).functions)
            && SignaturesOf(p.functions)[name] == SignaturesOf(Normalized(p).functions)[name]
  {
    ReconstructsAt(p, i, j);
    SignatureLookup(p.functions, j);
    SignatureLookup(Normalized(p).functions, i);
    assert DeclarationFree(p, j);
    RepeatsZero(p.functions[j].effects);
    SortedSignature(p.functions[j]);
  }

  lemma {:induction false} CountFirst(fs: seq<Function<string>>)
    requires fs != []
    ensures StatementCount(fs) == |fs[0].body| + StatementCount(fs[1..])
  {
    var n := |fs| - 1;
    if n > 0 {
      CountFirst(fs[..n]);
      assert fs[..n][1..] == fs[1..][..n - 1];
    }
  }

  lemma {:induction false} CountInsert(x: Function<string>, fs: seq<Function<string>>)
    ensures StatementCount(InsertByKey(FunctionName, x, fs)) == StatementCount(fs) + |x.body|
  {
    var r := InsertByKey(FunctionName, x, fs);
    CountFirst(r);
    if fs != [] && StrLess(FunctionName(fs[0]), FunctionName(x)) {
      CountInsert(x, fs[1..]);
      CountFirst(fs);
      assert r[1..] == InsertByKey(FunctionName, x, fs[1..]);
    } else {
      assert r[1..] == fs;
    }
  }

  lemma {:induction false} CountSorted(fs: seq<Function<string>>)
    ensures StatementCount(SortByKey(FunctionName, fs)) == StatementCount(fs)
  {
    if fs != [] {
      CountFirst(fs);
      CountSorted(fs[1..]);
      CountInsert(fs[0], SortByKey(FunctionName, fs[1..]));
    }
  }

  lemma {:induction false} CountCanonical(fs: seq<Function<i64>>)
    ensures StatementCount(CanonicalFunctions(fs)) == StatementCount(fs)
  {
    if fs != [] {
      var n := |fs| - 1;
      CountCanonical(fs[..n]);
      assert CanonicalFunctions(fs)[..n] == CanonicalFunctions(fs[..n]);
    }
  }

  lemma {:induction false} CountMirrored(qs: seq<Function<i64>>, fs: seq<Function<string>>)
    requires |qs| == |fs| && forall i :: 0 <= i < |qs| ==> |qs[i].body| == |fs[i].body|
    ensures StatementCount(qs) == StatementCount(fs)
  {
    if qs != [] {
      CountMirrored(qs[..|qs| - 1], fs[..|fs| - 1]);
    }
  }

  lemma CountNormalizes(p: Program)
    ensures ParsedProgram(Canonical(p)).Some?
    ensures StatementCount(Normalized(p).functions) == StatementCount(p.functions)
    ensures StatementCount(Canonical(p).functions) == StatementCount(p.functions)
  {
    SourceNormalizes(p);
    CountSorted(CanonicalFunctions(p.functions));
    CountCanonical(p.functions);
    forall i | 0 <= i < |Normalized(p).functions|
      ensures |Normalized(p).functions[i].body| == |Canonical(p).functions[i].body|
    {
      assert Mirrors(Normalized(p).functions[i], Canonical(p).functions[i]);
    }
    CountMirrored(Normalized(p).functions, Canonical(p).functions);
  }

  lemma DeclarationNormalizes(p: Program, i: nat, j: nat)
    requires ErrorFree(p) && CameFrom(p, Canonical(p), i, j)
    requires ParsedProgram(Canonical(p)).Some? && i < |Normalized(p).functions|
    requires SignaturesOf(Normalized(p).functions) == SignaturesOf(p.functions)
    requires LinearProfile(Normalized(p)) == LinearProfile(p) && Normalized(p).informationFlow == p.informationFlow
    ensures DeclarationFree(Normalized(p), i)
  {
    ReconstructsAt(p, i, j);
    assert DeclarationFree(p, j);
    FunctionNormalizes(SignaturesOf(p.functions), p.informationFlow, LinearProfile(p), p.functions[j]);
    RepeatsZero(p.functions[j].effects);
    EffectsNormalize(p.functions[j].effects);
  }

  lemma ErrorFreeNormalizes(p: Program)
    requires ErrorFree(p)
    ensures ParsedProgram(Canonical(p)).Some? && ErrorFree(Normalized(p))
  {
    SourceNormalizes(p);
    Reconstructs(p);
    NamesNormalize(p);
    NamesMirror(Canonical(p), Normalized(p));
    SignaturesNormalize(p);
    CountNormalizes(p);
    forall i | 0 <= i < |Normalized(p).functions| ensures DeclarationFree(Normalized(p), i) {
      SortedFrom(p, i);
      var j: nat :| CameFrom(p, Canonical(p), i, j);
      DeclarationNormalizes(p, i, j);
    }
  }

  lemma {:induction false} CallerKnown(sigs: Signatures, functions: seq<Function<i64>>, name: string)
    requires name in CallsByName(sigs, functions)
    ensures exists i :: 0 <= i < |functions| && functions[i].name == name
  {
    var n := |functions| - 1;
    if functions[n].name != name {
      CallerKnown(sigs, functions[..n], name);
      var i :| 0 <= i < n && functions[..n][i].name == name;
      assert functions[i].name == name;
    }
  }

  /** Calls by name of the reconstructed program are calls by name of the original. */
  lemma EdgeNormalizes(p: Program, a: string, b: string)
    requires ErrorFree(p) && ParsedProgram(Canonical(p)).Some? && ErrorFree(Normalized(p))
    requires Edge(CallsByName(SignaturesOf(Normalized(p).functions), Normalized(p).functions), a, b)
    ensures Edge(CallsByName(SignaturesOf(p.functions), p.functions), a, b)
  {
    var q := Normalized(p);
    SignaturesNormalize(p);
    CallerKnown(SignaturesOf(q.functions), q.functions, a);
    var i :| 0 <= i < |q.functions| && q.functions[i].name == a;
    Reconstructs(p);
    SortedFrom(p, i);
    var j: nat :| CameFrom(p, Canonical(p), i, j);
    ReconstructsAt(p, i, j);
    CallsLookup(SignaturesOf(q.functions), q.functions, i);
    CallsLookup(SignaturesOf(p.functions), p.functions, j);
  }

  /** An accepted program is accepted again after its declarations are sorted. */
  lemma AcceptedNormalizes(p: Program)
    requires CheckAccepts(p)
    ensures ParsedProgram(Canonical(p)).Some? && CheckAccepts(Normalized(p))
  {
    NoErrors(p);
    ErrorFreeNormalizes(p);
    NoErrors(Normalized(p));
    var names := CallsByName(SignaturesOf(p.functions), p.functions);
    var sorted := CallsByName(SignaturesOf(Normalized(p).functions), Normalized(p).functions);
    forall path: seq<string> ensures !IsCycle(sorted, path) {
      if IsCycle(sorted, path) {
        forall k | 0 <= k < |path| - 1 ensures Edge(names, path[k], path[k + 1]) {
          EdgeNormalizes(p, path[k], path[k + 1]);
        }
        assert IsCycle(names, path);
      }
    }
  }
}
