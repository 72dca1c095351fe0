// Repository instructions only attenuate: the outcome depends on which statements
// apply and not on their order, and taking statements away never takes a permission away.
module Attenuation {
  import opened Prelude
  import opened Instructions

  // ---------- what an analysis means ----------

  ghost predicate Denied(items: seq<Item>, c: string) {
    exists i :: i in items && Guides(i.source) && i.statement.kind.Constraint? && c in i.statement.capabilities
  }

  ghost predicate ClaimsAuthority(items: seq<Item>) {
    exists i :: i in items && Guides(i.source) && i.statement.kind.GrantClaim?
  }

  ghost predicate HidesEffect(items: seq<Item>) {
    exists i :: i in items && Guides(i.source) && i.statement.kind.Opaque? && i.statement.capabilities != {}
  }

  ghost predicate Advised(items: seq<Item>) {
    exists i :: i in items && Advises(i)
  }

  ghost predicate Directed(items: seq<Item>, key: DirectiveKey, value: string) {
    exists i :: i in items && Directs(i, key, value)
  }

  /** Two applicable directives of one source class give different values to the same subject and action. */
  ghost predicate Contradicts(items: seq<Item>) {
    exists key, v, w :: v != w && Directed(items, key, v) && Directed(items, key, w)
  }

  lemma InFront(items: seq<Item>, x: Item)
    requires items != []
    ensures x in items <==> x in items[..|items| - 1] || x == items[|items| - 1]
  {
    var n := |items| - 1;
    assert items == items[..n] + [items[n]];
  }

  lemma AllInFront(items: seq<Item>)
    requires items != []
    ensures forall x :: x in items <==> x in items[..|items| - 1] || x == items[|items| - 1]
  {
    forall x ensures x in items <==> x in items[..|items| - 1] || x == items[|items| - 1] {
      InFront(items, x);
    }
  }

  lemma {:induction false} DeniesMean(items: seq<Item>, c: string)
    ensures c in AnalyzeAll(items).repositoryDenies <==> Denied(items, c)
  {
    if items != [] {
      AllInFront(items);
      DeniesMean(items[..|items| - 1], c);
    }
  }

  lemma {:induction false} FlagsMean(items: seq<Item>)
    ensures InvalidAuthorityClaim in AnalyzeAll(items).flags <==> ClaimsAuthority(items)
    ensures OpaqueEffect in AnalyzeAll(items).flags <==> HidesEffect(items)
    ensures HasAdvice in AnalyzeAll(items).flags <==> Advised(items)
  {
    if items != [] {
      var front, last := items[..|items| - 1], items[|items| - 1];
      FlagsMean(front);
      FlagsStep(items);
      hide ClaimsAuthority, HidesEffect, Advised;
    }
  }

  lemma FlagsStep(items: seq<Item>)
    requires items != []
    ensures var front, last := items[..|items| - 1], items[|items| - 1];
            && (ClaimsAuthority(items) <==> ClaimsAuthority(front) || (Guides(last.source) && last.statement.kind.GrantClaim?))
            && (HidesEffect(items) <==>
                  HidesEffect(front) || (Guides(last.source) && last.statement.kind.Opaque? && last.statement.capabilities != {}))
            && (Advised(items) <==> Advised(front) || Advises(last))
  {
    AllInFront(items);
    var front, last := items[..|items| - 1], items[|items| - 1];
    if Advises(last) {
      assert last in items && Advises(last);
    }
    if Advised(front) {
      var i :| i in front && Advises(i);
      assert i in items && Advises(i);
    }
  }

  lemma DirectedStep(items: seq<Item>, key: DirectiveKey, value: string)
    requires items != []
    ensures Directed(items, key, value) <==>
            Directed(items[..|items| - 1], key, value) || Directs(items[|items| - 1], key, value)
  {
    AllInFront(items);
  }

  /** The table holds a key exactly if it was directed, and then one of the values it was given. */
  lemma {:induction false} TableMeans(items: seq<Item>, key: DirectiveKey)
    ensures key in AnalyzeAll(items).directives <==> exists v :: Directed(items, key, v)
    ensures key in AnalyzeAll(items).directives ==> Directed(items, key, AnalyzeAll(items).directives[key])
  {
    if items != [] {
      var front, last := items[..|items| - 1], items[|items| - 1];
      TableMeans(front, key);
      forall v ensures Directed(items, key, v) <==> Directed(front, key, v) || Directs(last, key, v) {
        DirectedStep(items, key, v);
      }
      TableStep(AnalyzeAll(front), last, key);
    }
  }

  lemma TableStep(a: Analysis, i: Item, key: DirectiveKey)
    ensures var t := Analyzed(a, i).directives;
            if exists v :: Directs(i, key, v) then key in t && Directs(i, key, t[key])
            else (key in t <==> key in a.directives) && (key in t ==> t[key] == a.directives[key])
  {
    if Advises(i) && i.statement.value.Some? {
      assert Directs(i, (i.source, i.statement.subject, i.statement.action), i.statement.value.value);
    }
  }

  /** Although later directives replace earlier ones in the table, every contradiction is noticed. */
  lemma {:induction false} ContradictionMeans(items: seq<Item>)
    ensures Contradiction in AnalyzeAll(items).flags <==> Contradicts(items)
  {
    if items == [] {
      NothingContradicts();
    } else {
      var front, last := items[..|items| - 1], items[|items| - 1];
      ContradictionMeans(front);
      forall key, v ensures Directed(items, key, v) <==> Directed(front, key, v) || Directs(last, key, v) {
        DirectedStep(items, key, v);
      }
      forall key ensures key in AnalyzeAll(front).directives ==> Directed(front, key, AnalyzeAll(front).directives[key]) {
        TableMeans(front, key);
      }
      ContradictionStep(front, items, last);
    }
  }

  lemma NothingContradicts()
    ensures !Contradicts([])
  {
  }

  lemma ContradictionStep(front: seq<Item>, items: seq<Item>, last: Item)
    requires items == front + [last]
    requires Contradiction in AnalyzeAll(front).flags <==> Contradicts(front)
    requires forall key, v :: Directed(items, key, v) <==> Directed(front, key, v) || Directs(last, key, v)
    ensures Contradiction in AnalyzeAll(items).flags <==> Contradicts(items)
  {
    var a := AnalyzeAll(front);
    assert items[..|items| - 1] == front;
    var noticed := Contradiction in Analyzed(a, last).flags;
    if Advises(last) && last.statement.value.Some? {
      var key, v := (last.source, last.statement.subject, last.statement.action), last.statement.value.value;
      TableMeans(front, key);
      assert Directs(last, key, v);
      if noticed && !Contradicts(front) {
        assert Directed(items, key, a.directives[key]) && Directed(items, key, v);
      }
      if Contradicts(items) && !Contradicts(front) {
        OnlyLast(front, items, last, key, v);
      }
    }
    if Contradicts(front) {
      var k2, x, y :| x != y && Directed(front, k2, x) && Directed(front, k2, y);
      assert Directed(items, k2, x) && Directed(items, k2, y);
    }
  }

  /** A contradiction that was not there before involves the last directive. */
  lemma OnlyLast(front: seq<Item>, items: seq<Item>, last: Item, key: DirectiveKey, v: string)
    requires Contradicts(items) && !Contradicts(front) && Directs(last, key, v)
    requires forall k, x :: Directed(items, k, x) <==> Directed(front, k, x) || Directs(last, k, x)
    ensures exists w :: w != v && Directed(front, key, w)
    ensures forall w, x :: Directed(front, key, w) && Directed(front, key, x) ==> w == x
  {
    var k, x, y :| x != y && Directed(items, k, x) && Directed(items, k, y);
    if Directs(last, k, x) {
      assert Directed(front, k, y) && k == key;
    } else {
      assert Directed(front, k, x);
      if Directed(front, k, y) {
        assert Contradicts(front);
      }
      assert Directs(last, k, y) && k == key;
    }
  }

  // ---------- the items that apply ----------

  ghost predicate Applies(e: Envelope, authority: AuthorityEnvelope) {
    ScopeApplies(e.scope, authority.path, authority.taskKind)
  }

  ghost predicate Provides(e: Envelope, authority: AuthorityEnvelope, i: Item) {
    Applies(e, authority) && i.source == e.sourceClass && i.statement in e.statements
  }

  lemma {:induction false} ItemsMean(envelopes: seq<Envelope>, authority: AuthorityEnvelope, i: Item)
    ensures i in Items(envelopes, authority) <==> exists e :: e in envelopes && Provides(e, authority, i)
  {
    if envelopes != [] {
      var n := |envelopes| - 1;
      var front, last := envelopes[..n], envelopes[n];
      ItemsMean(front, authority, i);
      assert envelopes == front + [last];
      ItemsOfMean(last, i);
      if i in Items(front, authority) {
        var e :| e in front && Provides(e, authority, i);
        assert e in envelopes && Provides(e, authority, i);
      } else if i in Items(envelopes, authority) {
        assert last in envelopes && Provides(last, authority, i);
      }
    }
  }

  lemma ItemsOfMean(e: Envelope, i: Item)
    ensures i in ItemsOf(e) <==> i.source == e.sourceClass && i.statement in e.statements
  {
    if i.statement in e.statements && i.source == e.sourceClass {
      var k :| 0 <= k < |e.statements| && e.statements[k] == i.statement;
      assert ItemsOf(e)[k] == i;
    }
  }

  /** Fewer envelopes provide fewer items. */
  lemma ItemsShrink(fewer: seq<Envelope>, more: seq<Envelope>, authority: AuthorityEnvelope)
    requires forall e :: e in fewer ==> e in more
    ensures forall i :: i in Items(fewer, authority) ==> i in Items(more, authority)
  {
    forall i | i in Items(fewer, authority) ensures i in Items(more, authority) {
      ItemsMean(fewer, authority, i);
      ItemsMean(more, authority, i);
    }
  }

  /** Fewer items deny less and raise fewer flags. */
  lemma AnalysisShrinks(fewer: seq<Item>, more: seq<Item>)
    requires forall i :: i in fewer ==> i in more
    ensures var a, b := AnalyzeAll(fewer), AnalyzeAll(more);
            a.repositoryDenies <= b.repositoryDenies && a.flags <= b.flags
  {
    forall c | c in AnalyzeAll(fewer).repositoryDenies ensures c in AnalyzeAll(more).repositoryDenies {
      DeniesMean(fewer, c);
      DeniesMean(more, c);
    }
    FlagsMean(fewer);
    FlagsMean(more);
    ContradictionMeans(fewer);
    ContradictionMeans(more);
    DirectedShrinks(fewer, more);
    forall f | f in AnalyzeAll(fewer).flags ensures f in AnalyzeAll(more).flags {
      match f
      case HasAdvice =>
      case InvalidAuthorityClaim =>
      case OpaqueEffect =>
      case Contradiction =>
    }
  }

  lemma DirectedShrinks(fewer: seq<Item>, more: seq<Item>)
    requires forall i :: i in fewer ==> i in more
    ensures Contradicts(fewer) ==> Contradicts(more)
  {
    if Contradicts(fewer) {
      var key, v, w :| v != w && Directed(fewer, key, v) && Directed(fewer, key, w);
      assert Directed(more, key, v) && Directed(more, key, w);
    }
  }

  // ---------- the theorems ----------

  /** Exactly what an Allow takes. */
  lemma AllowMeans(b: Bounds, q: InstructionRequest)
    requires SchemasOk(q) && q.authority.roots != []
    ensures Resolve(b, q).Ok? <==> RequestEncodes(b, q) && b.receipt(q)
    ensures Resolve(b, q).Ok? ==>
            var items := Items(q.instructions, q.authority);
            Resolve(b, q).value.decision == Allow <==>
            && !ClaimsAuthority(items) && !HidesEffect(items) && !Contradicts(items)
            && q.requestedEffects != {}
            && (forall c :: c in q.requestedEffects ==>
                              && (forall r :: r in q.authority.roots ==> c in r.grants && c !in r.denies)
                              && !Denied(items, c)
                              && (c in q.authority.approvalRequired ==> ExactApproval(q.authority, c)))
  {
    var items := Items(q.instructions, q.authority);
    FlagsMean(items);
    ContradictionMeans(items);
    if Resolve(b, q).Ok? {
      forall c ensures c in Resolve(b, q).value.effective <==>
                       (forall r :: r in q.authority.roots ==> c in r.grants && c !in r.denies) && !Denied(items, c) {
        RootsMean(q.authority.roots, c);
        DeniesMean(items, c);
      }
      AllowInParts(b, q);
    }
  }

  lemma AllowInParts(b: Bounds, q: InstructionRequest)
    requires Resolve(b, q).Ok?
    ensures var a := AnalyzeAll(Items(q.instructions, q.authority));
            Resolve(b, q).value.decision == Allow <==>
            && InvalidAuthorityClaim !in a.flags && OpaqueEffect !in a.flags && Contradiction !in a.flags
            && q.requestedEffects != {}
            && forall c :: c in q.requestedEffects ==>
                             c in Resolve(b, q).value.effective
                             && (c in q.authority.approvalRequired ==> ExactApproval(q.authority, c))
  {
    NothingMissing(q.requestedEffects, Resolve(b, q).value.effective);
  }

  lemma NothingMissing(a: set<string>, b: set<string>)
    ensures a - b == {} <==> a <= b
  {
    if a - b == {} {
      forall c | c in a ensures c in b {
        assert c !in a - b;
      }
    }
  }

  /** No instruction adds authority: what is effective was granted by every root and denied by none. */
  lemma EffectiveIsGranted(b: Bounds, q: InstructionRequest, c: string)
    requires Resolve(b, q).Ok? && c in Resolve(b, q).value.effective
    ensures forall r :: r in q.authority.roots ==> c in r.grants && c !in r.denies
    ensures !Denied(Items(q.instructions, q.authority), c)
  {
    RootsMean(q.authority.roots, c);
    DeniesMean(Items(q.instructions, q.authority), c);
  }

  /**
   * Attenuation. Whatever is allowed with some instructions is allowed with any part of them, as long as the
   * receipt can be encoded; in other words, adding repository content never turns a refusal into a permission.
   */
  lemma RemovingInstructionsKeepsAllow(b: Bounds, q: InstructionRequest, fewer: seq<Envelope>)
    requires Resolve(b, q).Ok? && Resolve(b, q).value.decision == Allow
    requires forall e :: e in fewer ==> e in q.instructions
    ensures var q' := q.(instructions := fewer);
            && (Resolve(b, q').Ok? <==> b.receipt(q'))
            && (Resolve(b, q').Ok? ==>
                  Resolve(b, q').value.decision == Allow && Resolve(b, q).value.effective <= Resolve(b, q').value.effective)
  {
    var q' := q.(instructions := fewer);
    ItemsShrink(fewer, q.instructions, q.authority);
    AnalysisShrinks(Items(fewer, q.authority), Items(q.instructions, q.authority));
    forall i | 0 <= i < |fewer| ensures fewer[i].schema == ENVELOPE_SCHEMA && b.envelope(fewer[i]) {
      assert fewer[i] in q.instructions;
    }
    AllowInParts(b, q);
    if b.receipt(q') {
      AllowInParts(b, q');
    }
  }

  /** Order and repetition of envelopes do not matter to the receipt, wherever both can be encoded. */
  lemma InstructionOrderDoesNotMatter(b: Bounds, q: InstructionRequest, shuffled: seq<Envelope>)
    requires forall e :: e in shuffled <==> e in q.instructions
    requires b.receipt(q.(instructions := shuffled)) == b.receipt(q)
    ensures var q' := q.(instructions := shuffled);
            && (Resolve(b, q').Ok? <==> Resolve(b, q).Ok?)
            && (Resolve(b, q).Ok? ==> Resolve(b, q') == Resolve(b, q))
  {
    var q' := q.(instructions := shuffled);
    ItemsShrink(shuffled, q.instructions, q.authority);
    ItemsShrink(q.instructions, shuffled, q.authority);
    AnalysisShrinks(Items(shuffled, q.authority), Items(q.instructions, q.authority));
    AnalysisShrinks(Items(q.instructions, q.authority), Items(shuffled, q.authority));
    SchemasAgree(b, q, q');
    hide AnalyzeAll, Items, SchemasOk, RequestEncodes;
    var a, a' := AnalyzeAll(Items(q.instructions, q.authority)), AnalyzeAll(Items(shuffled, q.authority));
    if Resolve(b, q).Ok? {
      DecideAgrees(q, q', Denies(q.authority.roots), Resolve(b, q).value.effective, a, a');
    }
  }

  lemma DecideAgrees(q: InstructionRequest, q': InstructionRequest, hardDenies: set<string>, effective: set<string>, a: Analysis, a': Analysis)
    requires q'.authority == q.authority && q'.requestedEffects == q.requestedEffects
    requires a'.flags == a.flags && a'.repositoryDenies == a.repositoryDenies
    ensures Decide(q', hardDenies, effective, a') == Decide(q, hardDenies, effective, a)
  {
  }

  lemma SchemasAgree(b: Bounds, q: InstructionRequest, q': InstructionRequest)
    requires q'.schema == q.schema && q'.authority == q.authority
    requires forall e :: e in q'.instructions <==> e in q.instructions
    ensures SchemasOk(q') <==> SchemasOk(q)
    ensures RequestEncodes(b, q') <==> RequestEncodes(b, q)
  {
    assert (forall e :: e in q.instructions ==> b.envelope(e)) <==>
           (forall i :: 0 <= i < |q.instructions| ==> b.envelope(q.instructions[i]));
    assert (forall e :: e in q'.instructions ==> b.envelope(e)) <==>
           (forall i :: 0 <= i < |q'.instructions| ==> b.envelope(q'.instructions[i]));
    assert (forall e :: e in q.instructions ==> e.schema == ENVELOPE_SCHEMA) <==>
           (forall i :: 0 <= i < |q.instructions| ==> q.instructions[i].schema == ENVELOPE_SCHEMA);
    assert (forall e :: e in q'.instructions ==> e.schema == ENVELOPE_SCHEMA) <==>
           (forall i :: 0 <= i < |q'.instructions| ==> q'.instructions[i].schema == ENVELOPE_SCHEMA);
  }
}
