// What the instruction resolver decides, in terms of the envelopes, the paths and the roots
// of a request: which statements count, and which of the six decisions is made when.
module InstructionRules {
  import opened Prelude
  import opened Instructions
  import opened Attenuation

  // ---------- which envelopes count ----------

  /** A prefix covers itself and everything below it. */
  ghost predicate Covers(prefix: string, path: string) {
    path == prefix || exists rest: string :: path == prefix + "/" + rest
  }

  /** An envelope without prefixes or kinds is for all paths or all kinds. */
  ghost predicate IsFor(e: Envelope, path: string, taskKind: string) {
    && (e.scope.pathPrefixes == [] || exists prefix :: prefix in e.scope.pathPrefixes && Covers(prefix, path))
    && (e.scope.taskKinds == [] || taskKind in e.scope.taskKinds)
  }

  /** Governance and guidance for this path and kind say it. */
  ghost predicate Says(q: InstructionRequest, c: SourceClass, s: Statement) {
    && (c.RepositoryGovernance? || c.PathGuidance?)
    && exists e :: e in q.instructions && e.sourceClass == c && s in e.statements && IsFor(e, q.authority.path, q.authority.taskKind)
  }

  ghost predicate SaysKind(q: InstructionRequest, kind: StatementKind) {
    exists c, s :: Says(q, c, s) && s.kind == kind
  }

  ghost predicate Hides(q: InstructionRequest) {
    exists c, s :: Says(q, c, s) && s.kind.Opaque? && s.capabilities != {}
  }

  ghost predicate Constrains(q: InstructionRequest, capability: string) {
    exists c, s :: Says(q, c, s) && s.kind.Constraint? && capability in s.capabilities
  }

  predicate IsAdvice(s: Statement) {
    s.kind.Procedure? || s.kind.Solicitation?
  }

  /** Two pieces of advice of one class give the same subject and action different values. */
  ghost predicate Disagrees(q: InstructionRequest) {
    exists c, s, t ::
      && Says(q, c, s) && Says(q, c, t) && IsAdvice(s) && IsAdvice(t)
      && s.subject == t.subject && s.action == t.action
      && s.value.Some? && t.value.Some? && s.value.value != t.value.value
  }

  // ---------- what authority is left ----------

  predicate Granted(q: InstructionRequest, capability: string) {
    forall i :: 0 <= i < |q.authority.roots| ==> capability in q.authority.roots[i].grants
  }

  predicate HostDenies(q: InstructionRequest, capability: string) {
    exists i :: 0 <= i < |q.authority.roots| && capability in q.authority.roots[i].denies
  }

  ghost predicate Usable(q: InstructionRequest, capability: string) {
    Granted(q, capability) && !HostDenies(q, capability) && !Constrains(q, capability)
  }

  /** An approval with a nonce, for this task and for this capability alone. */
  predicate IsApproved(q: InstructionRequest, capability: string) {
    exists i :: 0 <= i < |q.authority.approvals|
                && q.authority.approvals[i].nonce != OtherNonce("")
                && q.authority.approvals[i].taskId == q.authority.taskId
                && q.authority.approvals[i].capabilities == {capability}
  }

  ghost predicate AllUsable(q: InstructionRequest) {
    forall c :: c in q.requestedEffects ==> Usable(q, c)
  }

  /** Whatever is not usable may at least be asked for. */
  ghost predicate Askable(q: InstructionRequest) {
    forall c :: c in q.requestedEffects && !Usable(q, c) ==> !HostDenies(q, c) && !Constrains(q, c) && c in q.authority.approvable
  }

  predicate AllApproved(q: InstructionRequest) {
    forall c :: c in q.requestedEffects && c in q.authority.approvalRequired ==> IsApproved(q, c)
  }

  /** When each of the decisions is made. */
  ghost predicate DecisionRule(q: InstructionRequest, d: Decision) {
    var blocked := SaysKind(q, GrantClaim) || Hides(q);
    match d
    case Deny => blocked || (!Disagrees(q) && !AllUsable(q) && !Askable(q))
    case Conflict => !blocked && Disagrees(q)
    case Data => !blocked && !Disagrees(q) && q.requestedEffects == {} && !SaysKind(q, Procedure) && !SaysKind(q, Solicitation)
    case Advise => !blocked && !Disagrees(q) && q.requestedEffects == {} && (SaysKind(q, Procedure) || SaysKind(q, Solicitation))
    case Allow => !blocked && !Disagrees(q) && q.requestedEffects != {} && AllUsable(q) && AllApproved(q)
    case Ask =>
      && !blocked && !Disagrees(q) && q.requestedEffects != {}
      && ((AllUsable(q) && !AllApproved(q)) || (!AllUsable(q) && Askable(q)))
  }

  /** The receipt of a request: ceiling, denies, what is left, and the decision. */
  ghost predicate ReceiptRule(q: InstructionRequest, r: Receipt) {
    && (forall c :: c in r.ceiling <==> Granted(q, c) && !HostDenies(q, c))
    && (forall c :: c in r.repositoryDenies <==> Constrains(q, c))
    && (forall c :: c in r.effective <==> Usable(q, c))
    && DecisionRule(q, r.decision)
  }

  predicate SchemaRule(q: InstructionRequest) {
    && q.schema == "joan.instruction-request.v0" && q.authority.schema == "joan.authority-envelope.v0"
    && forall e :: e in q.instructions ==> e.schema == "joan.instruction-envelope.v0"
  }

  // ---------- scopes ----------

  lemma PrefixAgrees(prefix: string, path: string)
    ensures Covers(prefix, path) <==> path == prefix || prefix + "/" <= path
  {
    if prefix + "/" <= path {
      var n := |prefix| + 1;
      assert path == (prefix + "/") + path[n..];
      assert path == prefix + "/" + path[n..];
    }
  }

  /** A path that goes on with anything but a slash is not below the prefix. */
  lemma OnlyBelow(prefix: string, c: char, rest: string)
    ensures Covers(prefix, prefix + [c] + rest) <==> c == '/'
  {
    var path := prefix + [c] + rest;
    PrefixAgrees(prefix, path);
    assert path[|prefix|] == c && |path| > |prefix|;
    assert (prefix + "/")[|prefix|] == '/';
    if c == '/' {
      assert path == prefix + "/" + rest;
    }
  }

  lemma ScopeAgrees(e: Envelope, authority: AuthorityEnvelope)
    ensures Applies(e, authority) <==> IsFor(e, authority.path, authority.taskKind)
  {
    var prefixes := e.scope.pathPrefixes;
    forall prefix | prefix in prefixes ensures Covers(prefix, authority.path) <==> authority.path == prefix || prefix + "/" <= authority.path {
      PrefixAgrees(prefix, authority.path);
    }
    hide Covers;
    assert forall i :: 0 <= i < |prefixes| ==> prefixes[i] in prefixes;
    assert (exists prefix :: prefix in prefixes && Covers(prefix, authority.path)) <==>
           exists i :: 0 <= i < |prefixes| && Covers(prefixes[i], authority.path);
  }

  /** The items that the resolver weighs are what the envelopes say. */
  lemma ItemsAreSaid(q: InstructionRequest, i: Item)
    ensures i in Items(q.instructions, q.authority) && Guides(i.source) <==> Says(q, i.source, i.statement)
  {
    ItemsMean(q.instructions, q.authority, i);
    forall e ensures Applies(e, q.authority) <==> IsFor(e, q.authority.path, q.authority.taskKind) {
      ScopeAgrees(e, q.authority);
    }
    hide Applies, IsFor;
    if Says(q, i.source, i.statement) {
      var e :| e in q.instructions && e.sourceClass == i.source && i.statement in e.statements
               && IsFor(e, q.authority.path, q.authority.taskKind);
      assert Provides(e, q.authority, i);
    }
  }

  lemma ConstraintsAgree(q: InstructionRequest, c: string)
    ensures Denied(Items(q.instructions, q.authority), c) <==> Constrains(q, c)
  {
    hide Says, Items;
    var items := Items(q.instructions, q.authority);
    forall i ensures i in items && Guides(i.source) <==> Says(q, i.source, i.statement) {
      ItemsAreSaid(q, i);
    }
    hide Guides;
    if Constrains(q, c) {
      var k, s :| Says(q, k, s) && s.kind.Constraint? && c in s.capabilities;
      assert Item(k, s) in items && Guides(Item(k, s).source);
    }
  }

  lemma KindsAgree(q: InstructionRequest)
    ensures ClaimsAuthority(Items(q.instructions, q.authority)) <==> SaysKind(q, GrantClaim)
    ensures HidesEffect(Items(q.instructions, q.authority)) <==> Hides(q)
    ensures Advised(Items(q.instructions, q.authority)) <==> SaysKind(q, Procedure) || SaysKind(q, Solicitation)
  {
    hide Says, Items;
    var items := Items(q.instructions, q.authority);
    forall i ensures i in items && Guides(i.source) <==> Says(q, i.source, i.statement) {
      ItemsAreSaid(q, i);
    }
    forall c, s | Says(q, c, s) ensures Item(c, s) in items && Guides(Item(c, s).source) {
      ItemsAreSaid(q, Item(c, s));
    }
    if SaysKind(q, Procedure) || SaysKind(q, Solicitation) {
      var c, s :| Says(q, c, s) && IsAdvice(s);
      ItemsAreSaid(q, Item(c, s));
      assert IsAdvice(s) && Guides(c) && Item(c, s).statement.kind == s.kind;
      assert Advises(Item(c, s));
    }
  }

  lemma AdviceIsSaid(q: InstructionRequest, key: DirectiveKey, value: string)
    ensures Directed(Items(q.instructions, q.authority), key, value) <==>
            exists s :: Says(q, key.0, s) && IsAdvice(s) && s.subject == key.1 && s.action == key.2 && s.value == Some(value)
  {
    hide Says, Items;
    var items := Items(q.instructions, q.authority);
    forall i ensures i in items && Guides(i.source) <==> Says(q, i.source, i.statement) {
      ItemsAreSaid(q, i);
    }
    if s :| Says(q, key.0, s) && IsAdvice(s) && s.subject == key.1 && s.action == key.2 && s.value == Some(value) {
      ItemsAreSaid(q, Item(key.0, s));
      assert Item(key.0, s) in items && Directs(Item(key.0, s), key, value);
    }
  }

  lemma ContradictionsAgree(q: InstructionRequest)
    ensures Contradicts(Items(q.instructions, q.authority)) <==> Disagrees(q)
  {
    hide Says, Items, Directed;
    var items := Items(q.instructions, q.authority);
    if Contradicts(items) {
      var key, v, w :| v != w && Directed(items, key, v) && Directed(items, key, w);
      AdviceIsSaid(q, key, v);
      AdviceIsSaid(q, key, w);
    }
    if Disagrees(q) {
      var c, s, t :| && Says(q, c, s) && Says(q, c, t) && IsAdvice(s) && IsAdvice(t)
                     && s.subject == t.subject && s.action == t.action
                     && s.value.Some? && t.value.Some? && s.value.value != t.value.value;
      var key := (c, s.subject, s.action);
      AdviceIsSaid(q, key, s.value.value);
      AdviceIsSaid(q, key, t.value.value);
    }
  }

  // ---------- the decision ----------

  lemma HostAgrees(q: InstructionRequest, c: string)
    requires q.authority.roots != []
    ensures c in Grants(q.authority.roots) <==> Granted(q, c)
    ensures c in Denies(q.authority.roots) <==> HostDenies(q, c)
  {
    RootsMean(q.authority.roots, c);
    assert forall i :: 0 <= i < |q.authority.roots| ==> q.authority.roots[i] in q.authority.roots;
  }

  /** The decision, given what the analysis of the request found. */
  lemma DecisionAgrees(q: InstructionRequest, hardDenies: set<string>, effective: set<string>, a: Analysis)
    requires forall c :: c in hardDenies <==> HostDenies(q, c)
    requires forall c :: c in effective <==> Usable(q, c)
    requires forall c :: c in a.repositoryDenies <==> Constrains(q, c)
    requires InvalidAuthorityClaim in a.flags <==> SaysKind(q, GrantClaim)
    requires OpaqueEffect in a.flags <==> Hides(q)
    requires HasAdvice in a.flags <==> SaysKind(q, Procedure) || SaysKind(q, Solicitation)
    requires Contradiction in a.flags <==> Disagrees(q)
    ensures DecisionRule(q, Decide(q, hardDenies, effective, a))
  {
    hide SaysKind, Hides, Constrains, Usable, HostDenies, Disagrees;
    NothingMissing(q.requestedEffects, effective);
    ApprovalsAgree(q);
    var missing := q.requestedEffects - effective;
    assert missing <= q.authority.approvable <==> forall c :: c in missing ==> c in q.authority.approvable;
    assert missing !! hardDenies + a.repositoryDenies <==> forall c :: c in missing ==> c !in hardDenies && c !in a.repositoryDenies;
  }

  lemma ApprovalsAgree(q: InstructionRequest)
    ensures AllApproved(q) <==> forall c :: c in q.requestedEffects * q.authority.approvalRequired ==> ExactApproval(q.authority, c)
  {
    forall c ensures IsApproved(q, c) <==> ExactApproval(q.authority, c) {
    }
  }

  lemma SchemaAgrees(q: InstructionRequest)
    ensures SchemaRule(q) <==> SchemasOk(q)
  {
    assert forall i :: 0 <= i < |q.instructions| ==> q.instructions[i] in q.instructions;
  }

  /** A request is answered exactly if its schemas are known, it has a root, and digests can be taken; the answer follows the rules. */
  lemma ResolutionMeans(b: Bounds, q: InstructionRequest)
    ensures Resolve(b, q).Ok? <==> SchemaRule(q) && q.authority.roots != [] && RequestEncodes(b, q) && b.receipt(q)
    ensures Resolve(b, q).Ok? ==> ReceiptRule(q, Resolve(b, q).value)
  {
    SchemaAgrees(q);
    hide SchemaRule, SchemasOk, RequestEncodes, Decide, DecisionRule, Constrains, Granted, HostDenies;
    if Resolve(b, q).Ok? {
      var items := Items(q.instructions, q.authority);
      var a := AnalyzeAll(items);
      FlagsMean(items);
      ContradictionMeans(items);
      KindsAgree(q);
      ContradictionsAgree(q);
      forall c ensures c in a.repositoryDenies <==> Constrains(q, c) {
        DeniesMean(items, c);
        ConstraintsAgree(q, c);
      }
      forall c ensures (c in Grants(q.authority.roots) <==> Granted(q, c)) && (c in Denies(q.authority.roots) <==> HostDenies(q, c)) {
        HostAgrees(q, c);
      }
      DecisionAgrees(q, Denies(q.authority.roots), Resolve(b, q).value.effective, a);
    }
  }
}
