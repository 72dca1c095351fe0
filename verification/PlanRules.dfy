// When effects are planned: what is asked of the execution, of the authority and of the approvals,
// written out field by field.
module PlanRules {
  import opened Prelude
  import opened Ast
  import opened Bytecode
  import opened Machine
  import opened Instructions
  import opened Attenuation
  import opened InstructionRules
  import opened EffectPlanning
  import opened ApprovalUse

  /** A completed execution of a known profile, whose requests have the slots and labels of the profile. */
  predicate ExecutionRule(e: Execution) {
    && e.completed && e.bound
    && forall k :: 0 <= k < |e.requests| ==>
                     match e.schema
                     case Legacy => e.requests[k].authoritySlot.None? && e.requests[k].information.None?
                     case Linear => e.requests[k].authoritySlot.Some? && e.requests[k].information.None?
                     case Information => e.requests[k].authoritySlot.Some? && e.requests[k].information.Some?
                     case Unknown(_) => true
  }

  predicate KnownSchema(schema: Schema) {
    schema.Legacy? || schema.Linear? || schema.Information?
  }

  /** The identity says what the request says, and nothing else. */
  predicate IdentityRule(schema: Schema, semantic: Digest, q: EffectRequest) {
    && q.id.semantic == semantic && q.id.index == q.index
    && match schema
       case Information =>
         && q.id.InformationId? && q.id.function_ == q.function_ && q.id.effect == q.effect && q.authoritySlot == Some(q.id.slot)
         && q.information == Some(q.id.information) && q.id.arguments == q.arguments
       case Linear =>
         && q.id.LinearId? && q.id.function_ == q.function_ && q.id.effect == q.effect && q.authoritySlot == Some(q.id.slot)
         && q.id.arguments == q.arguments
       case _ => q.id.LegacyId?
  }

  lemma IdentityAgrees(schema: Schema, semantic: Digest, q: EffectRequest)
    ensures IdentityRule(schema, semantic, q) <==> DerivedId(schema, semantic, q) == Some(q.id)
  {
  }

  /** The approval is for this request of this task: its nonce, its effect and no other, its slot and its label. */
  predicate ApprovalRule(authority: AuthorityEnvelope, q: EffectRequest, a: Approval) {
    && a.nonce == ForRequest(q.id)
    && a.taskId == authority.taskId
    && q.effect in a.capabilities && (forall c :: c in a.capabilities ==> c == q.effect)
    && (if q.authoritySlot.Some? then a.authoritySlot.Some? && a.authoritySlot.value == q.authoritySlot.value else a.authoritySlot.None?)
    && (if q.information.Some? then a.information.Some? && a.information.value == q.information.value else a.information.None?)
  }

  /** One approval is for the request, and no other. */
  predicate ApprovedOnce(authority: AuthorityEnvelope, q: EffectRequest) {
    exists i :: 0 <= i < |authority.approvals| && ApprovalRule(authority, q, authority.approvals[i])
                && forall j :: 0 <= j < |authority.approvals| && ApprovalRule(authority, q, authority.approvals[j]) ==> j == i
  }

  /** The authority is for the program, and lets all its effects pass. */
  predicate AuthorityRule(authority: AuthorityEnvelope, semantic: Digest, requests: seq<EffectRequest>) {
    && authority.schema == "joan.authority-envelope.v0" && authority.taskId == ProgramTask(semantic) && authority.roots != []
    && forall k :: 0 <= k < |requests| ==>
                     && (forall i :: 0 <= i < |authority.roots| ==>
                                       requests[k].effect in authority.roots[i].grants && requests[k].effect !in authority.roots[i].denies)
                     && (requests[k].effect in authority.approvalRequired ==>
                           exists i :: 0 <= i < |authority.approvals|
                                       && authority.approvals[i].nonce != OtherNonce("") && authority.approvals[i].taskId == authority.taskId
                                       && authority.approvals[i].capabilities == {requests[k].effect})
  }

  ghost predicate RequestRule(e: Execution, authority: AuthorityEnvelope, consumed: set<RequestId>, k: nat)
    requires k < |e.requests|
  {
    var q := e.requests[k];
    && q.index == k && IdentityRule(e.schema, e.semantic, q) && IdEncodes(q.id)
    && q.id !in consumed && ApprovedOnce(authority, q)
  }

  /** The digests of the authority, of the decision on it and of the plan can be taken. */
  ghost predicate PlanEncodes(b: PlanBounds, e: Execution, authority: AuthorityEnvelope) {
    && b.plan(e.requests)
    && b.resolver.authority(authority) && b.resolver.receipt(EffectQuestion(authority, e.requests))
  }

  // ---------- the plan meets the rules ----------

  lemma ExecutionAgrees(e: Execution)
    ensures ExecutionRule(e) && KnownSchema(e.schema) <==> ProfileOk(e)
  {
  }

  lemma ApprovalAgrees(authority: AuthorityEnvelope, q: EffectRequest, a: Approval)
    ensures ApprovalRule(authority, q, a) <==> Approves(authority, q, a)
  {
    assert a.capabilities == {q.effect} <==> q.effect in a.capabilities && forall c :: c in a.capabilities ==> c == q.effect;
  }

  lemma OnceIsOne(authority: AuthorityEnvelope, q: EffectRequest)
    ensures ApprovedOnce(authority, q) <==> |Matching(authority, q, authority.approvals)| == 1
  {
    var approvals := authority.approvals;
    var matching := Matching(authority, q, approvals);
    forall i | 0 <= i < |approvals| ensures ApprovalRule(authority, q, approvals[i]) <==> i in matching {
      ApprovalAgrees(authority, q, approvals[i]);
    }
    hide ApprovalRule, Approves;
    if |matching| == 1 {
      var i :| i in matching;
      OneElement(matching, i);
    }
    if ApprovedOnce(authority, q) {
      var i :| 0 <= i < |approvals| && ApprovalRule(authority, q, approvals[i])
               && forall j :: 0 <= j < |approvals| && ApprovalRule(authority, q, approvals[j]) ==> j == i;
      assert matching == {i};
    }
  }

  lemma OneElement(s: set<nat>, i: nat)
    requires |s| == 1 && i in s
    ensures forall j :: j in s ==> j == i
  {
    assert |s - {i}| == 0;
    forall j | j in s ensures j == i {
      assert j !in s - {i};
    }
  }

  /** With no instructions to weigh, the authority alone decides. */
  lemma AuthorityAgrees(b: PlanBounds, e: Execution, authority: Option<AuthorityEnvelope>)
    requires e.requests != []
    ensures AuthorityError(b, e, authority).None? <==>
            && authority.Some? && AuthorityRule(authority.value, e.semantic, e.requests)
            && b.resolver.authority(authority.value) && b.resolver.receipt(EffectQuestion(authority.value, e.requests))
  {
    if authority.Some? {
      var q := EffectQuestion(authority.value, e.requests);
      QuestionMeans(b.resolver, q, authority.value, e);
      hide Resolve, AuthorityRule;
    }
  }

  lemma QuestionMeans(b: Bounds, q: InstructionRequest, authority: AuthorityEnvelope, e: Execution)
    requires q == EffectQuestion(authority, e.requests) && e.requests != []
    ensures authority.taskId == ProgramTask(e.semantic) ==>
              (Resolve(b, q).Ok? && Resolve(b, q).value.decision.Allow? <==>
               AuthorityRule(authority, e.semantic, e.requests) && b.authority(authority) && b.receipt(q))
  {
    ResolutionMeans(b, q);
    NothingSaid(q);
    hide Resolve;
    assert e.requests[0].effect in q.requestedEffects;
    assert forall k :: 0 <= k < |e.requests| ==> e.requests[k] in e.requests;
    assert forall c :: c in q.requestedEffects <==> exists k :: 0 <= k < |e.requests| && e.requests[k].effect == c;
    OnlyAllow(q);
    EffectsAllowed(q, authority, e);
  }

  lemma NothingSaid(q: InstructionRequest)
    requires q.instructions == []
    ensures forall c, s :: !Says(q, c, s)
  {
  }

  /** Of the decisions, Allow is made exactly by its own rule. */
  lemma OnlyAllow(q: InstructionRequest)
    ensures forall d :: DecisionRule(q, d) && DecisionRule(q, Allow) ==> d == Allow
  {
  }

  lemma EffectsAllowed(q: InstructionRequest, authority: AuthorityEnvelope, e: Execution)
    requires q == EffectQuestion(authority, e.requests) && e.requests != [] && q.requestedEffects != {}
    requires forall c, s :: !Says(q, c, s)
    requires forall c :: c in q.requestedEffects <==> exists k :: 0 <= k < |e.requests| && e.requests[k].effect == c
    ensures DecisionRule(q, Allow) && authority.schema == "joan.authority-envelope.v0" && authority.roots != []
            && authority.taskId == ProgramTask(e.semantic) <==>
            AuthorityRule(authority, e.semantic, e.requests)
  {
    hide Says;
    assert !SaysKind(q, GrantClaim) && !Hides(q) && !Disagrees(q) && forall c :: !Constrains(q, c);
    if DecisionRule(q, Allow) {
      forall k | 0 <= k < |e.requests|
        ensures Usable(q, e.requests[k].effect) && (e.requests[k].effect in authority.approvalRequired ==> IsApproved(q, e.requests[k].effect))
      {
        assert e.requests[k].effect in q.requestedEffects;
      }
    }
    if AuthorityRule(authority, e.semantic, e.requests) {
      forall c | c in q.requestedEffects ensures Usable(q, c) && (c in authority.approvalRequired ==> IsApproved(q, c)) {
        var k :| 0 <= k < |e.requests| && e.requests[k].effect == c;
      }
    }
  }

  /** Exactly when a plan succeeds, and what it plans. */
  lemma PlanningMeans(b: PlanBounds, e: Execution, authority: Option<AuthorityEnvelope>, consumed: set<RequestId>)
    ensures Plan(b, e, authority, consumed).Ok? <==>
            && ExecutionRule(e) && KnownSchema(e.schema) && b.plan(e.requests)
            && (e.requests != [] ==>
                  && authority.Some? && AuthorityRule(authority.value, e.semantic, e.requests) && PlanEncodes(b, e, authority.value)
                  && forall k :: 0 <= k < |e.requests| ==> RequestRule(e, authority.value, consumed, k))
    ensures Plan(b, e, authority, consumed).Ok? ==> Plan(b, e, authority, consumed).value == e.requests
  {
    hide ExecutionRule, ProfileOk, KnownSchema, AuthorityRule, AuthorityError, IdEncodes;
    PlanMeans(b, e, authority, consumed);
    ExecutionAgrees(e);
    if e.requests != [] {
      AuthorityAgrees(b, e, authority);
      if authority.Some? {
        forall k | 0 <= k < |e.requests| ensures RequestRule(e, authority.value, consumed, k) <==> Plannable(e, authority.value, consumed, k) {
          IdentityAgrees(e.schema, e.semantic, e.requests[k]);
          OnceIsOne(authority.value, e.requests[k]);
        }
      }
    }
  }

  /** An approval of another nonce, task, effect, slot or label does not help: without the right one nothing is planned. */
  lemma OtherApprovalsDoNotHelp(b: PlanBounds, e: Execution, authority: AuthorityEnvelope, consumed: set<RequestId>, k: nat)
    requires k < |e.requests|
    requires forall i :: 0 <= i < |authority.approvals| ==>
                           var a, q := authority.approvals[i], e.requests[k];
                           a.nonce != ForRequest(q.id) || a.taskId != authority.taskId || a.capabilities != {q.effect}
                           || a.authoritySlot != q.authoritySlot || a.information != q.information
    ensures Plan(b, e, Some(authority), consumed).Err?
  {
    PlanningMeans(b, e, Some(authority), consumed);
    var q := e.requests[k];
    forall i | 0 <= i < |authority.approvals| ensures !ApprovalRule(authority, q, authority.approvals[i]) {
      var a := authority.approvals[i];
      assert (q.effect in a.capabilities && forall c :: c in a.capabilities ==> c == q.effect) ==> a.capabilities == {q.effect};
    }
    assert !RequestRule(e, authority, consumed, k);
  }

  /** The requests of any run of any bytecode are numbered, and their identities say what they say. */
  lemma RecordedIdentities(p: BytecodeProgram, f: nat, arguments: seq<Value>, budget: nat, k: nat)
    requires k < |RunCall(p, f, arguments, 0, MachineState(budget, 0, [], [])).state.requests|
    ensures var q := RunCall(p, f, arguments, 0, MachineState(budget, 0, [], [])).state.requests[k];
            q.index == k && IdentityRule(p.schema, p.semanticDigest, q) && IdEncodes(q.id)
  {
    var log := RunCall(p, f, arguments, 0, MachineState(budget, 0, [], [])).state.requests;
    MachineRequestsAreIdentified(p, f, arguments, budget, k);
    hide RunCall;
    IdentityAgrees(p.schema, p.semanticDigest, log[k]);
  }
}
