// Approvals are used once: what a plan takes, over any sequence of plans, and that
// the requests of a run of the machine always carry the identities planning expects.
module ApprovalUse {
  import opened Prelude
  import opened Ast
  import opened Bytecode
  import opened Machine
  import opened LinearAuthority
  import opened Instructions
  import opened EffectPlanning

  // ---------- one plan ----------

  /** The request has its position and identity, the identity exists, its nonce is unused, and exactly one approval matches it. */
  ghost predicate Plannable(e: Execution, authority: AuthorityEnvelope, consumed: set<RequestId>, k: nat)
    requires k < |e.requests|
  {
    var q := e.requests[k];
    && q.index == k && DerivedId(e.schema, e.semantic, q) == Some(q.id) && IdEncodes(q.id)
    && q.id !in consumed
    && |Matching(authority, q, authority.approvals)| == 1
  }

  lemma {:induction false} FirstRefusalMeans(e: Execution, authority: AuthorityEnvelope, consumed: set<RequestId>, k: nat)
    requires k <= |e.requests|
    ensures FirstRefusal(e, authority, consumed, k).None? <==>
            forall j :: k <= j < |e.requests| ==> Refusal(e, authority, consumed, j).None?
    decreases |e.requests| - k
  {
    if k < |e.requests| {
      FirstRefusalMeans(e, authority, consumed, k + 1);
    }
  }

  lemma DerivedIndex(schema: Schema, semantic: Digest, q: EffectRequest)
    requires DerivedId(schema, semantic, q) == Some(q.id)
    ensures q.id.index == q.index
  {
  }

  /** Numbered requests with derived identities cannot repeat one. */
  lemma NumberedIdsAreNew(e: Execution, k: nat)
    requires k < |e.requests|
    requires forall j :: 0 <= j <= k ==> e.requests[j].index == j && DerivedId(e.schema, e.semantic, e.requests[j]) == Some(e.requests[j].id)
    ensures e.requests[k].id !in Ids(e.requests[..k])
  {
    forall j | 0 <= j < k ensures e.requests[j].id != e.requests[k].id {
      DerivedIndex(e.schema, e.semantic, e.requests[j]);
      DerivedIndex(e.schema, e.semantic, e.requests[k]);
    }
  }

  lemma AllPlannable(e: Execution, authority: AuthorityEnvelope, consumed: set<RequestId>)
    ensures FirstRefusal(e, authority, consumed, 0).None? <==>
            forall k :: 0 <= k < |e.requests| ==> Plannable(e, authority, consumed, k)
  {
    FirstRefusalMeans(e, authority, consumed, 0);
    forall k | 0 <= k < |e.requests|
      ensures Refusal(e, authority, consumed, k).None? ==> Plannable(e, authority, consumed, k)
    {
      CountIsMatching(authority, e.requests[k], authority.approvals);
    }
    if forall k :: 0 <= k < |e.requests| ==> Plannable(e, authority, consumed, k) {
      forall k | 0 <= k < |e.requests| ensures Refusal(e, authority, consumed, k).None? {
        CountIsMatching(authority, e.requests[k], authority.approvals);
        forall j | 0 <= j <= k ensures e.requests[j].index == j && DerivedId(e.schema, e.semantic, e.requests[j]) == Some(e.requests[j].id) {
          assert Plannable(e, authority, consumed, j);
        }
        NumberedIdsAreNew(e, k);
        assert Plannable(e, authority, consumed, k);
      }
    }
  }

  /**
   * Exactly when a plan succeeds: the profile is right, the plan can be encoded, the authority allows all effects, and every request has
   * its position and derived identity, an unused nonce and exactly one matching approval. All requests are planned.
   */
  lemma PlanMeans(b: PlanBounds, e: Execution, authority: Option<AuthorityEnvelope>, consumed: set<RequestId>)
    ensures Plan(b, e, authority, consumed).Ok? <==>
            && ProfileOk(e) && b.plan(e.requests)
            && (e.requests != [] ==>
                  && AuthorityError(b, e, authority).None?
                  && forall k :: 0 <= k < |e.requests| ==> Plannable(e, authority.value, consumed, k))
    ensures Plan(b, e, authority, consumed).Ok? ==> Plan(b, e, authority, consumed).value == e.requests
  {
    if ProfileOk(e) && e.requests != [] && AuthorityError(b, e, authority).None? {
      AllPlannable(e, authority.value, consumed);
    }
  }

  lemma {:induction false} DistinctIds(requests: seq<EffectRequest>)
    requires forall i, j :: 0 <= i < j < |requests| ==> requests[i].id != requests[j].id
    ensures |Ids(requests)| == |requests|
  {
    if requests != [] {
      var n := |requests| - 1;
      var front := requests[..n];
      DistinctIds(front);
      assert requests == front + [requests[n]];
      assert Ids(requests) == Ids(front) + {requests[n].id};
      assert requests[n].id !in Ids(front);
    }
  }

  /** A successful plan consumes as many unused nonces as it has requests. */
  lemma PlansConsumeNew(b: PlanBounds, e: Execution, authority: Option<AuthorityEnvelope>, consumed: set<RequestId>)
    requires Plan(b, e, authority, consumed).Ok?
    ensures Ids(e.requests) !! consumed && |Ids(e.requests)| == |e.requests|
  {
    PlanMeans(b, e, authority, consumed);
    if e.requests != [] {
      forall k | 0 <= k < |e.requests| ensures e.requests[k].id.index == k && e.requests[k].id !in consumed {
        assert Plannable(e, authority.value, consumed, k);
        DerivedIndex(e.schema, e.semantic, e.requests[k]);
      }
      DistinctIds(e.requests);
    }
  }

  // ---------- any sequence of plans ----------

  datatype Attempt = Attempt(execution: Execution, authority: Option<AuthorityEnvelope>)

  ghost function Consumed(b: PlanBounds, consumed: set<RequestId>, a: Attempt): set<RequestId> {
    match Plan(b, a.execution, a.authority, consumed)
    case Ok(planned) => consumed + Ids(planned)
    case Err(_) => consumed
  }

  ghost function AfterAll(b: PlanBounds, consumed: set<RequestId>, attempts: seq<Attempt>): set<RequestId>
    decreases |attempts|
  {
    if attempts == [] then consumed else AfterAll(b, Consumed(b, consumed, attempts[0]), attempts[1..])
  }

  ghost function Planned(b: PlanBounds, consumed: set<RequestId>, attempts: seq<Attempt>): nat
    decreases |attempts|
  {
    if attempts == [] then 0
    else
      (match Plan(b, attempts[0].execution, attempts[0].authority, consumed)
       case Ok(planned) => |planned|
       case Err(_) => 0)
      + Planned(b, Consumed(b, consumed, attempts[0]), attempts[1..])
  }

  /** How many of the successful plans use the nonce. */
  ghost function Uses(b: PlanBounds, consumed: set<RequestId>, attempts: seq<Attempt>, id: RequestId): nat
    decreases |attempts|
  {
    if attempts == [] then 0
    else
      (match Plan(b, attempts[0].execution, attempts[0].authority, consumed)
       case Ok(planned) => if id in Ids(planned) then 1 else 0
       case Err(_) => 0)
      + Uses(b, Consumed(b, consumed, attempts[0]), attempts[1..], id)
  }

  lemma AttemptConsumes(b: PlanBounds, consumed: set<RequestId>, a: Attempt)
    ensures var r := Plan(b, a.execution, a.authority, consumed);
            r.Ok? ==> Ids(r.value) !! consumed && |Consumed(b, consumed, a)| == |consumed| + |r.value|
  {
    var r := Plan(b, a.execution, a.authority, consumed);
    if r.Ok? {
      PlanMeans(b, a.execution, a.authority, consumed);
      PlansConsumeNew(b, a.execution, a.authority, consumed);
    }
  }

  /**
   * The ledger is the disjoint union of the nonces of the successful plans: it grows by exactly the number of
   * requests planned, and every nonce in it that was not there before was used by exactly one plan.
   */
  lemma {:induction false} LedgerIsDisjointUnion(b: PlanBounds, consumed: set<RequestId>, attempts: seq<Attempt>, id: RequestId)
    ensures consumed <= AfterAll(b, consumed, attempts)
    ensures |AfterAll(b, consumed, attempts)| == |consumed| + Planned(b, consumed, attempts)
    ensures Uses(b, consumed, attempts, id) == if id in AfterAll(b, consumed, attempts) && id !in consumed then 1 else 0
    decreases |attempts|
  {
    if attempts != [] {
      AttemptConsumes(b, consumed, attempts[0]);
      hide Plan;
      LedgerIsDisjointUnion(b, Consumed(b, consumed, attempts[0]), attempts[1..], id);
    }
  }

  /** An execution with requests is planned at most once, whatever authority is presented later. */
  lemma PlansAreNotRepeated(b: PlanBounds, consumed: set<RequestId>, first: Attempt, between: seq<Attempt>, authority: Option<AuthorityEnvelope>)
    requires Plan(b, first.execution, first.authority, consumed).Ok? && first.execution.requests != []
    ensures Plan(b, first.execution, authority, AfterAll(b, Consumed(b, consumed, first), between)).Err?
  {
    var e, later := first.execution, AfterAll(b, Consumed(b, consumed, first), between);
    PlanMeans(b, e, first.authority, consumed);
    LedgerIsDisjointUnion(b, Consumed(b, consumed, first), between, e.requests[0].id);
    assert e.requests[0].id in Ids(e.requests);
    assert e.requests[0].id in later;
    PlanMeans(b, e, authority, later);
    assert authority.Some? ==> !Plannable(e, authority.value, later, 0);
  }

  // ---------- the requests of the machine ----------

  /** The requests of any run of any bytecode have the positions and identities that planning derives again. */
  lemma MachineRequestsAreIdentified(p: BytecodeProgram, f: nat, arguments: seq<Value>, budget: nat, k: nat)
    requires k < |RunCall(p, f, arguments, 0, MachineState(budget, 0, [], [])).state.requests|
    ensures var log := RunCall(p, f, arguments, 0, MachineState(budget, 0, [], [])).state.requests;
            log[k].index == k && DerivedId(p.schema, p.semanticDigest, log[k]) == Some(log[k].id) && IdEncodes(log[k].id)
  {
    CallLog(p, f, arguments, 0, MachineState(budget, 0, [], []));
  }
}
