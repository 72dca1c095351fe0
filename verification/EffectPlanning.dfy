// Effect planning (crates/joan-runtime/src/lib.rs): the requests of an execution are
// matched with one-use approvals, all or nothing, and the approvals are used up.
module EffectPlanning {
  import opened Prelude
  import opened Ast
  import opened Bytecode
  import opened Machine
  import opened Instructions

  /**
   * A receipt of an execution. `bound` stands for the checks of the identity descriptor, whose schemas and
   * digest domains have to be those of the receipt's own schema.
   */
  datatype Execution = Execution(schema: Schema, completed: bool, bound: bool, semantic: Digest, requests: seq<EffectRequest>)

  datatype PlanError =
    | ProfileMismatch
    | TaskMismatch
    | AuthorityDenied
    | Resolver(error: InstructionError)
    | Unencodable
    | InvalidRequest(id: RequestId)
    | Replay(id: RequestId)
    | MissingApproval(id: RequestId)

  /** Which plans can be encoded, and so have a receipt. */
  datatype PlanBounds = PlanBounds(resolver: Bounds, plan: seq<EffectRequest> -> bool)

  /** Slots and labels are on every request of the profiles that have them, and on no other. */
  predicate ProfileOk(e: Execution) {
    && e.completed && e.bound && !e.schema.Unknown?
    && forall k :: 0 <= k < |e.requests| ==>
                     && e.requests[k].authoritySlot.Some? == e.schema.IsLinear()
                     && e.requests[k].information.Some? == e.schema.IsInformationFlow()
  }

  function Effects(requests: seq<EffectRequest>): set<string> {
    set q | q in requests :: q.effect
  }

  function Ids(requests: seq<EffectRequest>): set<RequestId> {
    set q | q in requests :: q.id
  }

  function EffectQuestion(authority: AuthorityEnvelope, requests: seq<EffectRequest>): InstructionRequest {
    InstructionRequest(REQUEST_SCHEMA, authority, [], Effects(requests))
  }

  predicate Approves(authority: AuthorityEnvelope, q: EffectRequest, a: Approval) {
    && a.nonce == ForRequest(q.id) && a.taskId == authority.taskId && a.capabilities == {q.effect}
    && a.authoritySlot == q.authoritySlot && a.information == q.information
  }

  function ApprovalCount(authority: AuthorityEnvelope, q: EffectRequest, approvals: seq<Approval>): nat {
    if approvals == [] then 0
    else
      var n := |approvals| - 1;
      ApprovalCount(authority, q, approvals[..n]) + if Approves(authority, q, approvals[n]) then 1 else 0
  }

  /** The positions of the approvals that match a request. */
  function Matching(authority: AuthorityEnvelope, q: EffectRequest, approvals: seq<Approval>): set<nat> {
    set i: nat | i < |approvals| && Approves(authority, q, approvals[i])
  }

  lemma {:induction false} CountIsMatching(authority: AuthorityEnvelope, q: EffectRequest, approvals: seq<Approval>)
    ensures ApprovalCount(authority, q, approvals) == |Matching(authority, q, approvals)|
  {
    if approvals != [] {
      var n := |approvals| - 1;
      CountIsMatching(authority, q, approvals[..n]);
      assert Matching(authority, q, approvals) ==
             Matching(authority, q, approvals[..n]) + if Approves(authority, q, approvals[n]) then {n} else {};
    }
  }

  // ---------- one request ----------

  /** The first reason not to plan the request at position k. */
  ghost function Refusal(e: Execution, authority: AuthorityEnvelope, consumed: set<RequestId>, k: nat): Option<PlanError>
    requires k < |e.requests|
  {
    var q := e.requests[k];
    match DerivedId(e.schema, e.semantic, q)
    case None => Some(ProfileMismatch)
    case Some(id) =>
      if !IdEncodes(id) then Some(PlanError.Unencodable)
      else if q.index != k || q.id != id || q.id in Ids(e.requests[..k]) then Some(InvalidRequest(q.id))
      else if q.id in consumed then Some(Replay(q.id))
      else if ApprovalCount(authority, q, authority.approvals) != 1 then Some(MissingApproval(q.id))
      else None
  }

  ghost function FirstRefusal(e: Execution, authority: AuthorityEnvelope, consumed: set<RequestId>, k: nat): Option<PlanError>
    requires k <= |e.requests|
    decreases |e.requests| - k
  {
    if k == |e.requests| then None
    else if Refusal(e, authority, consumed, k).Some? then Refusal(e, authority, consumed, k)
    else FirstRefusal(e, authority, consumed, k + 1)
  }

  /** Whether authority covers the effects of all requests, before any single one is looked at. */
  function AuthorityError(b: PlanBounds, e: Execution, authority: Option<AuthorityEnvelope>): Option<PlanError> {
    if authority.None? then Some(AuthorityDenied)
    else if authority.value.taskId != ProgramTask(e.semantic) then Some(TaskMismatch)
    else
      match Resolve(b.resolver, EffectQuestion(authority.value, e.requests))
      case Err(x) => Some(Resolver(x))
      case Ok(receipt) => if receipt.decision.Allow? then None else Some(AuthorityDenied)
  }

  /** The requests that may be carried out, in order. */
  ghost function Plan(b: PlanBounds, e: Execution, authority: Option<AuthorityEnvelope>, consumed: set<RequestId>): Result<seq<EffectRequest>, PlanError> {
    if !ProfileOk(e) then Err(ProfileMismatch)
    else if e.requests == [] then if b.plan([]) then Ok([]) else Err(PlanError.Unencodable)
    else if AuthorityError(b, e, authority).Some? then Err(AuthorityError(b, e, authority).value)
    else
      match FirstRefusal(e, authority.value, consumed, 0)
      case Some(x) => Err(x)
      case None => if b.plan(e.requests) then Ok(e.requests) else Err(PlanError.Unencodable)
  }

  // ---------- the ledger ----------

  class CapabilityLedger {
    var consumed: set<RequestId>

    constructor ()
      ensures consumed == {}
    {
      consumed := {};
    }

    /** One request against its position, its derived identity, the ledger and the approvals. */
    method Examine(e: Execution, authority: AuthorityEnvelope, k: nat, pending: set<RequestId>) returns (refused: Option<PlanError>)
      requires k < |e.requests| && pending == Ids(e.requests[..k])
      ensures refused == Refusal(e, authority, consumed, k)
    {
      var q := e.requests[k];
      var id := DerivedId(e.schema, e.semantic, q);
      if id.None? {
        return Some(ProfileMismatch);
      }
      var encodes := CheckId(id.value);
      if !encodes {
        return Some(PlanError.Unencodable);
      }
      if q.index != k || q.id != id.value || q.id in pending {
        return Some(InvalidRequest(q.id));
      }
      if q.id in consumed {
        return Some(Replay(q.id));
      }
      if ApprovalCount(authority, q, authority.approvals) != 1 {
        return Some(MissingApproval(q.id));
      }
      return None;
    }

    /** All requests are planned and their nonces consumed, or none is and the ledger stays as it is. */
    method PlanEffects(b: PlanBounds, e: Execution, authority: Option<AuthorityEnvelope>) returns (r: Result<seq<EffectRequest>, PlanError>)
      modifies this
      ensures r == Plan(b, e, authority, old(consumed))
      ensures consumed == old(consumed) + if r.Ok? then Ids(r.value) else {}
    {
      hide Refusal, Resolve, ApprovalCount;
      if !ProfileOk(e) {
        return Err(ProfileMismatch);
      }
      if e.requests == [] {
        assert Ids([]) == {};
        if !b.plan([]) {
          return Err(PlanError.Unencodable);
        }
        return Ok([]);
      }
      if authority.None? {
        return Err(AuthorityDenied);
      }
      if authority.value.taskId != ProgramTask(e.semantic) {
        return Err(TaskMismatch);
      }
      var decision := ResolveInstructions(b.resolver, EffectQuestion(authority.value, e.requests));
      if decision.Err? {
        return Err(Resolver(decision.error));
      }
      if !decision.value.decision.Allow? {
        return Err(AuthorityDenied);
      }
      var pending: set<RequestId>, planned: seq<EffectRequest> := {}, [];
      assert Ids(e.requests[..0]) == {};
      for k := 0 to |e.requests|
        invariant consumed == old(consumed)
        invariant pending == Ids(e.requests[..k]) && planned == e.requests[..k]
        invariant FirstRefusal(e, authority.value, consumed, k) == FirstRefusal(e, authority.value, consumed, 0)
      {
        var refused := Examine(e, authority.value, k, pending);
        if refused.Some? {
          return Err(refused.value);
        }
        assert e.requests[..k + 1] == e.requests[..k] + [e.requests[k]];
        pending := pending + {e.requests[k].id};
        planned := planned + [e.requests[k]];
      }
      assert e.requests[..|e.requests|] == e.requests;
      if !b.plan(e.requests) {
        return Err(PlanError.Unencodable);
      }
      consumed := consumed + pending;
      return Ok(planned);
    }
  }
}
