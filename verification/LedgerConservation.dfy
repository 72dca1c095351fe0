// Whole runs of the simulated ledger: value is conserved, no late check can fail,
// every hold is decided at most once and every key is used at most once.
module LedgerConservation {
  import opened Prelude
  import opened Totals
  import Dispute
  import opened Ledger

  // ---------- the invariant ----------

  predicate HoldSound(c: Content, h: Hold) {
    && h.locked <= h.original
    && h.buyer in c.balances && h.provider in c.balances && h.buyer != h.provider
    && (h.status.Reserved? ==> h.locked == h.original && h.decision.None?)
    && (!h.status.Reserved? ==> h.decision.Some?)
  }

  predicate HoldsSound(c: Content) {
    forall k :: k in c.holds ==> c.holds[k].holdId == k && HoldSound(c, c.holds[k])
  }

  /** What every reachable ledger satisfies. */
  ghost predicate Sound(b: Bounds, l: Ledger) {
    var c := l.content;
    && Verify(b, l).None?
    && HoldsSound(c)
    && c.revision == |c.consumed| <= MAX_IDEMPOTENCY_KEYS
    && |c.holds| <= MAX_HOLDS
  }

  lemma CreateIsSound(b: Bounds, balances: map<string, u64>)
    ensures Create(b, balances).Ok? ==> Sound(b, Create(b, balances).value) && Value(Create(b, balances).value.content) == Total(balances)
  {
  }

  /** A mutation whose candidate keeps the value and the holds in order is finished wherever it can be encoded. */
  lemma FinishSucceeds(b: Bounds, candidate: Content, key: string, priorRoot: Root, holdId: string)
    requires candidate.schema == LEDGER_SCHEMA && HoldsSound(candidate) && |candidate.holds| <= MAX_HOLDS
    requires key !in candidate.consumed && candidate.revision == |candidate.consumed| < MAX_IDEMPOTENCY_KEYS
    requires Value(candidate) == candidate.initialTotal
    ensures var r := Finish(b, candidate, key, priorRoot, holdId);
            && (r.Ok? <==> b.content(Finished(candidate, key)))
            && (r.Err? ==> r.error == Unencodable)
            && (r.Ok? ==> Sound(b, r.value.0) && Value(r.value.0.content) == Value(candidate))
  {
    var content := Finished(candidate, key);
    assert Value(content) == Value(candidate);
    assert |content.consumed| == |candidate.consumed| + 1;
  }

  // ---------- one reservation ----------

  lemma LockedInsert(holds: map<string, Hold>, k: string, h: Hold)
    ensures Total(Locked(holds[k := h])) == Total(Locked(holds)) + h.locked - (if k in holds then holds[k].locked else 0)
  {
    TotalInsert(Locked(holds), k, h.locked);
    assert Locked(holds[k := h]) == Locked(holds)[k := h.locked];
  }

  /** Moving an amount from an account into a new hold keeps the value. */
  lemma ReserveKeepsValue(c: Content, q: ReserveRequest)
    requires q.buyer in c.balances && q.amount <= c.balances[q.buyer] && q.holdId !in c.holds
    ensures Value(ReserveContent(c, q)) == Value(c)
  {
    TotalInsert(c.balances, q.buyer, c.balances[q.buyer] - q.amount);
    LockedInsert(c.holds, q.holdId, NewHold(q));
  }

  /** The reservation and the ledger it leaves can be encoded. */
  predicate ReserveEncodes(b: Bounds, l: Ledger, q: ReserveRequest)
    requires l.content.revision < U64_MAX && q.buyer in l.content.balances && q.amount <= l.content.balances[q.buyer]
  {
    b.reserve(q) && b.content(Finished(ReserveContent(l.content, q), q.key))
  }

  /** On a sound ledger a reservation is refused by its own conditions, or for want of an encoding; no late check fails. */
  lemma ReserveSucceeds(b: Bounds, l: Ledger, q: ReserveRequest)
    requires Sound(b, l)
    ensures ReserveError(l, q).Some? ==> Reserve(b, l, q) == Err(ReserveError(l, q).value)
    ensures ReserveError(l, q).None? ==>
              && q.buyer in l.content.balances && q.amount <= l.content.balances[q.buyer] && l.content.revision < U64_MAX
              && (Reserve(b, l, q).Ok? <==> ReserveEncodes(b, l, q))
              && (Reserve(b, l, q).Err? ==> Reserve(b, l, q).error == Unencodable)
    ensures Reserve(b, l, q).Ok? ==>
              && Sound(b, Reserve(b, l, q).value.0)
              && Value(Reserve(b, l, q).value.0.content) == Value(l.content)
  {
    hide Value, HoldsSound, HoldsFit, Finish, ReserveContent;
    if ReserveError(l, q).None? {
      ReserveKeepsValue(l.content, q);
      ReserveKeepsOrder(l.content, q);
      FinishSucceeds(b, ReserveContent(l.content, q), q.key, l.root, q.holdId);
    }
  }

  lemma ReserveKeepsOrder(c: Content, q: ReserveRequest)
    requires HoldsSound(c) && q.buyer in c.balances && q.provider in c.balances && q.buyer != q.provider
    requires q.amount <= c.balances[q.buyer] && q.holdId !in c.holds
    ensures var c' := ReserveContent(c, q);
            && HoldsSound(c') && |c'.holds| == |c.holds| + 1 && c'.consumed == c.consumed && c'.revision == c.revision
            && c'.schema == c.schema && c'.initialTotal == c.initialTotal
  {
  }

  // ---------- one decision ----------

  /** The value locked in one hold and the balance of one account fit together into the whole value. */
  lemma HoldAndAccount(c: Content, k: string, account: string)
    requires k in c.holds && account in c.balances
    ensures c.balances[account] + c.holds[k].locked <= Value(c)
  {
    TotalBounds(c.balances, account);
    TotalBounds(Locked(c.holds), k);
  }

  /** Neither credit overflows, and together with what stays locked they keep the value. */
  lemma DecisionKeepsValue(c: Content, q: DecisionRequest)
    requires HoldsSound(c) && Value(c) <= U64_MAX
    requires q.holdId in c.holds && c.holds[q.holdId].status.Reserved?
    requires Allocated(q.decision.core.remedy) == c.holds[q.holdId].original
    ensures DecidedContent(c, q).Ok?
    ensures Value(DecidedContent(c, q).value) == Value(c)
  {
    var h, remedy := c.holds[q.holdId], q.decision.core.remedy;
    hide Total, Locked, HoldsSound;
    HoldFits(c, q.holdId);
    HoldAndAccount(c, q.holdId, h.buyer);
    HoldAndAccount(c, q.holdId, h.provider);
    CreditAdds(c.balances, h.buyer, remedy.refund);
    var refunded := Credit(c.balances, h.buyer, remedy.refund).value;
    CreditAdds(refunded, h.provider, remedy.release);
    LockedInsert(c.holds, q.holdId, DecidedHold(h, q.decision));
  }

  lemma HoldFits(c: Content, k: string)
    requires HoldsSound(c) && k in c.holds && c.holds[k].status.Reserved?
    ensures var h := c.holds[k];
            h.locked == h.original && h.buyer in c.balances && h.provider in c.balances && h.buyer != h.provider
  {
  }

  /** A credit that fits 64 bits adds its amount to the total and touches one account. */
  lemma CreditAdds(balances: map<string, u64>, account: string, amount: u64)
    requires account in balances && balances[account] + amount <= U64_MAX
    ensures Credit(balances, account, amount).Ok?
    ensures var r := Credit(balances, account, amount).value;
            && Total(r) == Total(balances) + amount && r.Keys == balances.Keys
            && forall other :: other in balances && other != account ==> r[other] == balances[other]
  {
    TotalInsert(balances, account, balances[account] + amount);
  }

  lemma DecisionKeepsHoldsSound(c: Content, q: DecisionRequest)
    requires HoldsSound(c) && q.holdId in c.holds && DecidedContent(c, q).Ok?
    requires Allocated(q.decision.core.remedy) == c.holds[q.holdId].original
    ensures HoldsSound(DecidedContent(c, q).value)
  {
  }

  /** The decision and the ledger it leaves can be encoded. */
  predicate DecisionEncodes(b: Bounds, l: Ledger, q: DecisionRequest)
    requires l.content.revision < U64_MAX && q.holdId in l.content.holds && DecidedContent(l.content, q).Ok?
  {
    b.decision(q) && b.content(Finished(DecidedContent(l.content, q).value, q.key))
  }

  /**
   * On a sound ledger a decision is refused by its own conditions, or for want of an encoding: no credit
   * overflows and no re-check fails.
   */
  lemma DecisionSucceeds(b: Bounds, l: Ledger, q: DecisionRequest)
    requires Sound(b, l)
    ensures DecisionRequestError(b, l, q).Some? ==> ApplyDecision(b, l, q) == Err(DecisionRequestError(b, l, q).value)
    ensures DecisionRequestError(b, l, q).None? ==>
              && q.holdId in l.content.holds && DecidedContent(l.content, q).Ok? && l.content.revision < U64_MAX
              && (ApplyDecision(b, l, q).Ok? <==> DecisionEncodes(b, l, q))
              && (ApplyDecision(b, l, q).Err? ==> ApplyDecision(b, l, q).error == Unencodable)
    ensures ApplyDecision(b, l, q).Ok? ==>
              && Sound(b, ApplyDecision(b, l, q).value.0)
              && Value(ApplyDecision(b, l, q).value.0.content) == Value(l.content)
  {
    hide Value, HoldsSound, HoldsFit, Finish, DecidedContent;
    if DecisionRequestError(b, l, q).None? {
      DecisionKeepsValue(l.content, q);
      DecisionKeepsHoldsSound(l.content, q);
      SameHolds(l.content, q);
      FinishSucceeds(b, DecidedContent(l.content, q).value, q.key, l.root, q.holdId);
    }
  }

  lemma SameHolds(c: Content, q: DecisionRequest)
    requires q.holdId in c.holds && DecidedContent(c, q).Ok?
    ensures var c' := DecidedContent(c, q).value;
            && |c'.holds| == |c.holds| && c'.consumed == c.consumed && c'.revision == c.revision
            && c'.schema == c.schema && c'.initialTotal == c.initialTotal
  {
    var c' := DecidedContent(c, q).value;
    assert c'.holds.Keys == c.holds.Keys;
    assert |c'.holds| == |c'.holds.Keys| && |c.holds| == |c.holds.Keys|;
  }

  // ---------- runs ----------

  datatype Operation = ReserveOperation(reserve: ReserveRequest) | DecideOperation(decide: DecisionRequest)

  ghost function Step(b: Bounds, l: Ledger, op: Operation): Mutated {
    match op
    case ReserveOperation(q) => Reserve(b, l, q)
    case DecideOperation(q) => ApplyDecision(b, l, q)
  }

  /** A refused operation leaves the ledger as it is. */
  ghost function After(b: Bounds, l: Ledger, op: Operation): Ledger {
    match Step(b, l, op)
    case Ok((l', _)) => l'
    case Err(_) => l
  }

  ghost function Run(b: Bounds, l: Ledger, ops: seq<Operation>): Ledger
    decreases |ops|
  {
    if ops == [] then l else Run(b, After(b, l, ops[0]), ops[1..])
  }

  function KeyOf(op: Operation): string {
    match op
    case ReserveOperation(q) => q.key
    case DecideOperation(q) => q.key
  }

  lemma StepIsSound(b: Bounds, l: Ledger, op: Operation)
    requires Sound(b, l)
    ensures Sound(b, After(b, l, op)) && Value(After(b, l, op).content) == Value(l.content)
    ensures Step(b, l, op) != Err(InvalidStoredLedger)
  {
    match op
    case ReserveOperation(q) => ReserveSucceeds(b, l, q);
    case DecideOperation(q) => DecisionSucceeds(b, l, q);
  }

  lemma {:induction false} RunIsSound(b: Bounds, l: Ledger, ops: seq<Operation>)
    requires Sound(b, l)
    ensures Sound(b, Run(b, l, ops)) && Value(Run(b, l, ops).content) == Value(l.content)
    decreases |ops|
  {
    hide Step, After, Sound, Value;
    if ops != [] {
      StepIsSound(b, l, ops[0]);
      RunIsSound(b, After(b, l, ops[0]), ops[1..]);
    }
  }

  /**
   * Conservation. After any sequence of reservations and decisions on a created ledger, accepted or refused,
   * balances and locked amounts add up to the initial balances, and the ledger verifies.
   */
  lemma ValueIsConserved(b: Bounds, balances: map<string, u64>, ops: seq<Operation>)
    requires Create(b, balances).Ok?
    ensures var final := Run(b, Create(b, balances).value, ops);
            && Total(final.content.balances) + Total(Locked(final.content.holds)) == Total(balances)
            && Verify(b, final).None?
            && HoldsSound(final.content)
  {
    CreateIsSound(b, balances);
    RunIsSound(b, Create(b, balances).value, ops);
  }

  // ---------- keys and decisions are used once ----------

  ghost function KeyUses(b: Bounds, l: Ledger, ops: seq<Operation>, key: string): nat
    decreases |ops|
  {
    if ops == [] then 0
    else (if Step(b, l, ops[0]).Ok? && KeyOf(ops[0]) == key then 1 else 0) + KeyUses(b, After(b, l, ops[0]), ops[1..], key)
  }

  lemma StepConsumesKey(b: Bounds, l: Ledger, op: Operation)
    ensures Step(b, l, op).Ok? ==> KeyOf(op) !in l.content.consumed
    ensures After(b, l, op).content.consumed == l.content.consumed + if Step(b, l, op).Ok? then {KeyOf(op)} else {}
  {
  }

  /** Every idempotency key authorizes at most one mutation, and a consumed one none at all. */
  lemma {:induction false} KeysAreUsedOnce(b: Bounds, l: Ledger, ops: seq<Operation>, key: string)
    ensures KeyUses(b, l, ops, key) == if key in l.content.consumed || key !in Run(b, l, ops).content.consumed then 0 else 1
    ensures l.content.consumed <= Run(b, l, ops).content.consumed
    decreases |ops|
  {
    hide Step, After;
    if ops != [] {
      StepConsumesKey(b, l, ops[0]);
      KeysAreUsedOnce(b, After(b, l, ops[0]), ops[1..], key);
    }
  }

  predicate DecidedIn(c: Content, holdId: string) {
    holdId in c.holds && c.holds[holdId].decision.Some?
  }

  ghost function Decisions(b: Bounds, l: Ledger, ops: seq<Operation>, holdId: string): nat
    decreases |ops|
  {
    if ops == [] then 0
    else
      (if Step(b, l, ops[0]).Ok? && ops[0].DecideOperation? && ops[0].decide.holdId == holdId then 1 else 0)
      + Decisions(b, After(b, l, ops[0]), ops[1..], holdId)
  }

  lemma StepDecides(b: Bounds, l: Ledger, op: Operation, holdId: string)
    ensures var decides := Step(b, l, op).Ok? && op.DecideOperation? && op.decide.holdId == holdId;
            && (decides ==> !DecidedIn(l.content, holdId))
            && (DecidedIn(After(b, l, op).content, holdId) <==> DecidedIn(l.content, holdId) || decides)
    ensures DecidedIn(l.content, holdId) ==> After(b, l, op).content.holds[holdId] == l.content.holds[holdId]
  {
    hide Reserve, ApplyDecision;
    match op
    case ReserveOperation(q) =>
      if Reserve(b, l, q).Ok? {
        ReserveDecidesNothing(b, l, q, holdId);
      }
    case DecideOperation(q) =>
      if ApplyDecision(b, l, q).Ok? {
        DecisionDecidesOne(b, l, q, holdId);
      }
  }

  lemma ReserveDecidesNothing(b: Bounds, l: Ledger, q: ReserveRequest, holdId: string)
    requires Reserve(b, l, q).Ok?
    ensures var holds := Reserve(b, l, q).value.0.content.holds;
            && (holdId in l.content.holds ==> holdId in holds && holds[holdId] == l.content.holds[holdId])
            && (holdId in holds && holdId !in l.content.holds ==> holds[holdId].decision.None?)
  {
    hide Verify, Value;
  }

  lemma DecisionDecidesOne(b: Bounds, l: Ledger, q: DecisionRequest, holdId: string)
    requires ApplyDecision(b, l, q).Ok?
    ensures var holds := ApplyDecision(b, l, q).value.0.content.holds;
            && holds.Keys == l.content.holds.Keys
            && (holdId != q.holdId && holdId in holds ==> holds[holdId] == l.content.holds[holdId])
            && q.holdId in holds && l.content.holds[q.holdId].decision.None? && holds[q.holdId].decision.Some?
  {
    hide Verify, Value;
  }

  /** A hold takes at most one decision, and from then on it never changes. */
  lemma {:induction false} HoldsAreDecidedOnce(b: Bounds, l: Ledger, ops: seq<Operation>, holdId: string)
    ensures Decisions(b, l, ops, holdId) == if DecidedIn(l.content, holdId) || !DecidedIn(Run(b, l, ops).content, holdId) then 0 else 1
    ensures DecidedIn(l.content, holdId) ==>
              DecidedIn(Run(b, l, ops).content, holdId) && Run(b, l, ops).content.holds[holdId] == l.content.holds[holdId]
    decreases |ops|
  {
    hide Step, After, DecidedIn;
    if ops != [] {
      StepDecides(b, l, ops[0], holdId);
      HoldsAreDecidedOnce(b, After(b, l, ops[0]), ops[1..], holdId);
    }
  }

  // ---------- accounts ----------

  /** What an accepted operation adds to an account. */
  ghost function Credits(b: Bounds, l: Ledger, op: Operation, account: string): int {
    if Step(b, l, op).Err? then 0
    else
      match op
      case ReserveOperation(q) => if q.buyer == account then 0 - Signed(q.amount) else 0
      case DecideOperation(q) =>
        if q.holdId !in l.content.holds then 0
        else
          var h, remedy := l.content.holds[q.holdId], q.decision.core.remedy;
          (if h.buyer == account then Signed(remedy.refund) else 0) + (if h.provider == account then Signed(remedy.release) else 0)
  }

  function Signed(n: u64): int {
    n
  }

  ghost function AllCredits(b: Bounds, l: Ledger, ops: seq<Operation>, account: string): int
    decreases |ops|
  {
    if ops == [] then 0 else Credits(b, l, ops[0], account) + AllCredits(b, After(b, l, ops[0]), ops[1..], account)
  }

  lemma ReservedBalances(b: Bounds, l: Ledger, q: ReserveRequest)
    requires Reserve(b, l, q).Ok?
    ensures q.buyer in l.content.balances && q.amount <= l.content.balances[q.buyer]
    ensures Reserve(b, l, q).value.0.content.balances == ReserveContent(l.content, q).balances
  {
    hide Verify, Value;
  }

  lemma DecidedBalances(b: Bounds, l: Ledger, q: DecisionRequest)
    requires ApplyDecision(b, l, q).Ok?
    ensures q.holdId in l.content.holds && DecidedContent(l.content, q).Ok?
    ensures ApplyDecision(b, l, q).value.0.content.balances == DecidedContent(l.content, q).value.balances
  {
    hide Verify, Value;
  }

  lemma StepCredits(b: Bounds, l: Ledger, op: Operation, account: string)
    requires account in l.content.balances
    ensures account in After(b, l, op).content.balances
    ensures Signed(After(b, l, op).content.balances[account]) == Signed(l.content.balances[account]) + Credits(b, l, op, account)
  {
    hide Reserve, ApplyDecision;
    match op
    case ReserveOperation(q) =>
      if Reserve(b, l, q).Ok? {
        ReservedBalances(b, l, q);
      }
    case DecideOperation(q) =>
      if ApplyDecision(b, l, q).Ok? {
        DecidedBalances(b, l, q);
      }
  }

  /** Every account holds what it started with, less what it reserved, plus what decisions paid it. */
  lemma {:induction false} BalancesAreExplained(b: Bounds, l: Ledger, ops: seq<Operation>, account: string)
    requires account in l.content.balances
    ensures account in Run(b, l, ops).content.balances
    ensures Signed(Run(b, l, ops).content.balances[account]) == Signed(l.content.balances[account]) + AllCredits(b, l, ops, account)
    decreases |ops|
  {
    hide Step, After, Credits;
    if ops != [] {
      StepCredits(b, l, ops[0], account);
      BalancesAreExplained(b, After(b, l, ops[0]), ops[1..], account);
    }
  }

  // ---------- decisions of the dispute evaluator ----------

  /**
   * A decision evaluated for a case of the hold's value is payable: on any sound ledger the only reasons to refuse it
   * are a stale or replayed request, a hold that is missing or already decided, and the want of an encoding.
   */
  lemma EvaluatedDecisionsPay(b: Bounds, l: Ledger, q: DecisionRequest, c: Dispute.Case, evidence: Dispute.Evidence, claim: Dispute.Claim, profile: Dispute.Profile,
                              findings: seq<Dispute.Finding>, phase: Dispute.Phase, prior: Option<Dispute.Receipt>)
    requires Sound(b, l) && Dispute.Evaluate(b.dispute, c, evidence, claim, profile, findings, phase, prior) == Ok(q.decision)
    requires q.schema == APPLY_SCHEMA && PreconditionError(l, q.expectedRoot, q.expectedRevision, q.key).None?
    requires q.holdId in l.content.holds && l.content.holds[q.holdId].original == c.value
    ensures ApplyDecision(b, l, q).Ok? <==>
            && l.content.holds[q.holdId].status.Reserved?
            && DecidedContent(l.content, q).Ok? && l.content.revision < U64_MAX && DecisionEncodes(b, l, q)
  {
    Dispute.DecisionsConserveValue(b.dispute, c, evidence, claim, profile, findings, phase, prior);
    DecisionSucceeds(b, l, q);
  }
}
