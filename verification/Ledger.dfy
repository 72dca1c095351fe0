// The simulated ledger (crates/joan-mock-ledger/src/lib.rs): accounts, holds, and
// the two mutations that reserve value and apply a decision to a hold. The ledger
// root is symbolic: it is the content that the source hashes.
module Ledger {
  import opened Prelude
  import opened Totals
  import Dispute

  datatype HoldStatus = Reserved | Settled | Refunded | SplitPaid | RepairPending | Quarantined

  datatype Hold = Hold(
    holdId: string, buyer: string, provider: string, contract: Dispute.Digest, original: u64, locked: u64, status: HoldStatus,
    decision: Option<Dispute.Digest>)

  datatype Content = Content(
    schema: string, balances: map<string, u64>, holds: map<string, Hold>, consumed: set<string>, revision: u64, initialTotal: u64)

  datatype Root = Placeholder | RootOf(content: Content)

  datatype Ledger = Ledger(content: Content, root: Root)

  datatype ReserveRequest = ReserveRequest(
    schema: string, expectedRoot: Root, expectedRevision: u64, holdId: string, buyer: string, provider: string, contract: Dispute.Digest,
    amount: u64, key: string)

  datatype DecisionRequest = DecisionRequest(
    schema: string, expectedRoot: Root, expectedRevision: u64, holdId: string, key: string, decision: Dispute.Receipt)

  datatype LedgerError =
    | UnsupportedSchema | EmptyField | InvalidStoredLedger | StaleRoot | StaleRevision | Replay | UnknownAccount | SameAccount
    | DuplicateHold | UnknownHold | InsufficientBalance | HoldNotReserved | AllocationMismatch | Capacity | AmountOverflow | Unencodable
    | BadDecision(error: Dispute.DisputeError)

  datatype Mutation = Mutation(priorRoot: Root, newRoot: Root, revision: u64, holdId: string, conservedTotal: u64)

  /** Which contents and requests can be encoded, and so have a digest. */
  datatype Bounds = Bounds(
    content: Content -> bool, reserve: ReserveRequest -> bool, decision: DecisionRequest -> bool, dispute: Dispute.Bounds)

  type Mutated = Result<(Ledger, Mutation), LedgerError>

  const LEDGER_SCHEMA := "joan.mock-ledger.v0"
  const RESERVE_SCHEMA := "joan.mock-reserve-request.v0"
  const APPLY_SCHEMA := "joan.mock-apply-decision-request.v0"
  const MAX_HOLDS: nat := 100_000
  const MAX_IDEMPOTENCY_KEYS: nat := 200_000

  // ---------- totals ----------

  function Locked(holds: map<string, Hold>): map<string, u64> {
    map k | k in holds :: holds[k].locked
  }

  ghost function Value(c: Content): nat {
    Total(c.balances) + Total(Locked(c.holds))
  }

  function CheckedAddU64(a: u64, b: u64): Option<u64> {
    if a + b <= U64_MAX then Some(a + b) else None
  }

  /** Adds the values of a map to a running total; None when 64 bits do not hold a partial sum. */
  method CheckedSum(start: u64, m: map<string, u64>) returns (r: Option<u64>)
    ensures r == if start + Total(m) <= U64_MAX then Some(start + Total(m)) else None
  {
    var total: u64 := start;
    var rest := m;
    while rest != map[]
      invariant total + Total(rest) == start + Total(m)
      decreases |rest|
    {
      var k :| k in rest;
      TotalRemove(rest, k);
      var next := CheckedAddU64(total, rest[k]);
      if next.None? {
        return None;
      }
      total := next.value;
      rest := rest - {k};
    }
    return Some(total);
  }

  method TotalValue(c: Content) returns (r: Option<u64>)
    ensures r == if Value(c) <= U64_MAX then Some(Value(c)) else None
  {
    var available := CheckedSum(0, c.balances);
    if available.None? {
      return None;
    }
    r := CheckedSum(available.value, Locked(c.holds));
  }

  // ---------- creation and verification ----------

  ghost function Create(b: Bounds, balances: map<string, u64>): Result<Ledger, LedgerError> {
    if balances == map[] then Err(Capacity)
    else if exists account :: account in balances && Dispute.Empty(account) then Err(EmptyField)
    else if Total(balances) > U64_MAX then Err(AmountOverflow)
    else
      var content := Content(LEDGER_SCHEMA, balances, map[], {}, 0, Total(balances));
      if b.content(content) then Ok(Ledger(content, RootOf(content))) else Err(Unencodable)
  }

  predicate HoldsFit(holds: map<string, Hold>) {
    forall k :: k in holds ==> k == holds[k].holdId && holds[k].locked <= holds[k].original
  }

  ghost function Verify(b: Bounds, l: Ledger): Option<LedgerError> {
    if l.content.schema != LEDGER_SCHEMA then Some(UnsupportedSchema)
    else if !HoldsFit(l.content.holds) then Some(InvalidStoredLedger)
    else if Value(l.content) > U64_MAX then Some(AmountOverflow)
    else if Value(l.content) != l.content.initialTotal then Some(InvalidStoredLedger)
    else if !b.content(l.content) then Some(Unencodable)
    else if RootOf(l.content) != l.root then Some(InvalidStoredLedger)
    else None
  }

  function PreconditionError(l: Ledger, expectedRoot: Root, expectedRevision: u64, key: string): Option<LedgerError> {
    if Dispute.Empty(key) then Some(EmptyField)
    else if expectedRoot != l.root then Some(StaleRoot)
    else if expectedRevision != l.content.revision then Some(StaleRevision)
    else if key in l.content.consumed then Some(Replay)
    else if |l.content.consumed| >= MAX_IDEMPOTENCY_KEYS then Some(Capacity)
    else None
  }

  // ---------- mutations ----------

  /** What a finished mutation leaves: the key consumed and the revision counted up. */
  function Finished(candidate: Content, key: string): Content
    requires candidate.revision < U64_MAX
  {
    candidate.(consumed := candidate.consumed + {key}, revision := candidate.revision + 1)
  }

  /** Consumes the key, counts the revision up, takes the new root and checks conservation once more. */
  ghost function Finish(b: Bounds, candidate: Content, key: string, priorRoot: Root, holdId: string): Mutated {
    if candidate.revision == U64_MAX then Err(AmountOverflow)
    else
      var content := Finished(candidate, key);
      if !b.content(content) then Err(Unencodable)
      else if Value(content) > U64_MAX then Err(AmountOverflow)
      else if Value(content) != content.initialTotal then Err(InvalidStoredLedger)
      else Ok((Ledger(content, RootOf(content)), Mutation(priorRoot, RootOf(content), content.revision, holdId, Value(content))))
  }

  function NewHold(q: ReserveRequest): Hold {
    Hold(q.holdId, q.buyer, q.provider, q.contract, q.amount, q.amount, Reserved, None)
  }

  function ReserveError(l: Ledger, q: ReserveRequest): Option<LedgerError> {
    var c := l.content;
    if PreconditionError(l, q.expectedRoot, q.expectedRevision, q.key).Some? then
      PreconditionError(l, q.expectedRoot, q.expectedRevision, q.key)
    else if q.schema != RESERVE_SCHEMA then Some(UnsupportedSchema)
    else if Dispute.Empty(q.holdId) || Dispute.Empty(q.buyer) || Dispute.Empty(q.provider) then Some(EmptyField)
    else if q.buyer == q.provider then Some(SameAccount)
    else if q.amount == 0 then Some(AllocationMismatch)
    else if |c.holds| >= MAX_HOLDS then Some(Capacity)
    else if q.holdId in c.holds then Some(DuplicateHold)
    else if q.provider !in c.balances then Some(UnknownAccount)
    else if q.buyer !in c.balances then Some(UnknownAccount)
    else if c.balances[q.buyer] < q.amount then Some(InsufficientBalance)
    else None
  }

  function ReserveContent(c: Content, q: ReserveRequest): Content
    requires q.buyer in c.balances && q.amount <= c.balances[q.buyer]
  {
    c.(balances := c.balances[q.buyer := c.balances[q.buyer] - q.amount], holds := c.holds[q.holdId := NewHold(q)])
  }

  ghost function Reserve(b: Bounds, l: Ledger, q: ReserveRequest): Mutated {
    if Verify(b, l).Some? then Err(Verify(b, l).value)
    else
      match ReserveError(l, q)
      case Some(e) => Err(e)
      case None => if b.reserve(q) then Finish(b, ReserveContent(l.content, q), q.key, l.root, q.holdId) else Err(Unencodable)
  }

  function StatusFor(kind: Dispute.RemedyKind): HoldStatus {
    match kind
    case FullRefund => Refunded
    case ReleaseProvider => Settled
    case Split => SplitPaid
    case Repair => RepairPending
    case Quarantine => Quarantined
  }

  function Credit(balances: map<string, u64>, account: string, amount: u64): Result<map<string, u64>, LedgerError> {
    if account !in balances then Err(UnknownAccount)
    else if balances[account] + amount > U64_MAX then Err(AmountOverflow)
    else Ok(balances[account := balances[account] + amount])
  }

  function Allocated(remedy: Dispute.Allocation): nat {
    remedy.refund + remedy.release + remedy.retained
  }

  function DecisionRequestError(b: Bounds, l: Ledger, q: DecisionRequest): Option<LedgerError> {
    var c := l.content;
    if PreconditionError(l, q.expectedRoot, q.expectedRevision, q.key).Some? then
      PreconditionError(l, q.expectedRoot, q.expectedRevision, q.key)
    else if q.schema != APPLY_SCHEMA then Some(UnsupportedSchema)
    else if Dispute.DecisionError(b.dispute, q.decision).Some? then Some(BadDecision(Dispute.DecisionError(b.dispute, q.decision).value))
    else if q.holdId !in c.holds then Some(UnknownHold)
    else if !c.holds[q.holdId].status.Reserved? || c.holds[q.holdId].decision.Some? then Some(HoldNotReserved)
    else if Allocated(q.decision.core.remedy) > U64_MAX then Some(AmountOverflow)
    else if Allocated(q.decision.core.remedy) != c.holds[q.holdId].original then Some(AllocationMismatch)
    else None
  }

  function DecidedHold(h: Hold, decision: Dispute.Receipt): Hold {
    h.(locked := decision.core.remedy.retained, status := StatusFor(decision.core.remedy.kind), decision := Some(decision.digest))
  }

  /** Both credits, buyer first, and the hold closed by the decision. */
  function DecidedContent(c: Content, q: DecisionRequest): Result<Content, LedgerError>
    requires q.holdId in c.holds
  {
    var h, remedy := c.holds[q.holdId], q.decision.core.remedy;
    match Credit(c.balances, h.buyer, remedy.refund)
    case Err(e) => Err(e)
    case Ok(refunded) =>
      match Credit(refunded, h.provider, remedy.release)
      case Err(e) => Err(e)
      case Ok(paid) => Ok(c.(balances := paid, holds := c.holds[q.holdId := DecidedHold(h, q.decision)]))
  }

  ghost function ApplyDecision(b: Bounds, l: Ledger, q: DecisionRequest): Mutated {
    if Verify(b, l).Some? then Err(Verify(b, l).value)
    else
      match DecisionRequestError(b, l, q)
      case Some(e) => Err(e)
      case None =>
        match DecidedContent(l.content, q)
        case Err(e) => Err(e)
        case Ok(candidate) => if b.decision(q) then Finish(b, candidate, q.key, l.root, q.holdId) else Err(Unencodable)
  }

  // ---------- the operations, step by step ----------

  method CreateLedger(b: Bounds, balances: map<string, u64>) returns (r: Result<Ledger, LedgerError>)
    ensures r == Create(b, balances)
  {
    if balances == map[] {
      return Err(Capacity);
    }
    if exists account :: account in balances && Dispute.Empty(account) {
      return Err(EmptyField);
    }
    var total := CheckedSum(0, balances);
    if total.None? {
      return Err(AmountOverflow);
    }
    var content := Content(LEDGER_SCHEMA, balances, map[], {}, 0, total.value);
    if !b.content(content) {
      return Err(Unencodable);
    }
    return Ok(Ledger(content, RootOf(content)));
  }

  method VerifyLedger(b: Bounds, l: Ledger) returns (r: Option<LedgerError>)
    ensures r == Verify(b, l)
  {
    if l.content.schema != LEDGER_SCHEMA {
      return Some(UnsupportedSchema);
    }
    if !HoldsFit(l.content.holds) {
      return Some(InvalidStoredLedger);
    }
    var total := TotalValue(l.content);
    if total.None? {
      return Some(AmountOverflow);
    }
    if total.value != l.content.initialTotal {
      return Some(InvalidStoredLedger);
    }
    if !b.content(l.content) {
      return Some(Unencodable);
    }
    if RootOf(l.content) != l.root {
      return Some(InvalidStoredLedger);
    }
    return None;
  }

  method FinishMutation(b: Bounds, candidate: Content, key: string, priorRoot: Root, holdId: string) returns (r: Mutated)
    ensures r == Finish(b, candidate, key, priorRoot, holdId)
  {
    var content := candidate.(consumed := candidate.consumed + {key});
    if content.revision == U64_MAX {
      return Err(AmountOverflow);
    }
    content := content.(revision := content.revision + 1);
    if !b.content(content) {
      return Err(Unencodable);
    }
    var total := TotalValue(content);
    if total.None? {
      return Err(AmountOverflow);
    }
    if total.value != content.initialTotal {
      return Err(InvalidStoredLedger);
    }
    return Ok((Ledger(content, RootOf(content)), Mutation(priorRoot, RootOf(content), content.revision, holdId, total.value)));
  }

  method ReserveHold(b: Bounds, l: Ledger, q: ReserveRequest) returns (r: Mutated)
    ensures r == Reserve(b, l, q)
  {
    hide Verify, Finish, ReserveError;
    ReserveKnows(l, q);
    var invalid := VerifyLedger(b, l);
    if invalid.Some? {
      return Err(invalid.value);
    }
    var refused := ReserveError(l, q);
    if refused.Some? {
      return Err(refused.value);
    }
    var candidate := l.content;
    candidate := candidate.(balances := candidate.balances[q.buyer := candidate.balances[q.buyer] - q.amount]);
    candidate := candidate.(holds := candidate.holds[q.holdId := NewHold(q)]);
    if !b.reserve(q) {
      return Err(Unencodable);
    }
    r := FinishMutation(b, candidate, q.key, l.root, q.holdId);
  }

  lemma ReserveKnows(l: Ledger, q: ReserveRequest)
    ensures ReserveError(l, q).None? ==> q.buyer in l.content.balances && q.amount <= l.content.balances[q.buyer]
  {
  }

  method DecideHold(b: Bounds, l: Ledger, q: DecisionRequest) returns (r: Mutated)
    ensures r == ApplyDecision(b, l, q)
  {
    var invalid := VerifyLedger(b, l);
    if invalid.Some? {
      return Err(invalid.value);
    }
    var refused := DecisionRequestError(b, l, q);
    if refused.Some? {
      return Err(refused.value);
    }
    var hold, remedy := l.content.holds[q.holdId], q.decision.core.remedy;
    var candidate := l.content;
    var credited := Credit(candidate.balances, hold.buyer, remedy.refund);
    if credited.Err? {
      return Err(credited.error);
    }
    candidate := candidate.(balances := credited.value);
    credited := Credit(candidate.balances, hold.provider, remedy.release);
    if credited.Err? {
      return Err(credited.error);
    }
    candidate := candidate.(balances := credited.value);
    candidate := candidate.(holds := candidate.holds[q.holdId := DecidedHold(hold, q.decision)]);
    if !b.decision(q) {
      return Err(Unencodable);
    }
    r := FinishMutation(b, candidate, q.key, l.root, q.holdId);
  }
}
