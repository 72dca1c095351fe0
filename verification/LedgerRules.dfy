// What the simulated ledger takes, and what its mutations leave: every balance, every hold and
// every key of the ledger afterwards, written out without the steps that lead there.
module LedgerRules {
  import opened Prelude
  import opened Totals
  import opened Ledger
  import Dispute
  import DisputeRules

  /** The stored totals agree with what accounts and holds contain, and the root is that of the content. */
  ghost predicate LedgerRule(b: Bounds, l: Ledger) {
    var c := l.content;
    && c.schema == "joan.mock-ledger.v0"
    && (forall k :: k in c.holds ==> c.holds[k].holdId == k && c.holds[k].locked <= c.holds[k].original)
    && Total(c.balances) + Total(map k | k in c.holds :: c.holds[k].locked) == c.initialTotal
    && b.content(c) && l.root == RootOf(c)
  }

  /** A request names the ledger as it is and brings a key of its own. */
  predicate CurrentRule(l: Ledger, root: Root, revision: u64, key: string) {
    && root == l.root && revision == l.content.revision
    && DisputeRules.Says(key) && key !in l.content.consumed && |l.content.consumed| < 200_000
  }

  predicate ReservationRule(b: Bounds, l: Ledger, q: ReserveRequest) {
    var c := l.content;
    && q.schema == "joan.mock-reserve-request.v0" && b.reserve(q)
    && CurrentRule(l, q.expectedRoot, q.expectedRevision, q.key)
    && DisputeRules.Says(q.holdId) && DisputeRules.Says(q.buyer) && DisputeRules.Says(q.provider)
    && q.buyer != q.provider && q.buyer in c.balances && q.provider in c.balances
    && 0 < q.amount <= c.balances[q.buyer]
    && q.holdId !in c.holds && |c.holds| < 100_000
  }

  /** The decision is what its digest says, and it hands out what the reserved hold contains. */
  predicate PaymentRule(b: Bounds, l: Ledger, q: DecisionRequest) {
    var c, core := l.content, q.decision.core;
    && q.schema == "joan.mock-apply-decision-request.v0" && b.decision(q)
    && CurrentRule(l, q.expectedRoot, q.expectedRevision, q.key)
    && core.schema == "joan.automatic-decision-receipt.v0" && b.dispute.decision(core) && q.decision.digest == Dispute.OfDecision(core)
    && q.holdId in c.holds && c.holds[q.holdId].status == Reserved && c.holds[q.holdId].decision == None
    && core.remedy.refund as int + core.remedy.release as int + core.remedy.retained as int == c.holds[q.holdId].original as int
    && c.holds[q.holdId].buyer in c.balances && c.holds[q.holdId].provider in c.balances
  }

  /** What a mutation does to every ledger: one more key, one more revision, one hold written. */
  ghost predicate Written(c: Content, after: Content, key: string, holdId: string) {
    && after.schema == c.schema && after.initialTotal == c.initialTotal && after.revision as int == c.revision as int + 1
    && (forall k :: k in after.consumed <==> k in c.consumed || k == key)
    && holdId in after.holds
    && (forall k :: k in after.holds && k != holdId ==> k in c.holds && after.holds[k] == c.holds[k])
    && (forall k :: k in c.holds ==> k in after.holds)
    && forall a :: a in after.balances <==> a in c.balances
  }

  /** The amount is in the new hold, the buyer has that much less, and nobody else is touched. */
  ghost predicate Moved(c: Content, after: Content, q: ReserveRequest) {
    && Written(c, after, q.key, q.holdId)
    && var h := after.holds[q.holdId];
    && h.holdId == q.holdId && h.buyer == q.buyer && h.provider == q.provider && h.contract == q.contract
    && h.original == q.amount && h.locked == q.amount && h.status == Reserved && h.decision == None
    && forall a :: a in c.balances ==> after.balances[a] as int == c.balances[a] as int - (if a == q.buyer then q.amount as int else 0)
  }

  /** The buyer has the refund, the provider the release, the hold keeps the rest and the decision, and nobody else is touched. */
  ghost predicate Paid(c: Content, after: Content, q: DecisionRequest)
    requires q.holdId in c.holds
  {
    var was, remedy := c.holds[q.holdId], q.decision.core.remedy;
    && Written(c, after, q.key, q.holdId)
    && var h := after.holds[q.holdId];
    && h.holdId == was.holdId && h.buyer == was.buyer && h.provider == was.provider && h.contract == was.contract && h.original == was.original
    && h.locked == remedy.retained && h.decision == Some(q.decision.digest)
    && (h.status == Refunded <==> remedy.kind == Dispute.FullRefund)
    && (h.status == Settled <==> remedy.kind == Dispute.ReleaseProvider)
    && (h.status == SplitPaid <==> remedy.kind == Dispute.Split)
    && (h.status == RepairPending <==> remedy.kind == Dispute.Repair)
    && (h.status == Quarantined <==> remedy.kind == Dispute.Quarantine)
    && forall a :: a in c.balances ==>
         after.balances[a] as int == c.balances[a] as int + (if a == was.buyer then remedy.refund as int else 0)
                                     + (if a == was.provider then remedy.release as int else 0)
  }

  predicate MutationRule(l: Ledger, after: Ledger, m: Mutation, holdId: string) {
    && m.priorRoot == l.root && m.newRoot == after.root && m.revision == after.content.revision
    && m.holdId == holdId && m.conservedTotal == l.content.initialTotal
  }

  // ---------- the rules and the model ----------

  lemma LedgersAgree(b: Bounds, l: Ledger)
    ensures Verify(b, l).None? <==> LedgerRule(b, l)
  {
    assert Locked(l.content.holds) == map k | k in l.content.holds :: l.content.holds[k].locked;
    hide Total;
  }

  lemma ReservationsAgree(b: Bounds, l: Ledger, q: ReserveRequest)
    ensures ReserveError(l, q).None? && b.reserve(q) <==> ReservationRule(b, l, q)
  {
    DisputeRules.SaysIsNotEmpty(q.key);
    DisputeRules.SaysIsNotEmpty(q.holdId);
    DisputeRules.SaysIsNotEmpty(q.buyer);
    DisputeRules.SaysIsNotEmpty(q.provider);
    hide DisputeRules.Says, Dispute.Empty;
  }

  lemma PaymentsAgree(b: Bounds, l: Ledger, q: DecisionRequest)
    ensures PaymentRule(b, l, q) <==>
            && DecisionRequestError(b, l, q).None? && b.decision(q)
            && l.content.holds[q.holdId].buyer in l.content.balances && l.content.holds[q.holdId].provider in l.content.balances
  {
    DisputeRules.SaysIsNotEmpty(q.key);
    hide DisputeRules.Says, Dispute.Empty;
  }

  lemma SameMap<V>(x: map<string, V>, y: map<string, V>)
    requires forall k :: k in x <==> k in y
    requires forall k :: k in x ==> x[k] == y[k]
    ensures x == y
  {
  }

  lemma SameKeys(x: set<string>, y: set<string>)
    requires forall k :: k in x <==> k in y
    ensures x == y
  {
  }

  /** The rules leave one content only. */
  lemma MovedIsUnique(c: Content, q: ReserveRequest, after: Content)
    requires q.buyer in c.balances && q.amount <= c.balances[q.buyer] && q.holdId !in c.holds
    ensures Moved(c, after, q) <==> c.revision < U64_MAX && after == Finished(ReserveContent(c, q), q.key)
  {
    if c.revision < U64_MAX && Moved(c, after, q) {
      var made := Finished(ReserveContent(c, q), q.key);
      SameKeys(after.consumed, made.consumed);
      SameMap(after.balances, made.balances);
      SameMap(after.holds, made.holds);
    }
  }

  lemma StatusMeans(status: HoldStatus, kind: Dispute.RemedyKind)
    requires status == Refunded <==> kind == Dispute.FullRefund
    requires status == Settled <==> kind == Dispute.ReleaseProvider
    requires status == SplitPaid <==> kind == Dispute.Split
    requires status == RepairPending <==> kind == Dispute.Repair
    requires status == Quarantined <==> kind == Dispute.Quarantine
    ensures status == StatusFor(kind)
  {
  }

  lemma CreditsMean(c: Content, q: DecisionRequest, balances: map<string, u64>)
    requires q.holdId in c.holds && c.holds[q.holdId].buyer in c.balances && c.holds[q.holdId].provider in c.balances
    requires forall a :: a in balances <==> a in c.balances
    requires forall a :: a in c.balances ==>
               balances[a] as int == c.balances[a] as int + (if a == c.holds[q.holdId].buyer then q.decision.core.remedy.refund as int else 0)
                                     + (if a == c.holds[q.holdId].provider then q.decision.core.remedy.release as int else 0)
    ensures DecidedContent(c, q).Ok? && DecidedContent(c, q).value.balances == balances
  {
    var h, remedy := c.holds[q.holdId], q.decision.core.remedy;
    assert balances[h.buyer] <= U64_MAX && balances[h.provider] <= U64_MAX;
    SameMap(DecidedContent(c, q).value.balances, balances);
  }

  lemma PaidIsUnique(c: Content, q: DecisionRequest, after: Content)
    requires q.holdId in c.holds && c.holds[q.holdId].buyer in c.balances && c.holds[q.holdId].provider in c.balances
    ensures Paid(c, after, q) <==>
            c.revision < U64_MAX && DecidedContent(c, q).Ok? && after == Finished(DecidedContent(c, q).value, q.key)
  {
    if c.revision < U64_MAX && Paid(c, after, q) {
      CreditsMean(c, q, after.balances);
      var made := Finished(DecidedContent(c, q).value, q.key);
      SameKeys(after.consumed, made.consumed);
      StatusMeans(after.holds[q.holdId].status, q.decision.core.remedy.kind);
      SameMap(after.holds, made.holds);
    }
  }

  /** A mutation is finished exactly if the ledger it leaves would verify. */
  lemma FinishMeans(b: Bounds, l: Ledger, candidate: Content, key: string, holdId: string, after: Ledger, m: Mutation)
    requires candidate.initialTotal == l.content.initialTotal && candidate.schema == LEDGER_SCHEMA && HoldsFit(candidate.holds)
    ensures Finish(b, candidate, key, l.root, holdId) == Ok((after, m)) <==>
            && candidate.revision < U64_MAX && after.content == Finished(candidate, key)
            && Verify(b, after).None? && MutationRule(l, after, m, holdId)
  {
    hide Value;
  }

  /**
   * A reservation takes a ledger to another one exactly if the ledger verifies, the request is in order, the
   * other one differs by the moved amount, the new hold, the key and the revision alone, and verifies as well.
   */
  lemma ReserveMeans(b: Bounds, l: Ledger, q: ReserveRequest, after: Ledger, m: Mutation)
    ensures Reserve(b, l, q) == Ok((after, m)) <==>
            && LedgerRule(b, l) && ReservationRule(b, l, q)
            && Moved(l.content, after.content, q) && LedgerRule(b, after) && MutationRule(l, after, m, q.holdId)
  {
    hide Verify, ReserveError, LedgerRule, ReservationRule, Moved, Finish, MutationRule, ReserveContent, Finished;
    LedgersAgree(b, l);
    LedgersAgree(b, after);
    ReservationsAgree(b, l, q);
    if LedgerRule(b, l) && ReservationRule(b, l, q) {
      ReservedKnows(b, l, q);
      MovedIsUnique(l.content, q, after.content);
      FinishMeans(b, l, ReserveContent(l.content, q), q.key, q.holdId, after, m);
    }
  }

  lemma ReservedKnows(b: Bounds, l: Ledger, q: ReserveRequest)
    requires LedgerRule(b, l) && ReservationRule(b, l, q)
    ensures q.buyer in l.content.balances && q.amount <= l.content.balances[q.buyer] && q.holdId !in l.content.holds
    ensures var c := ReserveContent(l.content, q);
            && c.revision == l.content.revision && c.initialTotal == l.content.initialTotal && c.schema == LEDGER_SCHEMA && HoldsFit(c.holds)
  {
    hide Total;
  }

  /**
   * A decision takes a ledger to another one exactly if the ledger verifies, the request and the decision are in
   * order, the other one differs by the two payments, the decided hold, the key and the revision alone, and
   * verifies as well.
   */
  lemma PaymentMeans(b: Bounds, l: Ledger, q: DecisionRequest, after: Ledger, m: Mutation)
    ensures ApplyDecision(b, l, q) == Ok((after, m)) <==>
            && LedgerRule(b, l) && PaymentRule(b, l, q)
            && Paid(l.content, after.content, q) && LedgerRule(b, after) && MutationRule(l, after, m, q.holdId)
  {
    hide Verify, DecisionRequestError, LedgerRule, PaymentRule, Paid, Finish, MutationRule, DecidedContent, Finished;
    LedgersAgree(b, l);
    LedgersAgree(b, after);
    PaymentsAgree(b, l, q);
    if LedgerRule(b, l) {
      PaidKnows(b, l, q);
    }
    if LedgerRule(b, l) && PaymentRule(b, l, q) {
      PaidIsUnique(l.content, q, after.content);
      if DecidedContent(l.content, q).Ok? {
        FinishMeans(b, l, DecidedContent(l.content, q).value, q.key, q.holdId, after, m);
      }
    }
  }

  lemma PaidKnows(b: Bounds, l: Ledger, q: DecisionRequest)
    requires LedgerRule(b, l)
    ensures DecisionRequestError(b, l, q).None? ==> q.holdId in l.content.holds
    ensures PaymentRule(b, l, q) ==> DecisionRequestError(b, l, q).None? && b.decision(q)
    ensures PaymentRule(b, l, q) ==>
              var h := l.content.holds[q.holdId]; h.buyer in l.content.balances && h.provider in l.content.balances
    ensures DecisionRequestError(b, l, q).None? && DecidedContent(l.content, q).Ok? ==>
              var c, h := DecidedContent(l.content, q).value, l.content.holds[q.holdId];
              && c.revision == l.content.revision && c.initialTotal == l.content.initialTotal && c.schema == LEDGER_SCHEMA && HoldsFit(c.holds)
              && h.buyer in l.content.balances && h.provider in l.content.balances
  {
    hide Total;
    PaymentsAgree(b, l, q);
  }

  /** Creation succeeds exactly on named accounts with a sum of 64 bits, and leaves them, and nothing else, in a ledger that verifies. */
  lemma CreationMeans(b: Bounds, balances: map<string, u64>, l: Ledger)
    ensures Create(b, balances) == Ok(l) <==>
            && balances != map[] && (forall a :: a in balances ==> DisputeRules.Says(a))
            && LedgerRule(b, l) && l.content.balances == balances && l.content.holds == map[] && l.content.consumed == {}
            && l.content.revision == 0
  {
    forall a ensures DisputeRules.Says(a) <==> !Dispute.Empty(a) {
      DisputeRules.SaysIsNotEmpty(a);
    }
    LedgersAgree(b, l);
    assert Locked(map[]) == map[];
    hide DisputeRules.Says, Dispute.Empty, LedgerRule;
  }
}
