// Automatic dispute decisions (crates/joan-dispute/src/lib.rs): a quorum of machine
// findings selects a remedy, and the remedy allocates the whole value of the case.
// Digests are symbolic: a digest is the domain and the content it was taken of.
module Dispute {
  import opened Prelude
  import Tokens

  datatype Digest =
    | Named(text: string)
    | OfClaim(claim: Claim)
    | OfProfile(profile: Profile)
    | OfDecision(core: DecisionCore)

  datatype RemedyKind = FullRefund | ReleaseProvider | Split | Repair | Quarantine

  /** What applies when no side reaches its quorum; a split refunds the buyer this many basis points. */
  datatype Fallback = RefundAll | ReleaseAll | SplitBy(buyerRefundBps: nat) | RequireRepair | Freeze

  datatype Phase = Primary | Appeal

  datatype Disposition = SupportsClaim | RejectsClaim | Abstain

  datatype DecisionStatus = ClaimUpheld | ClaimRejected | FallbackApplied

  datatype Profile = Profile(
    schema: string,
    policyDigest: Digest,
    eligibleCodes: set<string>,
    allowedRemedies: set<RemedyKind>,
    maxValue: u64,
    primaryAdjudicators: set<string>,
    appealAdjudicators: set<string>,
    primaryThreshold: u64,
    appealThreshold: u64,
    fallback: Fallback,
    automaticFinality: bool)

  /** A verified case; `adjudicable` stands for the five states in which it may be decided. */
  datatype Case = Case(caseId: string, claimantId: string, digest: Digest, policyDigest: Digest, value: u64, adjudicable: bool)

  /** A verified evidence graph: for every item, whether its own verification succeeded. */
  datatype Evidence = Evidence(caseId: string, root: Digest, locked: bool, items: map<string, bool>)

  datatype Claim = Claim(
    schema: string, claimId: string, caseId: string, claimantId: string, code: string, requested: RemedyKind, refs: seq<string>)

  datatype Finding = Finding(
    schema: string, adjudicator: string, phase: Phase, caseDigest: Digest, evidenceRoot: Digest, policyDigest: Digest,
    disposition: Disposition, refs: seq<string>)

  datatype Allocation = Allocation(kind: RemedyKind, refund: u64, release: u64, retained: u64)

  datatype DecisionCore = DecisionCore(
    schema: string,
    phase: Phase,
    caseDigest: Digest,
    evidenceRoot: Digest,
    claimDigest: Digest,
    profileDigest: Digest,
    supersedes: Option<Digest>,
    status: DecisionStatus,
    supportCount: nat,
    rejectCount: nat,
    abstainCount: nat,
    participants: set<string>,
    remedy: Allocation)

  datatype Receipt = Receipt(core: DecisionCore, digest: Digest)

  datatype DisputeError =
    | UnsupportedSchema | EmptyField | InvalidCaseState | EvidenceNotLocked | BindingMismatch | PolicyMismatch
    | AutomaticFinalityRequired | AdjudicatorOverlap | InvalidThreshold | ValueOutOfRange | IneligibleClaim | RemedyNotAllowed
    | InvalidEvidenceReference | FindingBindingMismatch | UnauthorizedAdjudicator | DuplicateFinding | FindingWithoutEvidence
    | InvalidPriorDecision | AmountOverflow | Unencodable

  /** Which claims, profiles and decisions can be encoded, and so have a digest. */
  datatype Bounds = Bounds(claim: Claim -> bool, profile: Profile -> bool, decision: DecisionCore -> bool)

  const CLAIM_SCHEMA := "joan.dispute-claim.v0"
  const PROFILE_SCHEMA := "joan.automatic-resolution-profile.v0"
  const FINDING_SCHEMA := "joan.machine-finding.v0"
  const DECISION_SCHEMA := "joan.automatic-decision-receipt.v0"
  const FULL_BPS: nat := 10_000

  predicate Empty(text: string) {
    forall i :: 0 <= i < |text| ==> Tokens.IsWhitespace(text[i])
  }

  // ---------- remedies ----------

  function FallbackKind(fallback: Fallback): RemedyKind {
    match fallback
    case RefundAll => FullRefund
    case ReleaseAll => ReleaseProvider
    case SplitBy(_) => Split
    case RequireRepair => Repair
    case Freeze => Quarantine
  }

  /** The split of a value by basis points, computed in 128 bits and brought back to 64. */
  function SplitAllocation(bps: nat, value: u64): Result<Allocation, DisputeError> {
    var refund := value * bps / FULL_BPS;
    if refund > U64_MAX then Err(AmountOverflow)
    else if refund > value then Err(AmountOverflow)
    else Ok(Allocation(Split, refund, value - refund, 0))
  }

  function AllocationFor(remedy: RemedyKind, fallback: Fallback, value: u64): Result<Allocation, DisputeError> {
    match remedy
    case FullRefund => Ok(Allocation(remedy, value, 0, 0))
    case ReleaseProvider => Ok(Allocation(remedy, 0, value, 0))
    case Split => if fallback.SplitBy? then SplitAllocation(fallback.buyerRefundBps, value) else Err(RemedyNotAllowed)
    case Repair | Quarantine => Ok(Allocation(remedy, 0, 0, value))
  }

  lemma SplitWithin(bps: nat, value: nat)
    ensures bps <= FULL_BPS ==> value * bps / FULL_BPS <= value
  {
    if bps <= FULL_BPS {
      assert value * bps <= value * FULL_BPS;
    }
  }

  /** An allocation hands out exactly the value, and a split of at most all basis points never overflows. */
  lemma AllocationConserves(remedy: RemedyKind, fallback: Fallback, value: u64)
    ensures match AllocationFor(remedy, fallback, value)
            case Ok(a) => a.kind == remedy && a.refund as int + a.release as int + a.retained as int == value as int
            case Err(RemedyNotAllowed) => remedy.Split? && !fallback.SplitBy?
            case Err(e) => e.AmountOverflow? && remedy.Split? && fallback.SplitBy? && fallback.buyerRefundBps > FULL_BPS
  {
    if fallback.SplitBy? {
      SplitWithin(fallback.buyerRefundBps, value);
    }
  }

  // ---------- inputs ----------

  function ProfileError(p: Profile): Option<DisputeError> {
    if p.schema != PROFILE_SCHEMA then Some(UnsupportedSchema)
    else if !p.automaticFinality then Some(AutomaticFinalityRequired)
    else if p.primaryAdjudicators !! p.appealAdjudicators then
      if p.primaryThreshold == 0 || p.appealThreshold == 0
         || p.primaryThreshold > |p.primaryAdjudicators| || p.appealThreshold > |p.appealAdjudicators| then
        Some(InvalidThreshold)
      else if FallbackKind(p.fallback) !in p.allowedRemedies || ReleaseProvider !in p.allowedRemedies then Some(RemedyNotAllowed)
      else if p.fallback.SplitBy? && p.fallback.buyerRefundBps > FULL_BPS then Some(RemedyNotAllowed)
      else None
    else Some(AdjudicatorOverlap)
  }

  predicate RefsVerified(evidence: Evidence, refs: seq<string>) {
    forall i :: 0 <= i < |refs| ==> refs[i] in evidence.items && evidence.items[refs[i]]
  }

  predicate DigestVerified(r: Receipt) {
    r.digest == OfDecision(r.core)
  }

  function DecisionError(b: Bounds, r: Receipt): Option<DisputeError> {
    if r.core.schema != DECISION_SCHEMA then Some(UnsupportedSchema)
    else if !b.decision(r.core) then Some(Unencodable)
    else if !DigestVerified(r) then Some(InvalidPriorDecision)
    else None
  }

  function PriorError(b: Bounds, c: Case, evidence: Evidence, phase: Phase, prior: Option<Receipt>): Option<DisputeError> {
    if phase.Primary? && prior.None? then None
    else if phase.Appeal? && prior.Some? then
      if DecisionError(b, prior.value).Some? then DecisionError(b, prior.value)
      else if !prior.value.core.phase.Primary? || prior.value.core.caseDigest != c.digest
              || prior.value.core.evidenceRoot != evidence.root then
        Some(InvalidPriorDecision)
      else None
    else Some(InvalidPriorDecision)
  }

  function InputError(b: Bounds, c: Case, evidence: Evidence, claim: Claim, profile: Profile, phase: Phase, prior: Option<Receipt>)
    : Option<DisputeError>
  {
    if !c.adjudicable then Some(InvalidCaseState)
    else if !evidence.locked then Some(EvidenceNotLocked)
    else if claim.schema != CLAIM_SCHEMA then Some(UnsupportedSchema)
    else if Empty(claim.claimId) then Some(EmptyField)
    else if evidence.caseId != c.caseId || claim.caseId != c.caseId || claim.claimantId != c.claimantId then Some(BindingMismatch)
    else if ProfileError(profile).Some? then ProfileError(profile)
    else if profile.policyDigest != c.policyDigest then Some(PolicyMismatch)
    else if c.value > profile.maxValue then Some(ValueOutOfRange)
    else if claim.code !in profile.eligibleCodes then Some(IneligibleClaim)
    else if claim.requested !in profile.allowedRemedies then Some(RemedyNotAllowed)
    else if !RefsVerified(evidence, claim.refs) then Some(InvalidEvidenceReference)
    else PriorError(b, c, evidence, phase, prior)
  }

  // ---------- findings ----------

  /** What every finding of one evaluation is checked against. */
  datatype Docket = Docket(c: Case, evidence: Evidence, policyDigest: Digest, phase: Phase, allowed: set<string>)

  datatype Votes = Votes(support: nat, reject: nat, abstain: nat, seen: set<string>)

  const NO_VOTES := Votes(0, 0, 0, {})

  function FindingError(d: Docket, f: Finding, seen: set<string>): Option<DisputeError> {
    if f.schema != FINDING_SCHEMA then Some(UnsupportedSchema)
    else if Empty(f.adjudicator) then Some(EmptyField)
    else if f.phase != d.phase || f.caseDigest != d.c.digest || f.evidenceRoot != d.evidence.root || f.policyDigest != d.policyDigest then
      Some(FindingBindingMismatch)
    else if f.adjudicator !in d.allowed then Some(UnauthorizedAdjudicator)
    else if f.adjudicator in seen then Some(DuplicateFinding)
    else if !f.disposition.Abstain? && f.refs == [] then Some(FindingWithoutEvidence)
    else if !RefsVerified(d.evidence, f.refs) then Some(InvalidEvidenceReference)
    else None
  }

  function Counted(v: Votes, f: Finding): Votes {
    var seen := v.seen + {f.adjudicator};
    match f.disposition
    case SupportsClaim => v.(support := v.support + 1, seen := seen)
    case RejectsClaim => v.(reject := v.reject + 1, seen := seen)
    case Abstain => v.(abstain := v.abstain + 1, seen := seen)
  }

  /** The findings in order, the first bad one ends the count. */
  function Tally(d: Docket, findings: seq<Finding>, v: Votes): Result<Votes, DisputeError>
    decreases |findings|
  {
    if findings == [] then Ok(v)
    else
      match FindingError(d, findings[0], v.seen)
      case Some(e) => Err(e)
      case None => Tally(d, findings[1..], Counted(v, findings[0]))
  }

  method EvaluateFindings(d: Docket, findings: seq<Finding>) returns (r: Result<Votes, DisputeError>)
    ensures r == Tally(d, findings, NO_VOTES)
  {
    var v := NO_VOTES;
    assert findings[0..] == findings;
    for k := 0 to |findings|
      invariant Tally(d, findings[k..], v) == Tally(d, findings, NO_VOTES)
    {
      assert findings[k..][0] == findings[k] && findings[k..][1..] == findings[k + 1..];
      var e := FindingError(d, findings[k], v.seen);
      if e.Some? {
        return Err(e.value);
      }
      v := Counted(v, findings[k]);
    }
    return Ok(v);
  }

  // ---------- decisions ----------

  function Outcome(profile: Profile, claim: Claim, threshold: nat, v: Votes): (DecisionStatus, RemedyKind) {
    if v.support >= threshold && v.reject < threshold then (ClaimUpheld, claim.requested)
    else if v.reject >= threshold && v.support < threshold then (ClaimRejected, ReleaseProvider)
    else (FallbackApplied, FallbackKind(profile.fallback))
  }

  function Adjudicators(profile: Profile, phase: Phase): set<string> {
    if phase.Primary? then profile.primaryAdjudicators else profile.appealAdjudicators
  }

  function Threshold(profile: Profile, phase: Phase): u64 {
    if phase.Primary? then profile.primaryThreshold else profile.appealThreshold
  }

  function DocketOf(c: Case, evidence: Evidence, profile: Profile, phase: Phase): Docket {
    Docket(c, evidence, profile.policyDigest, phase, Adjudicators(profile, phase))
  }

  /** The receipt for counted votes. */
  function Decide(b: Bounds, c: Case, evidence: Evidence, claim: Claim, profile: Profile, phase: Phase, prior: Option<Receipt>, v: Votes)
    : Result<Receipt, DisputeError>
  {
    var (status, kind) := Outcome(profile, claim, Threshold(profile, phase), v);
    if kind !in profile.allowedRemedies then Err(RemedyNotAllowed)
    else
      match AllocationFor(kind, profile.fallback, c.value)
      case Err(e) => Err(e)
      case Ok(remedy) =>
        if !b.claim(claim) || !b.profile(profile) then Err(Unencodable)
        else
          var supersedes := if prior.Some? then Some(prior.value.digest) else None;
          var core := DecisionCore(DECISION_SCHEMA, phase, c.digest, evidence.root, OfClaim(claim), OfProfile(profile), supersedes,
                                   status, v.support, v.reject, v.abstain, v.seen, remedy);
          if b.decision(core) then Ok(Receipt(core, OfDecision(core))) else Err(Unencodable)
  }

  function Evaluate(b: Bounds, c: Case, evidence: Evidence, claim: Claim, profile: Profile, findings: seq<Finding>, phase: Phase,
                    prior: Option<Receipt>): Result<Receipt, DisputeError>
  {
    match InputError(b, c, evidence, claim, profile, phase, prior)
    case Some(e) => Err(e)
    case None =>
      match Tally(DocketOf(c, evidence, profile, phase), findings, NO_VOTES)
      case Err(e) => Err(e)
      case Ok(v) => Decide(b, c, evidence, claim, profile, phase, prior, v)
  }

  // ---------- what a tally says ----------

  function Ids(findings: seq<Finding>): set<string> {
    set f | f in findings :: f.adjudicator
  }

  function Voters(findings: seq<Finding>, disposition: Disposition): set<string> {
    set f | f in findings && f.disposition == disposition :: f.adjudicator
  }

  /** A finding that no earlier one makes a duplicate is accepted. */
  predicate Fits(d: Docket, f: Finding) {
    FindingError(d, f, {}).None?
  }

  lemma {:induction false} IdsBound(findings: seq<Finding>)
    ensures |Ids(findings)| <= |findings|
  {
    if findings != [] {
      IdsBound(findings[1..]);
      IdsStep(findings);
    }
  }

  lemma IdsStep(findings: seq<Finding>)
    requires findings != []
    ensures Ids(findings) == {findings[0].adjudicator} + Ids(findings[1..])
    ensures forall d :: Voters(findings, d) ==
                        (if findings[0].disposition == d then {findings[0].adjudicator} else {}) + Voters(findings[1..], d)
  {
    assert findings == [findings[0]] + findings[1..];
  }

  lemma VotersAreIds(findings: seq<Finding>)
    ensures forall d :: Voters(findings, d) <= Ids(findings)
  {
  }

  lemma FitsUnlessSeen(d: Docket, f: Finding, seen: set<string>)
    ensures FindingError(d, f, seen).None? <==> Fits(d, f) && f.adjudicator !in seen
    ensures FindingError(d, f, seen) != Some(AmountOverflow)
  {
  }

  /** Adjudicators are distinct and new exactly if the first one is, and the others are besides it. */
  lemma DistinctStep(findings: seq<Finding>, seen: set<string>)
    requires findings != []
    ensures var f, rest := findings[0], findings[1..];
            (|Ids(findings)| == |findings| && Ids(findings) !! seen) <==>
            (f.adjudicator !in seen && |Ids(rest)| == |rest| && Ids(rest) !! seen + {f.adjudicator})
  {
    IdsStep(findings);
    IdsBound(findings[1..]);
  }

  /** A new adjudicator adds one to the voters of the disposition. */
  lemma VotersStep(findings: seq<Finding>, d: Disposition)
    requires findings != [] && findings[0].adjudicator !in Ids(findings[1..])
    ensures |Voters(findings, d)| == |Voters(findings[1..], d)| + if findings[0].disposition == d then 1 else 0
  {
    IdsStep(findings);
    VotersAreIds(findings[1..]);
  }

  function Meaning(findings: seq<Finding>, v: Votes): Votes {
    Votes(v.support + |Voters(findings, SupportsClaim)|, v.reject + |Voters(findings, RejectsClaim)|,
          v.abstain + |Voters(findings, Abstain)|, v.seen + Ids(findings))
  }

  lemma MeaningStep(findings: seq<Finding>, v: Votes)
    requires findings != [] && findings[0].adjudicator !in Ids(findings[1..])
    ensures Meaning(findings[1..], Counted(v, findings[0])) == Meaning(findings, v)
  {
    hide Voters, Ids, Counted;
    CountedFields(v, findings[0]);
    VotersStep(findings, SupportsClaim);
    VotersStep(findings, RejectsClaim);
    VotersStep(findings, Abstain);
    IdsStep(findings);
    Union3(v.seen, {findings[0].adjudicator}, Ids(findings[1..]));
  }

  lemma CountedFields(v: Votes, f: Finding)
    ensures Counted(v, f) == Votes(v.support + (if f.disposition == SupportsClaim then 1 else 0),
                                   v.reject + (if f.disposition == RejectsClaim then 1 else 0),
                                   v.abstain + (if f.disposition == Abstain then 1 else 0), v.seen + {f.adjudicator})
  {
  }

  lemma Union3(a: set<string>, b: set<string>, c: set<string>)
    ensures a + (b + c) == a + b + c
  {
  }

  /** Which findings are counted, and what the count is, without any reference to their order. */
  lemma {:induction false} TallyMeans(d: Docket, findings: seq<Finding>, v: Votes)
    ensures Tally(d, findings, v).Ok? <==>
            (forall f :: f in findings ==> Fits(d, f)) && |Ids(findings)| == |findings| && Ids(findings) !! v.seen
    ensures Tally(d, findings, v).Ok? ==> Tally(d, findings, v).value == Meaning(findings, v)
    decreases |findings|
  {
    hide FindingError, Fits, Ids, Meaning;
    if findings == [] {
      NothingCounted(v);
    } else {
      var f, rest := findings[0], findings[1..];
      FitsUnlessSeen(d, f, v.seen);
      DistinctStep(findings, v.seen);
      assert (forall g :: g in findings ==> Fits(d, g)) <==> Fits(d, f) && forall g :: g in rest ==> Fits(d, g) by {
        assert findings == [f] + rest;
      }
      if FindingError(d, f, v.seen).None? {
        TallyMeans(d, rest, Counted(v, f));
        if f.adjudicator !in Ids(rest) {
          MeaningStep(findings, v);
        }
      }
    }
  }

  lemma NothingCounted(v: Votes)
    ensures Meaning([], v) == v && Ids([]) == {}
  {
  }

  lemma {:induction false} TallyNeverOverflows(d: Docket, findings: seq<Finding>, v: Votes)
    ensures Tally(d, findings, v) != Err(AmountOverflow)
    decreases |findings|
  {
    if findings != [] {
      FitsUnlessSeen(d, findings[0], v.seen);
      TallyNeverOverflows(d, findings[1..], Counted(v, findings[0]));
    }
  }

  lemma InputNeverOverflows(b: Bounds, c: Case, evidence: Evidence, claim: Claim, profile: Profile, phase: Phase, prior: Option<Receipt>)
    ensures InputError(b, c, evidence, claim, profile, phase, prior) != Some(AmountOverflow)
    ensures InputError(b, c, evidence, claim, profile, phase, prior).None? ==> ProfileError(profile).None?
  {
  }

  /**
   * Order independence. Findings in another order give the same receipt, or are refused as well.
   */
  lemma FindingOrderDoesNotMatter(b: Bounds, c: Case, evidence: Evidence, claim: Claim, profile: Profile, findings: seq<Finding>,
                                  shuffled: seq<Finding>, phase: Phase, prior: Option<Receipt>)
    requires multiset(findings) == multiset(shuffled)
    ensures var r, r' := Evaluate(b, c, evidence, claim, profile, findings, phase, prior),
                         Evaluate(b, c, evidence, claim, profile, shuffled, phase, prior);
            (r.Ok? <==> r'.Ok?) && (r.Ok? ==> r == r')
  {
    TalliesAgree(DocketOf(c, evidence, profile, phase), findings, shuffled);
    hide Tally, InputError, Decide, DocketOf;
  }

  lemma TalliesAgree(d: Docket, findings: seq<Finding>, shuffled: seq<Finding>)
    requires multiset(findings) == multiset(shuffled)
    ensures var r, r' := Tally(d, findings, NO_VOTES), Tally(d, shuffled, NO_VOTES);
            (r.Ok? <==> r'.Ok?) && (r.Ok? ==> r == r')
  {
    hide Tally, Ids, Voters, Fits;
    SameMembers(findings, shuffled);
    TallyMeans(d, findings, NO_VOTES);
    TallyMeans(d, shuffled, NO_VOTES);
    assert Meaning(findings, NO_VOTES) == Meaning(shuffled, NO_VOTES);
  }

  lemma SameMembers(a: seq<Finding>, b: seq<Finding>)
    requires multiset(a) == multiset(b)
    ensures |a| == |b| && Ids(a) == Ids(b) && forall f :: f in a <==> f in b
    ensures forall d :: Voters(a, d) == Voters(b, d)
  {
    assert |multiset(a)| == |multiset(b)|;
    forall f ensures f in a <==> f in b {
      assert f in multiset(a) <==> f in multiset(b);
    }
  }

  /**
   * Conservation. A decision hands out the whole value of the case, its receipt verifies, it names only
   * assigned adjudicators, and no accepted evaluation ever meets an arithmetic overflow.
   */
  lemma DecisionsConserveValue(b: Bounds, c: Case, evidence: Evidence, claim: Claim, profile: Profile, findings: seq<Finding>, phase: Phase,
                               prior: Option<Receipt>)
    ensures var r := Evaluate(b, c, evidence, claim, profile, findings, phase, prior);
            && (r.Ok? ==>
                  var core := r.value.core;
                  && core.remedy.refund as int + core.remedy.release as int + core.remedy.retained as int == c.value as int
                  && DecisionError(b, r.value).None?
                  && core.participants <= Adjudicators(profile, phase)
                  && core.supportCount + core.rejectCount + core.abstainCount == |core.participants|)
            && r != Err(AmountOverflow)
  {
    var d := DocketOf(c, evidence, profile, phase);
    InputNeverOverflows(b, c, evidence, claim, profile, phase, prior);
    TallyNeverOverflows(d, findings, NO_VOTES);
    hide Tally, InputError, Decide, ProfileError;
    if InputError(b, c, evidence, claim, profile, phase, prior).None? && Tally(d, findings, NO_VOTES).Ok? {
      DecidedConserves(b, c, evidence, claim, profile, phase, prior, Tally(d, findings, NO_VOTES).value);
      ParticipantsAreAssigned(d, findings);
    }
  }

  /** A decision on a valid profile hands out the value of the case and states the votes it was given. */
  lemma DecidedConserves(b: Bounds, c: Case, evidence: Evidence, claim: Claim, profile: Profile, phase: Phase, prior: Option<Receipt>, v: Votes)
    requires ProfileError(profile).None?
    ensures var r := Decide(b, c, evidence, claim, profile, phase, prior, v);
            && (r.Ok? ==>
                  var core := r.value.core;
                  && core.remedy.refund as int + core.remedy.release as int + core.remedy.retained as int == c.value as int
                  && DecisionError(b, r.value).None?
                  && core.participants == v.seen
                  && core.supportCount == v.support && core.rejectCount == v.reject && core.abstainCount == v.abstain)
            && r != Err(AmountOverflow)
  {
    var (status, kind) := Outcome(profile, claim, Threshold(profile, phase), v);
    AllocationConserves(kind, profile.fallback, c.value);
    hide AllocationFor, Outcome;
  }

  /** All counted adjudicators are assigned, and the three counts add up to their number. */
  lemma ParticipantsAreAssigned(d: Docket, findings: seq<Finding>)
    requires Tally(d, findings, NO_VOTES).Ok?
    ensures var v := Tally(d, findings, NO_VOTES).value;
            v.seen <= d.allowed && v.support + v.reject + v.abstain == |v.seen|
  {
    TallyMeans(d, findings, NO_VOTES);
    VotesPartition(findings);
    hide Tally;
    assert {} + Ids(findings) == Ids(findings);
    forall id | id in Ids(findings) ensures id in d.allowed {
      var f :| f in findings && f.adjudicator == id;
      assert Fits(d, f);
    }
  }

  /** Distinct adjudicators split into the three kinds of vote. */
  lemma {:induction false} VotesPartition(findings: seq<Finding>)
    requires |Ids(findings)| == |findings|
    ensures |Voters(findings, SupportsClaim)| + |Voters(findings, RejectsClaim)| + |Voters(findings, Abstain)| == |findings|
  {
    if findings != [] {
      DistinctStep(findings, {});
      VotersStep(findings, SupportsClaim);
      VotersStep(findings, RejectsClaim);
      VotersStep(findings, Abstain);
      VotesPartition(findings[1..]);
    }
  }

  /** An appeal replaces a primary decision of the same case; an appeal is never appealed again. */
  lemma AppealsDoNotChain(b: Bounds, c: Case, evidence: Evidence, claim: Claim, profile: Profile, findings: seq<Finding>, prior: Receipt,
                          c': Case, evidence': Evidence, claim': Claim, profile': Profile, findings': seq<Finding>, phase': Phase)
    requires Evaluate(b, c, evidence, claim, profile, findings, Appeal, Some(prior)).Ok?
    ensures prior.core.phase.Primary? && prior.core.caseDigest == c.digest
    ensures var appeal := Evaluate(b, c, evidence, claim, profile, findings, Appeal, Some(prior)).value;
            && appeal.core.supersedes == Some(OfDecision(prior.core))
            && Evaluate(b, c', evidence', claim', profile', findings', phase', Some(appeal)).Err?
  {
  }

  // ---------- evaluation, step by step ----------

  method RunEvaluation(b: Bounds, c: Case, evidence: Evidence, claim: Claim, profile: Profile, findings: seq<Finding>, phase: Phase,
                       prior: Option<Receipt>) returns (r: Result<Receipt, DisputeError>)
    ensures r == Evaluate(b, c, evidence, claim, profile, findings, phase, prior)
    ensures r.Ok? ==> r.value.core.remedy.refund as int + r.value.core.remedy.release as int + r.value.core.remedy.retained as int == c.value as int
  {
    DecisionsConserveValue(b, c, evidence, claim, profile, findings, phase, prior);
    var e := InputError(b, c, evidence, claim, profile, phase, prior);
    if e.Some? {
      return Err(e.value);
    }
    var votes := EvaluateFindings(DocketOf(c, evidence, profile, phase), findings);
    if votes.Err? {
      return Err(votes.error);
    }
    r := Decide(b, c, evidence, claim, profile, phase, prior, votes.value);
  }
}
