// When a dispute is decided, and how: the verdict by the numbers of adjudicators on each side,
// and who gets the money under each remedy.
module DisputeRules {
  import opened Prelude
  import opened Dispute
  import Tokens

  // ---------- what an evaluation takes ----------

  /** Some character is no white space. */
  predicate Says(text: string) {
    exists i :: 0 <= i < |text| && !Tokens.IsWhitespace(text[i])
  }

  /** All references are to verified items of evidence. */
  predicate Referable(evidence: Evidence, refs: seq<string>) {
    forall ref :: ref in refs ==> ref in evidence.items && evidence.items[ref]
  }

  predicate FallbackRule(p: Profile) {
    match p.fallback
    case RefundAll => FullRefund in p.allowedRemedies
    case ReleaseAll => ReleaseProvider in p.allowedRemedies
    case SplitBy(points) => Split in p.allowedRemedies && points <= 10_000
    case RequireRepair => Repair in p.allowedRemedies
    case Freeze => Quarantine in p.allowedRemedies
  }

  /** Nobody sits on both panels, and each panel can reach its threshold. */
  predicate ProfileRule(p: Profile) {
    && p.schema == "joan.automatic-resolution-profile.v0" && p.automaticFinality
    && (forall id :: id in p.primaryAdjudicators ==> id !in p.appealAdjudicators)
    && 1 <= p.primaryThreshold <= |p.primaryAdjudicators| && 1 <= p.appealThreshold <= |p.appealAdjudicators|
    && ReleaseProvider in p.allowedRemedies && FallbackRule(p)
  }

  /** The claim is about this case and this evidence, and the profile covers it. */
  predicate ClaimRule(c: Case, evidence: Evidence, claim: Claim, profile: Profile) {
    && c.adjudicable && evidence.locked
    && claim.schema == "joan.dispute-claim.v0" && Says(claim.claimId)
    && evidence.caseId == c.caseId && claim.caseId == c.caseId && claim.claimantId == c.claimantId
    && profile.policyDigest == c.policyDigest && c.value <= profile.maxValue
    && claim.code in profile.eligibleCodes && claim.requested in profile.allowedRemedies
    && Referable(evidence, claim.refs)
  }

  /** Appeals, and only appeals, are against a verified primary decision on the same case and evidence. */
  predicate PriorRule(b: Bounds, c: Case, evidence: Evidence, phase: Phase, prior: Option<Receipt>) {
    match prior
    case None => phase.Primary?
    case Some(r) =>
      && phase.Appeal?
      && r.core.schema == "joan.automatic-decision-receipt.v0" && b.decision(r.core) && r.digest == OfDecision(r.core)
      && r.core.phase.Primary? && r.core.caseDigest == c.digest && r.core.evidenceRoot == evidence.root
  }

  /** A finding of an assigned adjudicator about this case, with evidence unless it abstains. */
  predicate FindingRule(c: Case, evidence: Evidence, profile: Profile, phase: Phase, f: Finding) {
    && f.schema == "joan.machine-finding.v0" && Says(f.adjudicator)
    && f.phase == phase && f.caseDigest == c.digest && f.evidenceRoot == evidence.root && f.policyDigest == profile.policyDigest
    && f.adjudicator in (if phase.Primary? then profile.primaryAdjudicators else profile.appealAdjudicators)
    && (f.disposition.Abstain? || f.refs != [])
    && Referable(evidence, f.refs)
  }

  predicate FindingsRule(c: Case, evidence: Evidence, profile: Profile, phase: Phase, findings: seq<Finding>) {
    && (forall i :: 0 <= i < |findings| ==> FindingRule(c, evidence, profile, phase, findings[i]))
    && (forall i, j :: 0 <= i < j < |findings| ==> findings[i].adjudicator != findings[j].adjudicator)
  }

  predicate EvaluationRule(b: Bounds, c: Case, evidence: Evidence, claim: Claim, profile: Profile, findings: seq<Finding>, phase: Phase,
                           prior: Option<Receipt>) {
    && ProfileRule(profile) && ClaimRule(c, evidence, claim, profile) && PriorRule(b, c, evidence, phase, prior)
    && FindingsRule(c, evidence, profile, phase, findings)
  }

  // ---------- verdict and payment ----------

  function Supporters(findings: seq<Finding>): set<string> {
    set f | f in findings && f.disposition == SupportsClaim :: f.adjudicator
  }

  function Rejecters(findings: seq<Finding>): set<string> {
    set f | f in findings && f.disposition == RejectsClaim :: f.adjudicator
  }

  /** A side that reaches the threshold alone prevails; otherwise the fallback applies. */
  predicate Verdict(claim: Claim, profile: Profile, phase: Phase, findings: seq<Finding>, status: DecisionStatus, kind: RemedyKind) {
    var threshold := if phase.Primary? then profile.primaryThreshold else profile.appealThreshold;
    var upheld, rejected := |Supporters(findings)| >= threshold, |Rejecters(findings)| >= threshold;
    match status
    case ClaimUpheld => upheld && !rejected && kind == claim.requested
    case ClaimRejected => rejected && !upheld && kind == ReleaseProvider
    case FallbackApplied =>
      && upheld == rejected
      && match profile.fallback
         case RefundAll => kind == FullRefund
         case ReleaseAll => kind == ReleaseProvider
         case SplitBy(_) => kind == Split
         case RequireRepair => kind == Repair
         case Freeze => kind == Quarantine
  }

  /** A refund goes to the buyer, a release to the provider; a split gives the buyer his basis points, rounded down. */
  predicate Pays(kind: RemedyKind, fallback: Fallback, value: nat, a: Allocation) {
    && a.kind == kind
    && match kind
       case FullRefund => a.refund == value && a.release == 0 && a.retained == 0
       case ReleaseProvider => a.refund == 0 && a.release == value && a.retained == 0
       case Repair | Quarantine => a.refund == 0 && a.release == 0 && a.retained == value
       case Split =>
         && fallback.SplitBy?
         && Nat(a.refund) * 10_000 <= value * fallback.buyerRefundBps < (Nat(a.refund) + 1) * 10_000
         && Nat(a.refund) + Nat(a.release) == value && a.retained == 0
  }

  function Nat(n: u64): nat {
    n
  }

  // ---------- the evaluation meets the rules ----------

  lemma SaysIsNotEmpty(text: string)
    ensures Says(text) <==> !Empty(text)
  {
  }

  lemma ProfileAgrees(p: Profile)
    ensures ProfileRule(p) <==> ProfileError(p).None?
  {
    assert (forall id :: id in p.primaryAdjudicators ==> id !in p.appealAdjudicators) <==> p.primaryAdjudicators !! p.appealAdjudicators;
  }

  lemma ReferencesAgree(evidence: Evidence, refs: seq<string>)
    ensures Referable(evidence, refs) <==> RefsVerified(evidence, refs)
  {
    assert RefsVerified(evidence, refs) ==> forall ref :: ref in refs ==> ref in evidence.items && evidence.items[ref];
  }

  lemma InputAgrees(b: Bounds, c: Case, evidence: Evidence, claim: Claim, profile: Profile, phase: Phase, prior: Option<Receipt>)
    ensures InputError(b, c, evidence, claim, profile, phase, prior).None? <==>
            ProfileRule(profile) && ClaimRule(c, evidence, claim, profile) && PriorRule(b, c, evidence, phase, prior)
  {
    ProfileAgrees(profile);
    ReferencesAgree(evidence, claim.refs);
    SaysIsNotEmpty(claim.claimId);
    hide ProfileRule, ProfileError, Says, Empty, Referable, RefsVerified;
  }

  lemma FindingAgrees(c: Case, evidence: Evidence, profile: Profile, phase: Phase, f: Finding)
    ensures FindingRule(c, evidence, profile, phase, f) <==> Fits(DocketOf(c, evidence, profile, phase), f)
  {
    ReferencesAgree(evidence, f.refs);
    SaysIsNotEmpty(f.adjudicator);
    hide Says, Empty, Referable, RefsVerified;
  }

  lemma {:induction false} DistinctAdjudicators(findings: seq<Finding>)
    ensures |Ids(findings)| == |findings| <==> forall i, j :: 0 <= i < j < |findings| ==> findings[i].adjudicator != findings[j].adjudicator
    decreases |findings|
  {
    if findings != [] {
      var rest := findings[1..];
      DistinctStep(findings, {});
      DistinctAdjudicators(rest);
      assert forall i :: 0 < i < |findings| ==> findings[i] == rest[i - 1];
      assert forall i :: 0 <= i < |rest| ==> rest[i] == findings[i + 1];
      assert forall i :: 0 <= i < |rest| ==> rest[i] in rest;
      assert findings[0].adjudicator in Ids(rest) <==> exists i :: 0 <= i < |rest| && rest[i].adjudicator == findings[0].adjudicator;
    }
  }

  lemma FindingsAgree(c: Case, evidence: Evidence, profile: Profile, phase: Phase, findings: seq<Finding>)
    ensures FindingsRule(c, evidence, profile, phase, findings) <==> Tally(DocketOf(c, evidence, profile, phase), findings, NO_VOTES).Ok?
  {
    hide Tally, FindingRule, Fits, Ids, DocketOf, Meaning;
    var d := DocketOf(c, evidence, profile, phase);
    TallyMeans(d, findings, NO_VOTES);
    DistinctAdjudicators(findings);
    forall f ensures FindingRule(c, evidence, profile, phase, f) <==> Fits(d, f) {
      FindingAgrees(c, evidence, profile, phase, f);
    }
    assert (forall f :: f in findings ==> Fits(d, f)) <==> forall i :: 0 <= i < |findings| ==> Fits(d, findings[i]);
  }

  lemma AllocationPays(kind: RemedyKind, fallback: Fallback, value: u64)
    ensures AllocationFor(kind, fallback, value).Ok? ==> Pays(kind, fallback, value, AllocationFor(kind, fallback, value).value)
  {
    if kind.Split? && fallback.SplitBy? {
      var whole := value * fallback.buyerRefundBps;
      assert whole == (whole / 10_000) * 10_000 + whole % 10_000;
    }
  }

  /** There is a verdict, its remedy is allowed, and a split says by how much. */
  ghost predicate Decidable(claim: Claim, profile: Profile, phase: Phase, findings: seq<Finding>) {
    exists status, kind ::
      Verdict(claim, profile, phase, findings, status, kind) && kind in profile.allowedRemedies && (kind.Split? ==> profile.fallback.SplitBy?)
  }

  function Participants(findings: seq<Finding>): set<string> {
    set f | f in findings :: f.adjudicator
  }

  /** The decision says what it is about, who took part in it, and how it came out. */
  predicate DecisionRule(c: Case, evidence: Evidence, claim: Claim, profile: Profile, findings: seq<Finding>, phase: Phase,
                         prior: Option<Receipt>, core: DecisionCore) {
    && core.schema == "joan.automatic-decision-receipt.v0" && core.phase == phase
    && core.caseDigest == c.digest && core.evidenceRoot == evidence.root
    && core.claimDigest == OfClaim(claim) && core.profileDigest == OfProfile(profile)
    && core.supersedes == (match prior case None => None case Some(r) => Some(r.digest))
    && Verdict(claim, profile, phase, findings, core.status, core.remedy.kind) && core.remedy.kind in profile.allowedRemedies
    && Pays(core.remedy.kind, profile.fallback, c.value, core.remedy)
    && core.supportCount == |Supporters(findings)| && core.rejectCount == |Rejecters(findings)|
    && core.participants == Participants(findings)
    && core.supportCount + core.rejectCount + core.abstainCount == |findings|
  }

  lemma OutcomeIsVerdict(claim: Claim, profile: Profile, phase: Phase, findings: seq<Finding>, v: Votes)
    requires v.support == |Supporters(findings)| && v.reject == |Rejecters(findings)|
    ensures var (status, kind) := Outcome(profile, claim, Threshold(profile, phase), v);
            forall s, k :: Verdict(claim, profile, phase, findings, s, k) <==> s == status && k == kind
  {
    hide Supporters, Rejecters;
  }

  /** The counts of a tally are the numbers of adjudicators on each side. */
  lemma TallyCounts(d: Docket, findings: seq<Finding>)
    requires Tally(d, findings, NO_VOTES).Ok?
    ensures var v := Tally(d, findings, NO_VOTES).value;
            && v.support == |Supporters(findings)| && v.reject == |Rejecters(findings)| && v.seen == Participants(findings)
            && v.support + v.reject + v.abstain == |findings|
  {
    TallyMeans(d, findings, NO_VOTES);
    VotesPartition(findings);
    hide Tally;
    assert Voters(findings, SupportsClaim) == Supporters(findings);
    assert Voters(findings, RejectsClaim) == Rejecters(findings);
    assert {} + Ids(findings) == Participants(findings);
  }

  /**
   * An evaluation succeeds exactly by the rules, unless a digest cannot be taken, and its decision pays the
   * parties as the verdict of the adjudicators says.
   */
  lemma EvaluationMeans(b: Bounds, c: Case, evidence: Evidence, claim: Claim, profile: Profile, findings: seq<Finding>, phase: Phase,
                        prior: Option<Receipt>)
    ensures var r := Evaluate(b, c, evidence, claim, profile, findings, phase, prior);
            && (r.Ok? ==>
                  && EvaluationRule(b, c, evidence, claim, profile, findings, phase, prior)
                  && Decidable(claim, profile, phase, findings)
                  && DecisionRule(c, evidence, claim, profile, findings, phase, prior, r.value.core)
                  && r.value.digest == OfDecision(r.value.core))
            && (EvaluationRule(b, c, evidence, claim, profile, findings, phase, prior) && Decidable(claim, profile, phase, findings) ==>
                  r.Ok? || r.error == Unencodable)
  {
    hide InputError, Tally, ProfileRule, ClaimRule, PriorRule, FindingsRule, Decide;
    InputAgrees(b, c, evidence, claim, profile, phase, prior);
    FindingsAgree(c, evidence, profile, phase, findings);
    if InputError(b, c, evidence, claim, profile, phase, prior).None? && Tally(DocketOf(c, evidence, profile, phase), findings, NO_VOTES).Ok? {
      TallyCounts(DocketOf(c, evidence, profile, phase), findings);
      DecideMeans(b, c, evidence, claim, profile, findings, phase, prior, Tally(DocketOf(c, evidence, profile, phase), findings, NO_VOTES).value);
    }
  }

  lemma DecideMeans(b: Bounds, c: Case, evidence: Evidence, claim: Claim, profile: Profile, findings: seq<Finding>, phase: Phase,
                    prior: Option<Receipt>, v: Votes)
    requires v.support == |Supporters(findings)| && v.reject == |Rejecters(findings)| && v.seen == Participants(findings)
    requires v.support + v.reject + v.abstain == |findings| && ProfileRule(profile)
    ensures var r := Decide(b, c, evidence, claim, profile, phase, prior, v);
            && (r.Ok? ==>
                  && Decidable(claim, profile, phase, findings)
                  && DecisionRule(c, evidence, claim, profile, findings, phase, prior, r.value.core)
                  && r.value.digest == OfDecision(r.value.core))
            && (Decidable(claim, profile, phase, findings) ==> r.Ok? || r.error == Unencodable)
  {
    var (status, kind) := Outcome(profile, claim, Threshold(profile, phase), v);
    OutcomeIsVerdict(claim, profile, phase, findings, v);
    AllocationPays(kind, profile.fallback, c.value);
    AllocationConserves(kind, profile.fallback, c.value);
    PointsFit(profile);
    hide Supporters, Rejecters, Participants, AllocationFor, Pays, Outcome, Verdict, ProfileRule;
    assert Verdict(claim, profile, phase, findings, status, kind);
  }

  lemma PointsFit(profile: Profile)
    ensures ProfileRule(profile) && profile.fallback.SplitBy? ==> profile.fallback.buyerRefundBps <= FULL_BPS
  {
  }
}
