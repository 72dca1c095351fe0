// The repository instruction resolver (crates/joan-instruction/src/lib.rs): statements
// of repository content are weighed against authority that only the host can grant.
module Instructions {
  import opened Prelude
  import opened Ast
  import opened Bytecode
  import opened Machine

  // What an authority is granted for: a program by the digest of its tree, or any other name.
  datatype TaskId = NamedTask(text: string) | ProgramTask(semantic: Digest)

  // A nonce is the identity of one effect request, or any other text.
  datatype Nonce = OtherNonce(text: string) | ForRequest(id: RequestId)

  datatype SourceClass = RepositoryGovernance | PathGuidance | ReferencedSpecification | UntrustedContent

  datatype StatementKind = Fact | Procedure | Constraint | Solicitation | GrantClaim | Opaque

  datatype Statement = Statement(kind: StatementKind, subject: string, action: string, value: Option<string>, capabilities: set<string>)

  datatype Scope = Scope(pathPrefixes: seq<string>, taskKinds: seq<string>)

  datatype Envelope = Envelope(schema: string, sourceClass: SourceClass, scope: Scope, statements: seq<Statement>)

  datatype AuthorityRoot = AuthorityRoot(grants: set<string>, denies: set<string>)

  datatype Approval = Approval(
    nonce: Nonce, taskId: TaskId, capabilities: set<string>, authoritySlot: Option<string>, information: Option<Label>)

  datatype AuthorityEnvelope = AuthorityEnvelope(
    schema: string, taskId: TaskId, path: string, taskKind: string, roots: seq<AuthorityRoot>,
    approvalRequired: set<string>, approvable: set<string>, approvals: seq<Approval>)

  datatype InstructionRequest = InstructionRequest(schema: string, authority: AuthorityEnvelope, instructions: seq<Envelope>, requestedEffects: set<string>)

  datatype Decision = Data | Advise | Allow | Deny | Ask | Conflict

  // Ceiling after the host's own denies, denies of the repository, what is left, and the decision.
  datatype Receipt = Receipt(ceiling: set<string>, repositoryDenies: set<string>, effective: set<string>, decision: Decision)

  datatype InstructionError = UnsupportedSchema | NoAuthorityRoots | Unencodable

  // Which authorities, envelopes and receipts can be encoded, and so have a digest. The receipt is that
  // of the request.
  datatype Bounds = Bounds(authority: AuthorityEnvelope -> bool, envelope: Envelope -> bool, receipt: InstructionRequest -> bool)

  datatype Flag = HasAdvice | InvalidAuthorityClaim | OpaqueEffect | Contradiction

  type DirectiveKey = (SourceClass, string, string)

  const REQUEST_SCHEMA := "joan.instruction-request.v0"
  const AUTHORITY_SCHEMA := "joan.authority-envelope.v0"
  const ENVELOPE_SCHEMA := "joan.instruction-envelope.v0"

  // ---------- authority of the host ----------

  function Grants(roots: seq<AuthorityRoot>): set<string>
    requires roots != []
  {
    if |roots| == 1 then roots[0].grants else Grants(roots[..|roots| - 1]) * roots[|roots| - 1].grants
  }

  function Denies(roots: seq<AuthorityRoot>): set<string> {
    if roots == [] then {} else Denies(roots[..|roots| - 1]) + roots[|roots| - 1].denies
  }

  /** Granted by every root; denied by any. */
  lemma {:induction false} RootsMean(roots: seq<AuthorityRoot>, c: string)
    requires roots != []
    ensures c in Grants(roots) <==> forall r :: r in roots ==> c in r.grants
    ensures c in Denies(roots) <==> exists r :: r in roots && c in r.denies
  {
    var n := |roots| - 1;
    assert roots == roots[..n] + [roots[n]];
    if n > 0 {
      RootsMean(roots[..n], c);
    } else {
      assert Denies(roots[..0]) == {};
    }
  }

  method ExternalCeiling(authority: AuthorityEnvelope) returns (r: Result<(set<string>, set<string>), InstructionError>)
    ensures r == if authority.roots == [] then Err(NoAuthorityRoots) else Ok((Grants(authority.roots), Denies(authority.roots)))
  {
    var roots := authority.roots;
    if roots == [] {
      return Err(NoAuthorityRoots);
    }
    var ceiling, denies := roots[0].grants, roots[0].denies;
    assert roots[..1] == [roots[0]] && Denies(roots[..1][..0]) == {};
    for k := 1 to |roots|
      invariant ceiling == Grants(roots[..k]) && denies == Denies(roots[..k])
    {
      assert roots[..k + 1][..k] == roots[..k];
      ceiling := ceiling * roots[k].grants;
      denies := denies + roots[k].denies;
    }
    assert roots[..|roots|] == roots;
    return Ok((ceiling, denies));
  }

  // ---------- what applies ----------

  predicate ScopeApplies(scope: Scope, path: string, taskKind: string) {
    && (scope.pathPrefixes == [] || exists i :: 0 <= i < |scope.pathPrefixes|
                                                && (path == scope.pathPrefixes[i] || scope.pathPrefixes[i] + "/" <= path))
    && (scope.taskKinds == [] || taskKind in scope.taskKinds)
  }

  /** Specifications and untrusted content are data; they neither authorize nor constrain. */
  predicate Guides(c: SourceClass) {
    c.RepositoryGovernance? || c.PathGuidance?
  }

  datatype Item = Item(source: SourceClass, statement: Statement)

  predicate Advises(i: Item) {
    Guides(i.source) && (i.statement.kind.Procedure? || i.statement.kind.Solicitation?)
  }

  /** A piece of advice that gives a value to a subject and an action. */
  predicate Directs(i: Item, key: DirectiveKey, value: string) {
    Advises(i) && i.statement.value == Some(value) && (i.source, i.statement.subject, i.statement.action) == key
  }

  function ItemsOf(e: Envelope): (r: seq<Item>)
    ensures |r| == |e.statements| && forall k :: 0 <= k < |r| ==> r[k] == Item(e.sourceClass, e.statements[k])
  {
    seq(|e.statements|, k requires 0 <= k < |e.statements| => Item(e.sourceClass, e.statements[k]))
  }

  /** The statements of the envelopes whose scope applies, in order. */
  function Items(envelopes: seq<Envelope>, authority: AuthorityEnvelope): seq<Item> {
    if envelopes == [] then []
    else
      var n := |envelopes| - 1;
      Items(envelopes[..n], authority)
      + if ScopeApplies(envelopes[n].scope, authority.path, authority.taskKind) then ItemsOf(envelopes[n]) else []
  }

  // ---------- the analysis ----------

  datatype Analysis = Analysis(repositoryDenies: set<string>, flags: set<Flag>, directives: map<DirectiveKey, string>)

  const NOTHING := Analysis({}, {}, map[])

  function WithDirective(a: Analysis, i: Item): Analysis {
    match i.statement.value
    case None => a
    case Some(value) =>
      var key := (i.source, i.statement.subject, i.statement.action);
      a.(directives := a.directives[key := value],
         flags := if key in a.directives && a.directives[key] != value then a.flags + {Contradiction} else a.flags)
  }

  function Analyzed(a: Analysis, i: Item): Analysis {
    if !Guides(i.source) then a
    else
      match i.statement.kind
      case Constraint => a.(repositoryDenies := a.repositoryDenies + i.statement.capabilities)
      case GrantClaim => a.(flags := a.flags + {InvalidAuthorityClaim})
      case Opaque => if i.statement.capabilities != {} then a.(flags := a.flags + {OpaqueEffect}) else a
      case Procedure | Solicitation => WithDirective(a.(flags := a.flags + {HasAdvice}), i)
      case Fact => a
  }

  function AnalyzeAll(items: seq<Item>): Analysis {
    if items == [] then NOTHING else Analyzed(AnalyzeAll(items[..|items| - 1]), items[|items| - 1])
  }

  class Analyzer {
    var repositoryDenies: set<string>
    var flags: set<Flag>
    var directives: map<DirectiveKey, string>

    constructor ()
      ensures State() == NOTHING
    {
      repositoryDenies, flags, directives := {}, {}, map[];
    }

    ghost function State(): Analysis
      reads this
    {
      Analysis(repositoryDenies, flags, directives)
    }

    /** A directive replaces the one before it; a different value is a contradiction. */
    method DetectDirectiveConflict(source: SourceClass, s: Statement)
      modifies this`flags, this`directives
      ensures State() == WithDirective(old(State()), Item(source, s))
    {
      if s.value.None? {
        return;
      }
      var key := (source, s.subject, s.action);
      var existing := if key in directives then Some(directives[key]) else None;
      directives := directives[key := s.value.value];
      if existing.Some? && existing != s.value {
        flags := flags + {Contradiction};
      }
    }

    method AnalyzeStatement(source: SourceClass, s: Statement)
      modifies this
      ensures State() == Analyzed(old(State()), Item(source, s))
    {
      if source.ReferencedSpecification? || source.UntrustedContent? {
        return;
      }
      match s.kind
      case Constraint => repositoryDenies := repositoryDenies + s.capabilities;
      case GrantClaim => flags := flags + {InvalidAuthorityClaim};
      case Opaque =>
        if s.capabilities != {} {
          flags := flags + {OpaqueEffect};
        }
      case Procedure =>
        flags := flags + {HasAdvice};
        DetectDirectiveConflict(source, s);
      case Solicitation =>
        flags := flags + {HasAdvice};
        DetectDirectiveConflict(source, s);
      case Fact =>
    }

    method AnalyzeEnvelope(e: Envelope, ghost before: seq<Item>)
      requires State() == AnalyzeAll(before)
      modifies this
      ensures State() == AnalyzeAll(before + ItemsOf(e))
    {
      assert before + ItemsOf(e)[..0] == before;
      for k := 0 to |e.statements|
        invariant State() == AnalyzeAll(before + ItemsOf(e)[..k])
      {
        AnalyzeStatement(e.sourceClass, e.statements[k]);
        NextItem(before, ItemsOf(e), k);
      }
      assert ItemsOf(e)[..|e.statements|] == ItemsOf(e);
    }

    method AnalyzeInstructions(envelopes: seq<Envelope>, authority: AuthorityEnvelope)
      requires State() == NOTHING
      modifies this
      ensures State() == AnalyzeAll(Items(envelopes, authority))
    {
      assert envelopes[..0] == [];
      for k := 0 to |envelopes|
        invariant State() == AnalyzeAll(Items(envelopes[..k], authority))
      {
        assert envelopes[..k + 1][..k] == envelopes[..k];
        if ScopeApplies(envelopes[k].scope, authority.path, authority.taskKind) {
          AnalyzeEnvelope(envelopes[k], Items(envelopes[..k], authority));
        } else {
          assert Items(envelopes[..k], authority) + [] == Items(envelopes[..k], authority);
        }
      }
      assert envelopes[..|envelopes|] == envelopes;
    }
  }

  lemma NextItem(before: seq<Item>, items: seq<Item>, k: nat)
    requires k < |items|
    ensures AnalyzeAll(before + items[..k + 1]) == Analyzed(AnalyzeAll(before + items[..k]), items[k])
  {
    var all := before + items[..k + 1];
    assert all[..|all| - 1] == before + items[..k];
  }

  // ---------- the decision ----------

  predicate ExactApproval(authority: AuthorityEnvelope, capability: string) {
    exists i :: 0 <= i < |authority.approvals|
                && authority.approvals[i].nonce != OtherNonce("") && authority.approvals[i].taskId == authority.taskId
                && authority.approvals[i].capabilities == {capability}
  }

  function Decide(q: InstructionRequest, hardDenies: set<string>, effective: set<string>, a: Analysis): Decision {
    if InvalidAuthorityClaim in a.flags || OpaqueEffect in a.flags then Deny
    else if Contradiction in a.flags then Conflict
    else if q.requestedEffects == {} then if HasAdvice in a.flags then Advise else Data
    else
      var missing := q.requestedEffects - effective;
      if missing != {} then
        if missing !! hardDenies + a.repositoryDenies && missing <= q.authority.approvable then Ask else Deny
      else if forall c :: c in q.requestedEffects * q.authority.approvalRequired ==> ExactApproval(q.authority, c) then Allow
      else Ask
  }

  predicate SchemasOk(q: InstructionRequest) {
    && q.schema == REQUEST_SCHEMA && q.authority.schema == AUTHORITY_SCHEMA
    && forall i :: 0 <= i < |q.instructions| ==> q.instructions[i].schema == ENVELOPE_SCHEMA
  }

  /** The parts of the request have digests. */
  predicate RequestEncodes(b: Bounds, q: InstructionRequest) {
    b.authority(q.authority) && forall i :: 0 <= i < |q.instructions| ==> b.envelope(q.instructions[i])
  }

  function Resolve(b: Bounds, q: InstructionRequest): Result<Receipt, InstructionError> {
    if !SchemasOk(q) then Err(UnsupportedSchema)
    else if !RequestEncodes(b, q) then Err(Unencodable)
    else if q.authority.roots == [] then Err(NoAuthorityRoots)
    else if !b.receipt(q) then Err(Unencodable)
    else
      var denies := Denies(q.authority.roots);
      var ceiling := Grants(q.authority.roots) - denies;
      var a := AnalyzeAll(Items(q.instructions, q.authority));
      var effective := ceiling - a.repositoryDenies;
      Ok(Receipt(ceiling, a.repositoryDenies, effective, Decide(q, denies, effective, a)))
  }

  method ResolveInstructions(b: Bounds, q: InstructionRequest) returns (r: Result<Receipt, InstructionError>)
    ensures r == Resolve(b, q)
  {
    if !SchemasOk(q) {
      return Err(UnsupportedSchema);
    }
    if !RequestEncodes(b, q) {
      return Err(Unencodable);
    }
    var external := ExternalCeiling(q.authority);
    if external.Err? {
      return Err(external.error);
    }
    var (grants, denies) := external.value;
    var ceiling := grants - denies;
    var analyzer := new Analyzer();
    analyzer.AnalyzeInstructions(q.instructions, q.authority);
    var effective := ceiling - analyzer.repositoryDenies;
    var a := Analysis(analyzer.repositoryDenies, analyzer.flags, analyzer.directives);
    if !b.receipt(q) {
      return Err(Unencodable);
    }
    return Ok(Receipt(ceiling, analyzer.repositoryDenies, effective, Decide(q, denies, effective, a)));
  }
}
