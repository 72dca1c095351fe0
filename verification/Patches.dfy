// Semantic patches (crates/joan-patch/src/lib.rs): operations with exact preconditions on
// a graph of keyed nodes, whose root is kept up to date leaf by leaf. A node is given by
// its canonical form; digests are symbolic, and the ordered list of leaf digests under a
// root is given as a map, since every leaf digest covers its key.
module Patches {
  import opened Prelude
  import opened Tokens

  datatype NodeDigest = OfNode(content: string)

  datatype LeafDigest = OfLeaf(key: string, content: string)

  datatype Root = OfLeaves(leaves: map<string, LeafDigest>)

  datatype GraphBundle = GraphBundle(schema: string, nodes: map<string, string>, root: Root)

  datatype Operation =
    | Insert(key: string, value: string)
    | Replace(key: string, expected: NodeDigest, value: string)
    | Remove(key: string, expected: NodeDigest)

  datatype SemanticPatch = SemanticPatch(schema: string, baseRoot: Root, operations: seq<Operation>)

  datatype PatchReceipt = PatchReceipt(baseRoot: Root, newRoot: Root, affected: set<string>, fullRoot: Root, incrementalRoot: Root)

  datatype PatchError =
    | UnsupportedSchema
    | InvalidGraphRoot
    | StaleBase
    | EmptyPatch
    | DuplicateTarget(key: string)
    | InvalidKey
    | AlreadyExists(key: string)
    | MissingTarget(key: string)
    | ExpectedDigestMismatch(key: string)
    | RecomputeDisagreement
    | Unencodable

  /** Which nodes, leaves, lists of leaves and lists of operations can be encoded, and so have a digest. */
  datatype Bounds = Bounds(
    node: string -> bool, leaf: (string, string) -> bool, leaves: map<string, LeafDigest> -> bool, operations: seq<Operation> -> bool)

  const GRAPH_SCHEMA := "joan.test-graph.v0"
  const PATCH_SCHEMA := "joan.semantic-patch.v0"
  const MAX_KEY_BYTES: nat := 1024

  predicate ValidKey(key: string) {
    key != "" && Utf8Length(key) <= MAX_KEY_BYTES && (0 as char) !in key
  }

  function LeafMap(nodes: map<string, string>): map<string, LeafDigest> {
    map k | k in nodes :: OfLeaf(k, nodes[k])
  }

  function FullRoot(nodes: map<string, string>): Root {
    OfLeaves(LeafMap(nodes))
  }

  /** Every leaf has a digest, and so has their list. */
  predicate RootExists(b: Bounds, nodes: map<string, string>) {
    (forall k :: k in nodes ==> b.leaf(k, nodes[k])) && b.leaves(LeafMap(nodes))
  }

  function GraphError(b: Bounds, g: GraphBundle): Option<PatchError> {
    if g.schema != GRAPH_SCHEMA then Some(UnsupportedSchema)
    else if exists k :: k in g.nodes && !ValidKey(k) then Some(InvalidKey)
    else if !RootExists(b, g.nodes) then Some(Unencodable)
    else if FullRoot(g.nodes) != g.root then Some(InvalidGraphRoot)
    else None
  }

  // ---------- operations ----------

  /** Why an operation does not apply to the nodes. */
  function OperationError(b: Bounds, nodes: map<string, string>, op: Operation): Option<PatchError> {
    match op
    case Insert(key, value) =>
      if key in nodes then Some(AlreadyExists(key)) else if !b.leaf(key, value) then Some(Unencodable) else None
    case Replace(key, expected, value) =>
      if key !in nodes then Some(MissingTarget(key))
      else if !b.node(nodes[key]) then Some(Unencodable)
      else if OfNode(nodes[key]) != expected then Some(ExpectedDigestMismatch(key))
      else if !b.leaf(key, value) then Some(Unencodable)
      else None
    case Remove(key, expected) =>
      if key !in nodes then Some(MissingTarget(key))
      else if !b.node(nodes[key]) then Some(Unencodable)
      else if OfNode(nodes[key]) != expected then Some(ExpectedDigestMismatch(key))
      else None
  }

  function Changed(nodes: map<string, string>, op: Operation): map<string, string> {
    match op
    case Insert(key, value) => nodes[key := value]
    case Replace(key, _, value) => nodes[key := value]
    case Remove(key, _) => nodes - {key}
  }

  function ApplyAll(b: Bounds, nodes: map<string, string>, ops: seq<Operation>): Result<map<string, string>, PatchError> {
    if ops == [] then Ok(nodes)
    else
      match ApplyAll(b, nodes, ops[..|ops| - 1])
      case Err(e) => Err(e)
      case Ok(staged) =>
        var last := ops[|ops| - 1];
        match OperationError(b, staged, last)
        case Some(e) => Err(e)
        case None => Ok(Changed(staged, last))
  }

  function Targets(ops: seq<Operation>): set<string> {
    set op | op in ops :: op.key
  }

  /** The first target that is not a valid key or has been targeted before. */
  function TargetError(ops: seq<Operation>, seen: set<string>): Option<PatchError> {
    if ops == [] then None
    else if !ValidKey(ops[0].key) then Some(InvalidKey)
    else if ops[0].key in seen then Some(DuplicateTarget(ops[0].key))
    else TargetError(ops[1..], seen + {ops[0].key})
  }

  function PatchRefusal(b: Bounds, g: GraphBundle, p: SemanticPatch): Option<PatchError> {
    if GraphError(b, g).Some? then GraphError(b, g)
    else if p.schema != PATCH_SCHEMA then Some(UnsupportedSchema)
    else if p.baseRoot != g.root then Some(StaleBase)
    else if p.operations == [] then Some(EmptyPatch)
    else TargetError(p.operations, {})
  }

  /** The patched graph and its receipt. There is no way for the two roots to disagree. */
  function Apply(b: Bounds, g: GraphBundle, p: SemanticPatch): Result<(GraphBundle, PatchReceipt), PatchError> {
    match PatchRefusal(b, g, p)
    case Some(e) => Err(e)
    case None =>
      match ApplyAll(b, g.nodes, p.operations)
      case Err(e) => Err(e)
      case Ok(nodes) =>
        if !RootExists(b, nodes) || !b.operations(p.operations) then Err(Unencodable)
        else
          var root := FullRoot(nodes);
          Ok((GraphBundle(g.schema, nodes, root), PatchReceipt(g.root, root, Targets(p.operations), root, root)))
  }

  // ---------- staging ----------

  // Nodes and leaf digests of a graph that is being patched.
  class Staging {
    var nodes: map<string, string>
    var leaves: map<string, LeafDigest>

    constructor (nodes: map<string, string>)
      ensures this.nodes == nodes && leaves == LeafMap(nodes)
    {
      this.nodes, leaves := nodes, LeafMap(nodes);
    }

    /** One operation on nodes and leaves; unless it fails, the leaves are again those of the nodes. */
    method ApplyOperation(b: Bounds, op: Operation) returns (e: Option<PatchError>)
      requires leaves == LeafMap(nodes)
      modifies this
      ensures e == OperationError(b, old(nodes), op)
      ensures e.None? ==> nodes == Changed(old(nodes), op) && leaves == LeafMap(nodes)
    {
      match op
      case Insert(key, value) =>
        if key in nodes {
          return Some(AlreadyExists(key));
        }
        nodes := nodes[key := value];
        if !b.leaf(key, value) {
          return Some(Unencodable);
        }
        leaves := leaves[key := OfLeaf(key, value)];
        e := None;
      case Replace(key, expected, value) =>
        if key !in nodes {
          return Some(MissingTarget(key));
        }
        if !b.node(nodes[key]) {
          return Some(Unencodable);
        }
        if OfNode(nodes[key]) != expected {
          return Some(ExpectedDigestMismatch(key));
        }
        nodes := nodes[key := value];
        if !b.leaf(key, value) {
          return Some(Unencodable);
        }
        leaves := leaves[key := OfLeaf(key, value)];
        e := None;
      case Remove(key, expected) =>
        if key !in nodes {
          return Some(MissingTarget(key));
        }
        if !b.node(nodes[key]) {
          return Some(Unencodable);
        }
        if OfNode(nodes[key]) != expected {
          return Some(ExpectedDigestMismatch(key));
        }
        nodes := nodes - {key};
        leaves := leaves - {key};
        e := None;
    }
  }

  method CollectTargets(ops: seq<Operation>) returns (r: Result<set<string>, PatchError>)
    ensures r == match TargetError(ops, {})
                 case Some(e) => Err(e)
                 case None => Ok(Targets(ops))
  {
    var targets: set<string> := {};
    assert ops[0..] == ops;
    for k := 0 to |ops|
      invariant targets == Targets(ops[..k])
      invariant TargetError(ops[k..], targets) == TargetError(ops, {})
    {
      assert ops[k..][0] == ops[k] && ops[k..][1..] == ops[k + 1..];
      assert ops[..k + 1] == ops[..k] + [ops[k]];
      if !ValidKey(ops[k].key) {
        return Err(InvalidKey);
      }
      if ops[k].key in targets {
        return Err(DuplicateTarget(ops[k].key));
      }
      targets := targets + {ops[k].key};
    }
    assert ops[..|ops|] == ops;
    return Ok(targets);
  }

  method ApplyPatch(b: Bounds, g: GraphBundle, p: SemanticPatch) returns (r: Result<(GraphBundle, PatchReceipt), PatchError>)
    ensures r == Apply(b, g, p)
    ensures r != Err(RecomputeDisagreement)
  {
    var invalid := GraphError(b, g);
    if invalid.Some? {
      return Err(invalid.value);
    }
    if p.schema != PATCH_SCHEMA {
      return Err(UnsupportedSchema);
    }
    if p.baseRoot != g.root {
      return Err(StaleBase);
    }
    if p.operations == [] {
      return Err(EmptyPatch);
    }
    var targets := CollectTargets(p.operations);
    TargetErrorsAreTargets(p.operations, {});
    if targets.Err? {
      return Err(targets.error);
    }
    var staging := new Staging(g.nodes);
    var ops := p.operations;
    for k := 0 to |ops|
      invariant ApplyAll(b, g.nodes, ops[..k]) == Ok(staging.nodes)
      invariant staging.leaves == LeafMap(staging.nodes)
    {
      assert ops[..k + 1][..k] == ops[..k];
      var e := staging.ApplyOperation(b, ops[k]);
      if e.Some? {
        RefusalStands(b, g.nodes, ops, k);
        return Err(e.value);
      }
    }
    assert ops[..|ops|] == ops;
    if !RootExists(b, staging.nodes) {
      return Err(Unencodable);
    }
    var fullRoot, incrementalRoot := FullRoot(staging.nodes), OfLeaves(staging.leaves);
    if fullRoot != incrementalRoot {
      return Err(RecomputeDisagreement);
    }
    if !b.operations(p.operations) {
      return Err(Unencodable);
    }
    return Ok((GraphBundle(g.schema, staging.nodes, fullRoot),
               PatchReceipt(g.root, fullRoot, targets.value, fullRoot, incrementalRoot)));
  }

  lemma {:induction false} TargetErrorsAreTargets(ops: seq<Operation>, seen: set<string>)
    ensures TargetError(ops, seen) != Some(RecomputeDisagreement)
  {
    if ops != [] {
      TargetErrorsAreTargets(ops[1..], seen + {ops[0].key});
    }
  }

  /** The first operation that is refused decides the outcome. */
  lemma {:induction false} RefusalStands(b: Bounds, nodes: map<string, string>, ops: seq<Operation>, k: nat)
    requires k < |ops| && ApplyAll(b, nodes, ops[..k]).Ok?
    requires OperationError(b, ApplyAll(b, nodes, ops[..k]).value, ops[k]).Some?
    ensures ApplyAll(b, nodes, ops) == Err(OperationError(b, ApplyAll(b, nodes, ops[..k]).value, ops[k]).value)
    decreases |ops|
  {
    var n := |ops| - 1;
    if k < n {
      assert ops[..n][..k] == ops[..k];
      RefusalStands(b, nodes, ops[..n], k);
    }
  }
}
