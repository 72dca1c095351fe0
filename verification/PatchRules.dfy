// What a patch asks of the graph it is applied to, and what the patched graph holds under
// each key, written out without the stages and the search that apply it.
module PatchRules {
  import opened Prelude
  import opened Tokens
  import opened Patches
  import opened PatchOrder

  /** Keys have 1 to 1024 bytes, none of which is zero. */
  predicate KeyRule(key: string) {
    key != "" && Utf8Length(key) <= 1024 && forall i :: 0 <= i < |key| ==> key[i] as int != 0
  }

  /** The root of a graph lists one leaf for every node, and all of them have digests. */
  ghost predicate GraphRule(b: Bounds, g: GraphBundle) {
    && g.schema == "joan.test-graph.v0"
    && (forall k :: k in g.nodes ==> KeyRule(k) && b.leaf(k, g.nodes[k]))
    && b.leaves(g.root.leaves)
    && (forall k :: k in g.root.leaves <==> k in g.nodes)
    && forall k :: k in g.nodes ==> g.root.leaves[k] == OfLeaf(k, g.nodes[k])
  }

  /** An insertion finds no node; a replacement and a removal find the node they expect. */
  predicate OperationRule(b: Bounds, nodes: map<string, string>, op: Operation) {
    match op
    case Insert(key, value) => key !in nodes && b.leaf(key, value)
    case Replace(key, expected, value) => key in nodes && b.node(nodes[key]) && expected.content == nodes[key] && b.leaf(key, value)
    case Remove(key, expected) => key in nodes && b.node(nodes[key]) && expected.content == nodes[key]
  }

  /** The patch is for this graph, touches no key twice, and all its operations fit the graph as it is. */
  ghost predicate PatchRule(b: Bounds, g: GraphBundle, p: SemanticPatch) {
    && GraphRule(b, g)
    && p.schema == "joan.semantic-patch.v0" && p.baseRoot == g.root && p.operations != [] && b.operations(p.operations)
    && (forall i, j :: 0 <= i < j < |p.operations| ==> p.operations[i].key != p.operations[j].key)
    && forall i :: 0 <= i < |p.operations| ==> KeyRule(p.operations[i].key) && OperationRule(b, g.nodes, p.operations[i])
  }

  /** What an operation leaves under its own key. */
  predicate Leaves(op: Operation, after: map<string, string>) {
    match op
    case Insert(key, value) => key in after && after[key] == value
    case Replace(key, _, value) => key in after && after[key] == value
    case Remove(key, _) => key !in after
  }

  /** Every operation has done its work, and every key it does not name is as before. */
  ghost predicate PatchedTo(ops: seq<Operation>, before: map<string, string>, after: map<string, string>) {
    && (forall i :: 0 <= i < |ops| ==> Leaves(ops[i], after))
    && forall k :: (forall i :: 0 <= i < |ops| ==> ops[i].key != k) ==>
         (k in after <==> k in before) && (k in before ==> after[k] == before[k])
  }

  ghost predicate ReceiptRule(g: GraphBundle, p: SemanticPatch, h: GraphBundle, r: PatchReceipt) {
    && r.baseRoot == g.root && r.newRoot == h.root && r.fullRoot == h.root && r.incrementalRoot == h.root
    && forall k :: k in r.affected <==> exists i :: 0 <= i < |p.operations| && p.operations[i].key == k
  }

  // ---------- the rules and the model ----------

  lemma KeysAgree(key: string)
    ensures ValidKey(key) <==> KeyRule(key)
  {
    if ValidKey(key) {
      forall i | 0 <= i < |key| ensures key[i] as int != 0 {
        assert key[i] in key;
      }
    }
  }

  lemma RootIsLeafMap(nodes: map<string, string>, root: Root)
    ensures root == FullRoot(nodes) <==>
            (forall k :: k in root.leaves <==> k in nodes) && forall k :: k in nodes ==> k in root.leaves && root.leaves[k] == OfLeaf(k, nodes[k])
  {
    var full := LeafMap(nodes);
    if (forall k :: k in root.leaves <==> k in nodes) && forall k :: k in nodes ==> root.leaves[k] == OfLeaf(k, nodes[k]) {
      assert root.leaves.Keys == full.Keys;
      assert root.leaves == full;
    }
  }

  lemma GraphsAgree(b: Bounds, g: GraphBundle)
    ensures GraphError(b, g).None? <==> GraphRule(b, g)
  {
    RootIsLeafMap(g.nodes, g.root);
    forall k ensures ValidKey(k) <==> KeyRule(k) {
      KeysAgree(k);
    }
    hide ValidKey, KeyRule;
  }

  lemma OperationsAgree(b: Bounds, nodes: map<string, string>, op: Operation)
    ensures OperationError(b, nodes, op).None? <==> OperationRule(b, nodes, op)
  {
  }

  lemma TargetsAgree(ops: seq<Operation>)
    ensures TargetError(ops, {}).None? <==>
            DistinctTargets(ops) && forall i :: 0 <= i < |ops| ==> KeyRule(ops[i].key)
  {
    TargetErrorMeans(ops, {});
    forall i | 0 <= i < |ops| ensures ValidKey(ops[i].key) <==> KeyRule(ops[i].key) {
      KeysAgree(ops[i].key);
    }
    hide ValidKey, KeyRule;
  }

  lemma AllOperationsAgree(b: Bounds, nodes: map<string, string>, ops: seq<Operation>)
    requires DistinctTargets(ops)
    ensures ApplyAll(b, nodes, ops).Ok? <==> forall i :: 0 <= i < |ops| ==> OperationRule(b, nodes, ops[i])
  {
    PatchFits(b, nodes, ops);
    forall i | 0 <= i < |ops| ensures OperationError(b, nodes, ops[i]).None? <==> OperationRule(b, nodes, ops[i]) {
      OperationsAgree(b, nodes, ops[i]);
    }
    hide OperationError, OperationRule, ApplyAll;
  }

  lemma LeavesOutcome(op: Operation, after: map<string, string>)
    ensures Leaves(op, after) <==> At(after, op.key) == Outcome(op)
  {
  }

  lemma StagedIsPatched(b: Bounds, nodes: map<string, string>, ops: seq<Operation>)
    requires DistinctTargets(ops) && ApplyAll(b, nodes, ops).Ok?
    ensures PatchedTo(ops, nodes, ApplyAll(b, nodes, ops).value)
  {
    hide ApplyAll;
    var after := ApplyAll(b, nodes, ops).value;
    forall i | 0 <= i < |ops| ensures Leaves(ops[i], after) {
      StagedAt(b, nodes, ops, ops[i].key);
      LeavesOutcome(ops[i], after);
    }
    forall k | forall i :: 0 <= i < |ops| ==> ops[i].key != k
      ensures (k in after <==> k in nodes) && (k in nodes ==> after[k] == nodes[k])
    {
      StagedAt(b, nodes, ops, k);
      assert At(after, k) == At(nodes, k);
    }
  }

  /** There is only one outcome. */
  lemma PatchedIsUnique(ops: seq<Operation>, before: map<string, string>, x: map<string, string>, y: map<string, string>)
    requires PatchedTo(ops, before, x) && PatchedTo(ops, before, y)
    ensures x == y
  {
    forall k ensures At(x, k) == At(y, k) {
      if i :| 0 <= i < |ops| && ops[i].key == k {
        LeavesOutcome(ops[i], x);
        LeavesOutcome(ops[i], y);
      }
    }
    SameNodes(x, y);
  }

  lemma TargetsMean(ops: seq<Operation>, k: string)
    ensures k in Targets(ops) <==> exists i :: 0 <= i < |ops| && ops[i].key == k
  {
    if i :| 0 <= i < |ops| && ops[i].key == k {
      assert ops[i] in ops;
    }
  }

  lemma ReceiptIsUnique(g: GraphBundle, p: SemanticPatch, h: GraphBundle, r: PatchReceipt)
    ensures ReceiptRule(g, p, h, r) <==> r == PatchReceipt(g.root, h.root, Targets(p.operations), h.root, h.root)
  {
    forall k ensures k in Targets(p.operations) <==> exists i :: 0 <= i < |p.operations| && p.operations[i].key == k {
      TargetsMean(p.operations, k);
    }
    if ReceiptRule(g, p, h, r) {
      assert r.affected == Targets(p.operations);
    }
  }

  lemma RefusalAgrees(b: Bounds, g: GraphBundle, p: SemanticPatch)
    ensures PatchRefusal(b, g, p).None? && ApplyAll(b, g.nodes, p.operations).Ok? && b.operations(p.operations) <==> PatchRule(b, g, p)
  {
    hide GraphError, GraphRule, TargetError, ApplyAll, OperationRule, KeyRule;
    GraphsAgree(b, g);
    TargetsAgree(p.operations);
    if DistinctTargets(p.operations) {
      AllOperationsAgree(b, g.nodes, p.operations);
    }
  }

  lemma PatchedGraphsAgree(b: Bounds, g: GraphBundle, p: SemanticPatch, h: GraphBundle)
    requires PatchRule(b, g, p) && ApplyAll(b, g.nodes, p.operations).Ok? && PatchRefusal(b, g, p).None?
    ensures var nodes := ApplyAll(b, g.nodes, p.operations).value;
            GraphRule(b, h) && PatchedTo(p.operations, g.nodes, h.nodes) <==>
            RootExists(b, nodes) && h == GraphBundle(g.schema, nodes, FullRoot(nodes))
  {
    hide ApplyAll, TargetError, OperationRule;
    var nodes := ApplyAll(b, g.nodes, p.operations).value;
    TargetsAgree(p.operations);
    StagedIsPatched(b, g.nodes, p.operations);
    PatchedKeysAreValid(b, g, p.operations);
    GraphsAgree(b, h);
    hide GraphRule, ValidKey, KeyRule;
    if PatchedTo(p.operations, g.nodes, h.nodes) {
      PatchedIsUnique(p.operations, g.nodes, h.nodes, nodes);
    }
    GraphsAgree(b, g);
  }

  /**
   * Patches without stages: a patch takes a graph to another one, with a receipt, exactly if the patch is for
   * this graph, no two operations share a key, each fits the graph as it is, the other graph holds what the
   * operations leave and everything else unchanged, its root is the list of its leaves, and everything that
   * is digested has a digest. The receipt carries both roots and exactly the keys of the operations.
   */
  lemma PatchMeans(b: Bounds, g: GraphBundle, p: SemanticPatch, h: GraphBundle, r: PatchReceipt)
    ensures Apply(b, g, p) == Ok((h, r)) <==>
            && PatchRule(b, g, p) && GraphRule(b, h)
            && PatchedTo(p.operations, g.nodes, h.nodes) && ReceiptRule(g, p, h, r)
  {
    hide ApplyAll, PatchRefusal, GraphRule, PatchRule, PatchedTo, ReceiptRule, RootExists;
    RefusalAgrees(b, g, p);
    if PatchRule(b, g, p) {
      PatchedGraphsAgree(b, g, p, h);
      ReceiptIsUnique(g, p, h, r);
    }
  }
}
