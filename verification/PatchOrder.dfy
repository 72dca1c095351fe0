// What a patch does, independently of the order of its operations, and how it is undone.
module PatchOrder {
  import opened Prelude
  import opened Patches
  import opened Normalization

  /** No two operations have the same target. */
  predicate DistinctTargets(ops: seq<Operation>) {
    forall i, j :: 0 <= i < j < |ops| ==> ops[i].key != ops[j].key
  }

  predicate FreshTargets(ops: seq<Operation>, seen: set<string>) {
    forall i :: 0 <= i < |ops| ==> ValidKey(ops[i].key) && ops[i].key !in seen
  }

  lemma FirstTarget(first: Operation, rest: seq<Operation>, seen: set<string>)
    requires FreshTargets([first] + rest, seen) && DistinctTargets([first] + rest)
    ensures ValidKey(first.key) && first.key !in seen
    ensures FreshTargets(rest, seen + {first.key}) && DistinctTargets(rest)
  {
    var ops := [first] + rest;
    assert ops[0] == first;
    assert forall i :: 0 <= i < |rest| ==> rest[i] == ops[i + 1];
  }

  lemma OneMoreTarget(first: Operation, rest: seq<Operation>, seen: set<string>)
    requires ValidKey(first.key) && first.key !in seen
    requires FreshTargets(rest, seen + {first.key}) && DistinctTargets(rest)
    ensures FreshTargets([first] + rest, seen) && DistinctTargets([first] + rest)
  {
    var ops := [first] + rest;
    assert forall i :: 0 < i < |ops| ==> ops[i] == rest[i - 1];
  }

  lemma {:induction false} TargetErrorMeans(ops: seq<Operation>, seen: set<string>)
    ensures TargetError(ops, seen).None? <==> FreshTargets(ops, seen) && DistinctTargets(ops)
    decreases |ops|
  {
    if ops != [] {
      var first, rest := ops[0], ops[1..];
      assert ops == [first] + rest;
      TargetErrorMeans(rest, seen + {first.key});
      if FreshTargets(ops, seen) && DistinctTargets(ops) {
        FirstTarget(first, rest, seen);
      }
      if TargetError(ops, seen).None? {
        OneMoreTarget(first, rest, seen);
      }
    }
  }

  /** What is found under a key, if anything. */
  function At(nodes: map<string, string>, key: string): Option<string> {
    if key in nodes then Some(nodes[key]) else None
  }

  /** What an operation leaves under its own target. */
  function Outcome(op: Operation): Option<string> {
    match op
    case Insert(_, value) => Some(value)
    case Replace(_, _, value) => Some(value)
    case Remove(_, _) => None
  }

  lemma ChangesOneKey(nodes: map<string, string>, op: Operation, key: string)
    ensures At(Changed(nodes, op), key) == if key == op.key then Outcome(op) else At(nodes, key)
  {
  }

  lemma FitsByTarget(b: Bounds, x: map<string, string>, y: map<string, string>, op: Operation)
    requires At(x, op.key) == At(y, op.key)
    ensures OperationError(b, x, op) == OperationError(b, y, op)
  {
  }

  /** Untargeted keys stay as they are, and a targeted one holds what its operation leaves. */
  lemma {:induction false} StagedAt(b: Bounds, nodes: map<string, string>, ops: seq<Operation>, key: string)
    requires DistinctTargets(ops) && ApplyAll(b, nodes, ops).Ok?
    ensures key !in Targets(ops) ==> At(ApplyAll(b, nodes, ops).value, key) == At(nodes, key)
    ensures forall i :: 0 <= i < |ops| && ops[i].key == key ==> At(ApplyAll(b, nodes, ops).value, key) == Outcome(ops[i])
    decreases |ops|
  {
    if ops != [] {
      var n := |ops| - 1;
      var front, last := ops[..n], ops[n];
      assert ops == front + [last];
      StagedAt(b, nodes, front, key);
      ChangesOneKey(ApplyAll(b, nodes, front).value, last, key);
      assert key in Targets(front) ==> key in Targets(ops);
    }
  }

  /**
   * A patch with distinct targets succeeds exactly if every one of its operations fits the graph as it was
   * before the patch, no matter what the other operations do.
   */
  lemma {:induction false} PatchFits(b: Bounds, nodes: map<string, string>, ops: seq<Operation>)
    requires DistinctTargets(ops)
    ensures ApplyAll(b, nodes, ops).Ok? <==> forall i :: 0 <= i < |ops| ==> OperationError(b, nodes, ops[i]).None?
    decreases |ops|
  {
    if ops != [] {
      var n := |ops| - 1;
      var front, last := ops[..n], ops[n];
      PatchFits(b, nodes, front);
      if ApplyAll(b, nodes, front).Ok? {
        LastIsUntouched(ops);
        StagedAt(b, nodes, front, last.key);
        FitsByTarget(b, nodes, ApplyAll(b, nodes, front).value, last);
      }
      assert forall i :: 0 <= i < n ==> front[i] == ops[i];
    }
  }

  lemma LastIsUntouched(ops: seq<Operation>)
    requires DistinctTargets(ops) && ops != []
    ensures DistinctTargets(ops[..|ops| - 1]) && ops[|ops| - 1].key !in Targets(ops[..|ops| - 1])
  {
  }

  lemma SameNodes(a: map<string, string>, b: map<string, string>)
    requires forall key :: At(a, key) == At(b, key)
    ensures a == b
  {
    forall key ensures key in a <==> key in b {
      assert At(a, key) == At(b, key);
    }
    forall key | key in a ensures a[key] == b[key] {
      assert At(a, key) == At(b, key);
    }
  }

  lemma SameTargets(ops: seq<Operation>, shuffled: seq<Operation>)
    requires forall op :: op in ops <==> op in shuffled
    ensures Targets(ops) == Targets(shuffled)
  {
    forall op | op in ops ensures op.key in Targets(shuffled) {
      assert op in shuffled;
    }
    forall op | op in shuffled ensures op.key in Targets(ops) {
      assert op in ops;
    }
  }

  /** The nodes after a patch are determined by the nodes before it and the operations, in whatever order. */
  lemma OperationOrderDoesNotMatter(b: Bounds, nodes: map<string, string>, ops: seq<Operation>, shuffled: seq<Operation>)
    requires DistinctTargets(ops) && DistinctTargets(shuffled) && forall op :: op in ops <==> op in shuffled
    ensures ApplyAll(b, nodes, ops).Ok? <==> ApplyAll(b, nodes, shuffled).Ok?
    ensures ApplyAll(b, nodes, ops).Ok? ==> ApplyAll(b, nodes, ops) == ApplyAll(b, nodes, shuffled)
  {
    PatchFits(b, nodes, ops);
    PatchFits(b, nodes, shuffled);
    assert (forall op :: op in ops ==> OperationError(b, nodes, op).None?) <==>
           (forall i :: 0 <= i < |ops| ==> OperationError(b, nodes, ops[i]).None?);
    assert (forall op :: op in shuffled ==> OperationError(b, nodes, op).None?) <==>
           (forall i :: 0 <= i < |shuffled| ==> OperationError(b, nodes, shuffled[i]).None?);
    SameTargets(ops, shuffled);
    if ApplyAll(b, nodes, ops).Ok? {
      forall key ensures At(ApplyAll(b, nodes, ops).value, key) == At(ApplyAll(b, nodes, shuffled).value, key) {
        StagedAt(b, nodes, ops, key);
        StagedAt(b, nodes, shuffled, key);
        if key in Targets(ops) {
          var i :| 0 <= i < |ops| && ops[i].key == key;
          assert ops[i] in shuffled;
          var j :| 0 <= j < |shuffled| && shuffled[j] == ops[i];
        }
      }
      SameNodes(ApplyAll(b, nodes, ops).value, ApplyAll(b, nodes, shuffled).value);
    }
  }

  /**
   * Patches as a whole: permuting the operations of a patch changes neither whether it is accepted nor the
   * graph it produces, as long as both lists have a digest, and a produced graph verifies, so that its two
   * roots never disagree.
   */
  lemma PatchOrderDoesNotMatter(b: Bounds, g: GraphBundle, p: SemanticPatch, shuffled: seq<Operation>)
    requires multiset(p.operations) == multiset(shuffled) && b.operations(p.operations) == b.operations(shuffled)
    ensures var q := p.(operations := shuffled);
            && (Apply(b, g, p).Ok? <==> Apply(b, g, q).Ok?)
            && (Apply(b, g, p).Ok? ==> Apply(b, g, p) == Apply(b, g, q) && GraphError(b, Apply(b, g, p).value.0).None?)
  {
    var q := p.(operations := shuffled);
    ShuffledTargets(p.operations, shuffled);
    ShuffledTargets(shuffled, p.operations);
    TargetErrorMeans(p.operations, {});
    TargetErrorMeans(shuffled, {});
    hide TargetError, ApplyAll;
    if PatchRefusal(b, g, p).None? {
      OperationOrderDoesNotMatter(b, g.nodes, p.operations, shuffled);
      assert Targets(p.operations) == Targets(shuffled);
      if ApplyAll(b, g.nodes, p.operations).Ok? {
        PatchedKeysAreValid(b, g, p.operations);
      }
    }
  }

  lemma PatchedKeysAreValid(b: Bounds, g: GraphBundle, ops: seq<Operation>)
    requires GraphError(b, g).None? && TargetError(ops, {}).None? && ApplyAll(b, g.nodes, ops).Ok?
    ensures forall k :: k in ApplyAll(b, g.nodes, ops).value ==> ValidKey(k)
  {
    TargetErrorMeans(ops, {});
    forall k | k in ApplyAll(b, g.nodes, ops).value ensures ValidKey(k) {
      StagedAt(b, g.nodes, ops, k);
      if k in Targets(ops) {
        var i :| 0 <= i < |ops| && ops[i].key == k;
      }
    }
  }

  function TargetOf(op: Operation): string {
    op.key
  }

  lemma ShuffledTargets(ops: seq<Operation>, shuffled: seq<Operation>)
    requires multiset(ops) == multiset(shuffled)
    ensures |ops| == |shuffled| && forall op :: op in ops ==> op in shuffled
    ensures DistinctTargets(ops) ==> DistinctTargets(shuffled)
    ensures (forall i :: 0 <= i < |ops| ==> ValidKey(ops[i].key)) ==> forall i :: 0 <= i < |shuffled| ==> ValidKey(shuffled[i].key)
  {
    PermutedMembers(ops, shuffled);
    if DistinctTargets(ops) {
      PermutedKeys(TargetOf, ops, shuffled);
      assert forall i :: 0 <= i < |shuffled| ==> TargetOf(shuffled[i]) == shuffled[i].key;
    }
    if forall i :: 0 <= i < |ops| ==> ValidKey(ops[i].key) {
      forall i | 0 <= i < |shuffled| ensures ValidKey(shuffled[i].key) {
        assert shuffled[i] in ops;
      }
    }
  }

  // ---------- undoing a patch ----------

  /** The operation that takes back another one, given the nodes before it. */
  function Undo(nodes: map<string, string>, op: Operation): Operation {
    match op
    case Insert(key, value) => Remove(key, OfNode(value))
    case Replace(key, _, value) => Replace(key, OfNode(value), if key in nodes then nodes[key] else "")
    case Remove(key, _) => Insert(key, if key in nodes then nodes[key] else "")
  }

  function UndoAll(nodes: map<string, string>, ops: seq<Operation>): (r: seq<Operation>)
    ensures |r| == |ops| && forall i :: 0 <= i < |r| ==> r[i] == Undo(nodes, ops[i])
  {
    seq(|ops|, i requires 0 <= i < |ops| => Undo(nodes, ops[i]))
  }

  /** What a leaf contains can be encoded where the leaf can. */
  ghost predicate Contained(b: Bounds) {
    forall key, node :: b.leaf(key, node) ==> b.node(node)
  }

  lemma UndoFits(b: Bounds, nodes: map<string, string>, after: map<string, string>, op: Operation)
    requires OperationError(b, nodes, op).None? && At(after, op.key) == Outcome(op) && Contained(b)
    requires op.key in nodes ==> b.leaf(op.key, nodes[op.key])
    ensures OperationError(b, after, Undo(nodes, op)).None? && Outcome(Undo(nodes, op)) == At(nodes, op.key)
  {
  }

  lemma UndoneTargets(nodes: map<string, string>, ops: seq<Operation>)
    ensures Targets(UndoAll(nodes, ops)) == Targets(ops)
    ensures DistinctTargets(ops) ==> DistinctTargets(UndoAll(nodes, ops))
  {
    var back := UndoAll(nodes, ops);
    assert forall i :: 0 <= i < |ops| ==> back[i].key == ops[i].key;
    forall i | 0 <= i < |ops| ensures ops[i].key in Targets(back) && back[i].key in Targets(ops) {
      assert back[i] in back && ops[i] in ops;
    }
  }

  lemma UndoSucceeds(b: Bounds, nodes: map<string, string>, ops: seq<Operation>)
    requires DistinctTargets(ops) && ApplyAll(b, nodes, ops).Ok? && Contained(b) && RootExists(b, nodes)
    ensures ApplyAll(b, ApplyAll(b, nodes, ops).value, UndoAll(nodes, ops)).Ok?
    ensures forall i :: 0 <= i < |ops| ==> Outcome(Undo(nodes, ops[i])) == At(nodes, ops[i].key)
  {
    var after, back := ApplyAll(b, nodes, ops).value, UndoAll(nodes, ops);
    PatchFits(b, nodes, ops);
    forall i | 0 <= i < |ops| ensures OperationError(b, after, back[i]).None? && Outcome(back[i]) == At(nodes, ops[i].key) {
      StagedAt(b, nodes, ops, ops[i].key);
      UndoFits(b, nodes, after, ops[i]);
    }
    UndoneTargets(nodes, ops);
    PatchFits(b, after, back);
  }

  lemma UndoneAt(b: Bounds, nodes: map<string, string>, ops: seq<Operation>, key: string)
    requires DistinctTargets(ops) && ApplyAll(b, nodes, ops).Ok? && Contained(b) && RootExists(b, nodes)
    requires ApplyAll(b, ApplyAll(b, nodes, ops).value, UndoAll(nodes, ops)).Ok?
    ensures At(ApplyAll(b, ApplyAll(b, nodes, ops).value, UndoAll(nodes, ops)).value, key) == At(nodes, key)
  {
    hide ApplyAll, OperationError, RootExists;
    var after, back := ApplyAll(b, nodes, ops).value, UndoAll(nodes, ops);
    UndoneTargets(nodes, ops);
    UndoSucceeds(b, nodes, ops);
    StagedAt(b, nodes, ops, key);
    StagedAt(b, after, back, key);
    if key in Targets(ops) {
      var i :| 0 <= i < |ops| && ops[i].key == key;
      assert back[i].key == key;
    }
  }

  /** Taking back all operations of a patch restores the nodes exactly. */
  lemma OperationsCanBeUndone(b: Bounds, nodes: map<string, string>, ops: seq<Operation>)
    requires DistinctTargets(ops) && ApplyAll(b, nodes, ops).Ok? && Contained(b) && RootExists(b, nodes)
    ensures ApplyAll(b, ApplyAll(b, nodes, ops).value, UndoAll(nodes, ops)) == Ok(nodes)
  {
    hide ApplyAll, OperationError, RootExists;
    var after, back := ApplyAll(b, nodes, ops).value, UndoAll(nodes, ops);
    UndoSucceeds(b, nodes, ops);
    forall key ensures At(ApplyAll(b, after, back).value, key) == At(nodes, key) {
      UndoneAt(b, nodes, ops, key);
    }
    SameNodes(ApplyAll(b, after, back).value, nodes);
  }

  /** The patch that takes back another one, based on the root that one produced. */
  function UndoPatch(g: GraphBundle, p: SemanticPatch, root: Root): SemanticPatch {
    p.(baseRoot := root, operations := UndoAll(g.nodes, p.operations))
  }

  /** Every successful patch is undone by a patch, which brings back the very same graph wherever its operations have a digest. */
  lemma PatchesCanBeUndone(b: Bounds, g: GraphBundle, p: SemanticPatch)
    requires Apply(b, g, p).Ok? && Contained(b)
    ensures var patched := Apply(b, g, p).value.0;
            var undone := Apply(b, patched, UndoPatch(g, p, patched.root));
            && (undone.Ok? <==> b.operations(UndoAll(g.nodes, p.operations)))
            && (undone.Ok? ==> undone.value.0 == g)
            && (undone.Err? ==> undone.error == Unencodable)
  {
    hide ApplyAll, OperationError, TargetError;
    var ops, back := p.operations, UndoAll(g.nodes, p.operations);
    TargetErrorMeans(ops, {});
    TargetErrorMeans(back, {});
    UndoneTargets(g.nodes, ops);
    OperationsCanBeUndone(b, g.nodes, ops);
    PatchedKeysAreValid(b, g, ops);
  }
}
