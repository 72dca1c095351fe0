// The verifier's three-colour depth-first search over the bytecode call graph.
module CycleSearch {
  import opened CallGraph
  import opened Bytecode
  import opened Verifier

  predicate Closed(graph: seq<seq<nat>>) {
    forall i :: 0 <= i < |graph| ==> forall t :: t in graph[i] ==> t < |graph|
  }

  ghost function Unvisited(state: seq<int>): set<nat> {
    set i: nat | i < |state| && state[i] == 0
  }

  /** The colours record the nodes being visited (1) and the nodes finished (2), finished callees first. */
  ghost predicate Colours(graph: seq<seq<nat>>, state: seq<int>, path: seq<nat>, order: seq<nat>) {
    && |state| == |graph|
    && (forall i :: 0 <= i < |state| ==> 0 <= state[i] <= 2)
    && (forall i: nat :: i in path <==> i < |state| && state[i] == 1)
    && (forall i: nat :: i in order <==> i < |state| && state[i] == 2)
    && Topological(AsGraph(graph), order)
    && IsPath(AsGraph(graph), path)
  }

  /** Visit a node: either everything it reaches is finished, or a cycle is at hand. */
  method VisitGraph(index: nat, graph: seq<seq<nat>>, state: array<int>, ghost path: seq<nat>, ghost before: seq<nat>)
    returns (ok: bool, ghost order: seq<nat>, ghost cycle: seq<nat>)
    requires Closed(graph) && index < |graph|
    requires Colours(graph, state[..], path, before)
    requires path != [] ==> Edge(AsGraph(graph), path[|path| - 1], index)
    modifies state
    ensures ok ==> Colours(graph, state[..], path, order) && before <= order && index in order
    ensures !ok ==> IsCycle(AsGraph(graph), cycle)
    ensures Unvisited(state[..]) <= old(Unvisited(state[..]))
    decreases Unvisited(state[..])
  {
    order, cycle := before, [];
    ghost var g := AsGraph(graph);
    if state[index] == 1 {
      ghost var k := IndexOf(path, index);
      CloseCycle(g, path, k, index);
      cycle := path[k..] + [index];
      return false, order, cycle;
    }
    if state[index] == 2 {
      return true, order, cycle;
    }
    ghost var white := Unvisited(state[..]);
    assert index in white;
    state[index] := 1;
    assert index !in Unvisited(state[..]);
    assert Unvisited(state[..]) < white;
    ghost var here := path + [index];
    var targets := graph[index];
    for k := 0 to |targets|
      invariant Colours(graph, state[..], here, order) && before <= order
      invariant forall j :: 0 <= j < k ==> targets[j] in order
      invariant Unvisited(state[..]) < white
    {
      assert Edge(g, index, targets[k]);
      ok, order, cycle := VisitGraph(targets[k], graph, state, here, order);
      if !ok {
        return;
      }
    }
    assert index in here && state[index] == 1 && index !in order;
    ExtendOrder(g, order, index);
    state[index] := 2;
    order := order + [index];
    ok := true;
  }

  /** The search accepts exactly the call graphs without a cycle. */
  method VerifyAcyclic(graph: seq<seq<nat>>) returns (ok: bool, ghost order: seq<nat>)
    requires Closed(graph)
    ensures ok <==> Acyclic(AsGraph(graph))
    ensures ok ==> Topological(AsGraph(graph), order) && forall i: nat :: i in order <==> i < |graph|
  {
    var state := new int[|graph|](i => 0);
    order := [];
    ghost var cycle;
    for index := 0 to |graph|
      invariant Colours(graph, state[..], [], order)
      invariant forall i: nat :: i < index ==> i in order
    {
      ok, order, cycle := VisitGraph(index, graph, state, [], order);
      if !ok {
        return;
      }
    }
    TopologicalAcyclic(AsGraph(graph), order);
    ok := true;
  }

  /** The finishing order ranks the functions: a call always goes to a smaller rank. */
  lemma TopologicalRanks(functions: seq<BytecodeFunction>, order: seq<nat>)
    requires Topological(AsGraph(GraphOf(functions)), order)
    requires forall i: nat :: i in order <==> i < |functions|
    ensures exists rank: seq<nat> :: Ranked(functions, rank)
  {
    var g := AsGraph(GraphOf(functions));
    var rank: seq<nat> := seq(|functions|, i requires 0 <= i < |functions| => IndexOf(order, i));
    DistinctBounded(order, |functions|);
    forall f | 0 <= f < |functions| ensures RankedAt(functions, rank, f) {
      var code := functions[f].instructions;
      forall i | 0 <= i < |code| && code[i].Invoke?
        ensures code[i].target < |rank| && rank[code[i].target] < rank[f]
      {
        TargetsComplete(code, code[i].target);
        EdgeDescends(g, order, f, code[i].target);
      }
    }
    assert Ranked(functions, rank);
  }
}
