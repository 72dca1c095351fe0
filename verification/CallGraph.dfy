// Call graphs, their cycles, and the orders that rule cycles out. Both
// depth-first searches of the source, the verifier's and the checker's, are
// proved against the notions here.
module CallGraph {
  import opened Prelude

  // Successor lists; a node without an entry calls nothing.
  type Graph<T(==)> = map<T, seq<T>>

  predicate Edge<T(==)>(g: Graph<T>, a: T, b: T) {
    a in g && b in g[a]
  }

  predicate IsPath<T(==)>(g: Graph<T>, p: seq<T>) {
    forall i :: 0 <= i < |p| - 1 ==> Edge(g, p[i], p[i + 1])
  }

  predicate IsCycle<T(==)>(g: Graph<T>, p: seq<T>) {
    |p| >= 2 && p[0] == p[|p| - 1] && IsPath(g, p)
  }

  ghost predicate Acyclic<T(!new)>(g: Graph<T>) {
    forall p: seq<T> :: !IsCycle(g, p)
  }

  /** Every node comes after everything it calls. */
  predicate Topological<T(==)>(g: Graph<T>, order: seq<T>) {
    && Distinct(order)
    && forall i :: 0 <= i < |order| && order[i] in g ==>
                     forall b :: b in g[order[i]] ==> b in order[..i]
  }

  function IndexOf<T(==)>(s: seq<T>, x: T): (i: nat)
    requires x in s
    ensures i < |s| && s[i] == x
  {
    if s[0] == x then 0 else 1 + IndexOf(s[1..], x)
  }

  lemma EdgeDescends<T(!new)>(g: Graph<T>, order: seq<T>, a: T, b: T)
    requires Topological(g, order) && a in order && Edge(g, a, b)
    ensures b in order && IndexOf(order, b) < IndexOf(order, a)
  {
    var i := IndexOf(order, a);
    assert b in order[..i];
    var j :| 0 <= j < i && order[j] == b;
    var k := IndexOf(order, b);
    assert order[j] == order[k];
  }

  lemma {:induction false} PathDescends<T(!new)>(g: Graph<T>, order: seq<T>, p: seq<T>, k: nat)
    requires Topological(g, order) && IsPath(g, p)
    requires k < |p| && p[0] in order
    ensures p[k] in order
    ensures k > 0 ==> IndexOf(order, p[k]) < IndexOf(order, p[0])
  {
    if k > 0 {
      PathDescends(g, order, p, k - 1);
      EdgeDescends(g, order, p[k - 1], p[k]);
    }
  }

  /** An order that covers every node with outgoing edges excludes all cycles. */
  lemma TopologicalAcyclic<T(!new)>(g: Graph<T>, order: seq<T>)
    requires Topological(g, order) && forall a :: a in g ==> a in order
    ensures Acyclic(g)
  {
    forall p: seq<T> ensures !IsCycle(g, p) {
      if IsCycle(g, p) {
        assert Edge(g, p[0], p[1]);
        PathDescends(g, order, p, |p| - 1);
      }
    }
  }

  /** Closing a path that returns to one of its own nodes yields a cycle. */
  lemma CloseCycle<T(!new)>(g: Graph<T>, path: seq<T>, k: nat, back: T)
    requires IsPath(g, path) && k < |path| && path[k] == back
    requires Edge(g, path[|path| - 1], back)
    ensures IsCycle(g, path[k..] + [back])
  {
  }

  /** The set of naturals below n. */
  function Below(n: nat): (all: set<nat>)
    ensures |all| == n
    ensures forall x: nat :: x in all <==> x < n
  {
    if n == 0 then {} else Below(n - 1) + {n - 1}
  }

  lemma DistinctBounded(s: seq<nat>, n: nat)
    requires Distinct(s) && forall x :: x in s ==> x < n
    ensures |s| <= n
  {
    var elems := set x | x in s;
    DistinctCard(s);
    CardMono(elems, Below(n));
  }

  lemma {:induction false} DistinctCard<T>(s: seq<T>)
    requires Distinct(s)
    ensures |set x | x in s| == |s|
  {
    var elems := set x | x in s;
    if s == [] {
      assert elems == {};
    } else {
      DistinctCard(s[1..]);
      assert s == [s[0]] + s[1..];
      assert elems == {s[0]} + (set x | x in s[1..]);
    }
  }

  lemma {:induction false} CardMono<T>(a: set<T>, b: set<T>)
    requires a <= b
    ensures |a| <= |b|
  {
    assert b == a + (b - a);
  }

  // ---------- a finite acyclic graph has a topological order ----------

  predicate ClosedOn<T(==)>(g: Graph<T>, nodes: set<T>) {
    forall a :: a in nodes && a in g ==> forall b :: b in g[a] ==> b in nodes
  }

  /** Ready to be appended: not yet ordered, and everything it calls is. */
  predicate Ready<T(==)>(g: Graph<T>, nodes: set<T>, order: seq<T>, x: T) {
    x in nodes && x !in order && (x in g ==> forall b :: b in g[x] ==> b in order)
  }

  /** If no node is ready, unordered nodes lead to unordered nodes for ever. */
  lemma {:induction false} LongPath<T(!new)>(g: Graph<T>, nodes: set<T>, order: seq<T>, start: T, n: nat)
    returns (p: seq<T>)
    requires ClosedOn(g, nodes) && start in nodes && start !in order
    requires forall x :: !Ready(g, nodes, order, x)
    ensures |p| == n + 1 && IsPath(g, p)
    ensures forall x :: x in p ==> x in nodes && x !in order
  {
    if n == 0 {
      p := [start];
    } else {
      var q := LongPath(g, nodes, order, start, n - 1);
      var last := q[|q| - 1];
      assert !Ready(g, nodes, order, last);
      var b :| b in g[last] && b !in order;
      p := q + [b];
    }
  }

  /** A path longer than the number of nodes runs through a cycle. */
  lemma LongPathHasCycle<T(!new)>(g: Graph<T>, nodes: set<T>, p: seq<T>)
    requires IsPath(g, p) && |p| > |nodes| && forall x :: x in p ==> x in nodes
    ensures !Acyclic(g)
  {
    if Distinct(p) {
      DistinctCard(p);
      CardMono((set x | x in p), nodes);
    }
    var i, j :| 0 <= i < j < |p| && p[i] == p[j];
    assert IsCycle(g, p[i..j + 1]);
  }

  lemma {:induction false} TopologicalOrderExists<T(!new)>(g: Graph<T>, nodes: set<T>, order: seq<T>)
    returns (full: seq<T>)
    requires Acyclic(g) && ClosedOn(g, nodes)
    requires Topological(g, order) && forall x :: x in order ==> x in nodes
    ensures Topological(g, full) && forall x :: x in full <==> x in nodes
    decreases nodes - (set x | x in order)
  {
    if exists x :: x in nodes && x !in order {
      if forall x :: !Ready(g, nodes, order, x) {
        var start :| start in nodes && start !in order;
        var p := LongPath(g, nodes, order, start, |nodes|);
        LongPathHasCycle(g, nodes, p);
        assert false;
      }
      var x :| Ready(g, nodes, order, x);
      ExtendOrder(g, order, x);
      var now, then_ := set y | y in order, set y | y in order + [x];
      assert then_ == now + {x};
      assert x in nodes - now && x !in nodes - then_;
      full := TopologicalOrderExists(g, nodes, order + [x]);
    } else {
      full := order;
    }
  }

  lemma ExtendOrder<T(!new)>(g: Graph<T>, order: seq<T>, x: T)
    requires Topological(g, order) && x !in order
    requires x in g ==> forall b :: b in g[x] ==> b in order
    ensures Topological(g, order + [x])
  {
    var extended := order + [x];
    forall i | 0 <= i < |extended| && extended[i] in g
      ensures forall b :: b in g[extended[i]] ==> b in extended[..i]
    {
      assert extended[..i] == order[..i];
      if i == |order| {
        assert order[..i] == order;
      }
    }
  }
}
