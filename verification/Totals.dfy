// Sums over finite maps, in whatever order the entries are visited.
module Totals {
  ghost function Total(m: map<string, nat>): nat {
    if m == map[] then 0
    else
      var k :| k in m;
      m[k] + Total(m - {k})
  }

  /** The total does not depend on the order in which entries are taken. */
  lemma {:induction false} TotalRemove(m: map<string, nat>, k: string)
    requires k in m
    ensures Total(m) == m[k] + Total(m - {k})
  {
    var first :| first in m && Total(m) == m[first] + Total(m - {first});
    if first != k {
      TotalRemove(m - {first}, k);
      TotalRemove(m - {k}, first);
      assert m - {first} - {k} == m - {k} - {first};
    }
  }

  lemma TotalInsert(m: map<string, nat>, k: string, v: nat)
    ensures Total(m[k := v]) == Total(m) + v - (if k in m then m[k] else 0)
  {
    TotalRemove(m[k := v], k);
    if k in m {
      TotalRemove(m, k);
      assert m[k := v] - {k} == m - {k};
    } else {
      assert m[k := v] - {k} == m;
    }
  }

  lemma TotalBounds(m: map<string, nat>, k: string)
    requires k in m
    ensures m[k] <= Total(m)
  {
    TotalRemove(m, k);
  }

  /** A part of a map adds up to no more than the whole. */
  lemma {:induction false} TotalMonotone(part: map<string, nat>, whole: map<string, nat>)
    requires forall k :: k in part ==> k in whole && part[k] == whole[k]
    ensures Total(part) <= Total(whole)
  {
    if part != map[] {
      var k :| k in part;
      TotalRemove(part, k);
      TotalRemove(whole, k);
      TotalMonotone(part - {k}, whole - {k});
    }
  }
}
