// Order in the canonical form: object members come out strictly ordered by the UTF-16
// code units of their keys, and canonical sets do not depend on the order they are given in.
module CanonicalOrder {
  import opened Prelude
  import opened Ast
  import opened Normalization
  import opened CanonicalJson
  import opened Tokens

  // ---------- UTF-16 ----------

  lemma UnitsDetermine(a: char, b: char)
    ensures Utf16Units(a) == Utf16Units(b) ==> a == b
    ensures |Utf16Units(a)| > |Utf16Units(b)| ==> Utf16Units(a)[0] != Utf16Units(b)[0]
  {
    var m, n := a as nat, b as nat;
    if m >= 0x1_0000 && n >= 0x1_0000 && Utf16Units(a) == Utf16Units(b) {
      assert (m - 0x1_0000) / 0x400 == (n - 0x1_0000) / 0x400;
      assert (m - 0x1_0000) % 0x400 == (n - 0x1_0000) % 0x400;
    }
  }

  /** Different strings have different code units. */
  lemma {:induction false} Utf16Injective(a: string, b: string)
    requires Utf16(a) == Utf16(b)
    ensures a == b
  {
    if a != [] && b != [] {
      UnitsDetermine(a[0], b[0]);
      UnitsDetermine(b[0], a[0]);
      assert Utf16(a)[0] == Utf16Units(a[0])[0] && Utf16(b)[0] == Utf16Units(b[0])[0];
      var n := |Utf16Units(a[0])|;
      assert Utf16(a)[..n] == Utf16Units(a[0]) && Utf16(b)[..n] == Utf16Units(b[0]);
      assert Utf16(a)[n..] == Utf16(a[1..]) && Utf16(b)[n..] == Utf16(b[1..]);
      Utf16Injective(a[1..], b[1..]);
      assert a == [a[0]] + a[1..] && b == [b[0]] + b[1..];
    }
  }

  /** The order of the images is the order of the code units. */
  lemma {:induction false} ImageKeepsOrder(a: seq<nat>, b: seq<nat>)
    requires AreUnits(a) && AreUnits(b)
    ensures StrLess(UnitText(a), UnitText(b)) <==> UnitsLess(a, b)
  {
    if a != [] && b != [] {
      assert UnitText(a)[1..] == UnitText(a[1..]) && UnitText(b)[1..] == UnitText(b[1..]);
      ImageKeepsOrder(a[1..], b[1..]);
    }
  }

  lemma SortTextKeepsOrder(a: string, b: string)
    ensures StrLess(SortText(a), SortText(b)) <==> UnitsLess(Utf16(a), Utf16(b))
    ensures SortText(a) == SortText(b) ==> a == b
  {
    hide Utf16, UnitsLess, StrLess, UnitText;
    Utf16AreUnits(a);
    Utf16AreUnits(b);
    ImageKeepsOrder(Utf16(a), Utf16(b));
    if SortText(a) == SortText(b) {
      ImageInjective(Utf16(a), Utf16(b));
      Utf16Injective(a, b);
    }
  }

  lemma ImageInjective(a: seq<nat>, b: seq<nat>)
    requires AreUnits(a) && AreUnits(b) && UnitText(a) == UnitText(b)
    ensures a == b
  {
    assert |a| == |UnitText(a)| == |UnitText(b)| == |b|;
    forall i | 0 <= i < |a| ensures a[i] == b[i] {
      assert UnitChar(a[i]) == UnitText(a)[i] == UnitText(b)[i] == UnitChar(b[i]);
    }
  }

  /** Members of an object come out strictly ordered by the UTF-16 code units of their keys. */
  lemma MembersAreOrdered(entries: seq<Entry>, i: nat, j: nat)
    requires Distinct(Keys(entries)) && i < j < |SortByKey(MemberKey, Members(entries))|
    ensures var sorted := SortByKey(MemberKey, Members(entries));
            UnitsLess(Utf16(sorted[i].key), Utf16(sorted[j].key))
  {
    var members := Members(entries);
    var sorted := SortByKey(MemberKey, members);
    SortIsPermutation(MemberKey, members);
    SortSorts(MemberKey, members);
    forall a, b | 0 <= a < b < |members| ensures MemberKey(members[a]) != MemberKey(members[b]) {
      assert Keys(entries)[a] != Keys(entries)[b];
      SortTextKeepsOrder(members[a].key, members[b].key);
    }
    PermutedKeys(MemberKey, members, sorted);
    assert !StrLess(MemberKey(sorted[j]), MemberKey(sorted[i])) && MemberKey(sorted[i]) != MemberKey(sorted[j]);
    StrLessTotal(MemberKey(sorted[i]), MemberKey(sorted[j]));
    SortTextKeepsOrder(sorted[i].key, sorted[j].key);
  }

  // ---------- sorting does not see the order it is given ----------

  ghost predicate StrictByKey<T>(key: T -> string, s: seq<T>) {
    forall i, j :: 0 <= i < j < |s| ==> StrLess(key(s[i]), key(s[j]))
  }

  lemma StrictHead<T>(key: T -> string, s: seq<T>, t: seq<T>)
    requires s != [] && t != [] && StrictByKey(key, s) && StrictByKey(key, t)
    requires s[0] in t && t[0] in s
    ensures s[0] == t[0]
  {
    var i :| 0 <= i < |t| && t[i] == s[0];
    var j :| 0 <= j < |s| && s[j] == t[0];
    StrLessTotal(key(s[0]), key(t[0]));
  }

  lemma StrictTail<T>(key: T -> string, s: seq<T>, x: T)
    requires s != [] && StrictByKey(key, s)
    ensures x in s[1..] <==> x in s && x != s[0]
  {
    assert s == [s[0]] + s[1..];
    StrLessTotal(key(s[0]), key(s[0]));
    forall i | 0 <= i < |s| - 1 ensures s[1..][i] != s[0] {
      assert s[1..][i] == s[i + 1];
    }
  }

  lemma SomeMember<T>(s: seq<T>)
    requires s != []
    ensures exists x :: x in s
  {
    assert s[0] in s;
  }

  /** Two strictly sorted arrangements of the same items are the same. */
  lemma {:induction false} StrictUnique<T>(key: T -> string, s: seq<T>, t: seq<T>)
    requires StrictByKey(key, s) && StrictByKey(key, t) && forall x :: x in s <==> x in t
    ensures s == t
    decreases |s|
  {
    if s == [] {
      if t != [] {
        SomeMember(t);
      }
    } else {
      assert s[0] in t;
      StrictHead(key, s, t);
      forall x ensures x in s[1..] <==> x in t[1..] {
        StrictTail(key, s, x);
        StrictTail(key, t, x);
      }
      StrictUnique(key, s[1..], t[1..]);
      assert s == [s[0]] + s[1..] && t == [t[0]] + t[1..];
    }
  }

  // ---------- canonical sets ----------

  datatype SetError = UnsafeInteger | DuplicateSetElement | PayloadTooLarge

  const MAX_PAYLOAD_BYTES: nat := 1_048_576

  /** The value has a canonical form that is not too long to be digested. */
  predicate Digestible(v: CanonicalValue) {
    Jce1Valid(v) && Utf8Length(Write(v)) <= MAX_PAYLOAD_BYTES
  }

  // An element with its digest, in hexadecimal digits, and its canonical form.
  datatype Element = Element(digest: string, bytes: string, value: CanonicalValue)

  function ElementKey(e: Element): string {
    e.digest + e.bytes
  }

  function ElementOf(digest: string -> string, v: CanonicalValue): Element {
    Element(digest(Write(v)), Write(v), v)
  }

  function Elements(digest: string -> string, values: seq<CanonicalValue>): (r: seq<Element>)
    ensures |r| == |values| && forall i :: 0 <= i < |r| ==> r[i] == ElementOf(digest, values[i])
  {
    seq(|values|, i requires 0 <= i < |values| => ElementOf(digest, values[i]))
  }

  function Values(elements: seq<Element>): (r: seq<CanonicalValue>)
    ensures |r| == |elements| && forall i :: 0 <= i < |r| ==> r[i] == elements[i].value
  {
    seq(|elements|, i requires 0 <= i < |elements| => elements[i].value)
  }

  /** The first value that is not valid, has the canonical form of an earlier one, or is too long. */
  function SetErrorAt(values: seq<CanonicalValue>, seen: set<string>): Option<SetError> {
    if values == [] then None
    else if !Jce1Valid(values[0]) then Some(UnsafeInteger)
    else if Write(values[0]) in seen then Some(DuplicateSetElement)
    else if Utf8Length(Write(values[0])) > MAX_PAYLOAD_BYTES then Some(PayloadTooLarge)
    else SetErrorAt(values[1..], seen + {Write(values[0])})
  }

  /** Elements in the order of their digests, ties broken by their canonical forms. */
  function CanonicalSet(digest: string -> string, values: seq<CanonicalValue>): Result<CanonicalValue, SetError> {
    match SetErrorAt(values, {})
    case Some(e) => Err(e)
    case None => Ok(Array(Values(SortByKey(ElementKey, Elements(digest, values)))))
  }

  method BuildCanonicalSet(digest: string -> string, values: seq<CanonicalValue>) returns (r: Result<CanonicalValue, SetError>)
    ensures r == CanonicalSet(digest, values)
  {
    var seen: set<string>, entries: seq<Element> := {}, [];
    assert values[0..] == values;
    for k := 0 to |values|
      invariant entries == Elements(digest, values)[..k]
      invariant SetErrorAt(values[k..], seen) == SetErrorAt(values, {})
    {
      assert values[k..][0] == values[k] && values[k..][1..] == values[k + 1..];
      if !Jce1Valid(values[k]) {
        return Err(UnsafeInteger);
      }
      var bytes := Write(values[k]);
      if bytes in seen {
        return Err(DuplicateSetElement);
      }
      if Utf8Length(bytes) > MAX_PAYLOAD_BYTES {
        return Err(PayloadTooLarge);
      }
      seen := seen + {bytes};
      entries := entries + [Element(digest(bytes), bytes, values[k])];
    }
    assert Elements(digest, values)[..|values|] == Elements(digest, values);
    return Ok(Array(Values(SortByKey(ElementKey, entries))));
  }

  function Forms(values: seq<CanonicalValue>): set<string> {
    set v | v in values :: Write(v)
  }

  lemma FormsStep(values: seq<CanonicalValue>)
    requires values != []
    ensures Forms(values) == {Write(values[0])} + Forms(values[1..])
  {
    assert values == [values[0]] + values[1..];
  }

  lemma {:induction false} FormsBound(values: seq<CanonicalValue>)
    ensures |Forms(values)| <= |values|
  {
    if values != [] {
      FormsStep(values);
      FormsBound(values[1..]);
    }
  }

  predicate AllValid(values: seq<CanonicalValue>) {
    forall v :: v in values ==> Digestible(v)
  }

  lemma AllValidStep(values: seq<CanonicalValue>)
    requires values != []
    ensures AllValid(values) <==> Digestible(values[0]) && AllValid(values[1..])
  {
    assert values == [values[0]] + values[1..];
  }

  /** A set is accepted exactly if all its elements can be digested and no two have the same canonical form. */
  lemma {:induction false} SetErrorMeans(values: seq<CanonicalValue>, seen: set<string>)
    ensures SetErrorAt(values, seen).None? <==> AllValid(values) && |Forms(values)| == |values| && Forms(values) !! seen
    decreases |values|
  {
    hide Jce1Valid, Write, AllValid, Forms;
    if values == [] {
      NoForms();
    } else {
      var rest := values[1..];
      AllValidStep(values);
      FormsStep(values);
      FormsBound(rest);
      SetErrorMeans(rest, seen + {Write(values[0])});
    }
  }

  lemma NoForms()
    ensures Forms([]) == {} && AllValid([])
  {
  }

  /** With as many forms as values, different positions have different forms. */
  lemma {:induction false} FormsDiffer(values: seq<CanonicalValue>, i: nat, j: nat)
    requires |Forms(values)| == |values| && i < j < |values|
    ensures Write(values[i]) != Write(values[j])
  {
    FormsStep(values);
    FormsBound(values[1..]);
    if i > 0 {
      FormsDiffer(values[1..], i - 1, j - 1);
    } else {
      assert values[j] in values[1..] by {
        assert values[1..][j - 1] == values[j];
      }
    }
  }

  /** Digests of one length, so that a digest followed by a canonical form can be told apart. */
  ghost predicate OneLength(digest: string -> string, n: nat) {
    forall s :: |digest(s)| == n
  }

  /**
   * Canonical sets do not depend on the order of their elements: any permutation is accepted as well, and
   * gives the same array.
   */
  lemma SetOrderDoesNotMatter(digest: string -> string, n: nat, a: seq<CanonicalValue>, b: seq<CanonicalValue>)
    requires OneLength(digest, n) && multiset(a) == multiset(b)
    ensures CanonicalSet(digest, a).Ok? <==> CanonicalSet(digest, b).Ok?
    ensures CanonicalSet(digest, a).Ok? ==> CanonicalSet(digest, a) == CanonicalSet(digest, b)
  {
    PermutedMembers(a, b);
    assert AllValid(a) <==> AllValid(b);
    assert Forms(a) == Forms(b);
    SetErrorMeans(a, {});
    SetErrorMeans(b, {});
    if |Forms(a)| == |a| {
      SortedElements(digest, n, a);
      SortedElements(digest, n, b);
      StrictUnique(ElementKey, SortByKey(ElementKey, Elements(digest, a)), SortByKey(ElementKey, Elements(digest, b)));
    }
  }

  /** Elements with different forms are sorted strictly, and they are exactly the elements of the values. */
  lemma SortedElements(digest: string -> string, n: nat, values: seq<CanonicalValue>)
    requires OneLength(digest, n) && |Forms(values)| == |values|
    ensures var sorted := SortByKey(ElementKey, Elements(digest, values));
            && StrictByKey(ElementKey, sorted)
            && forall x :: x in sorted <==> exists v :: v in values && x == ElementOf(digest, v)
  {
    var elements := Elements(digest, values);
    var sorted := SortByKey(ElementKey, elements);
    SortIsPermutation(ElementKey, elements);
    SortSorts(ElementKey, elements);
    forall i, j | 0 <= i < j < |elements| ensures ElementKey(elements[i]) != ElementKey(elements[j]) {
      FormsDiffer(values, i, j);
      if ElementKey(elements[i]) == ElementKey(elements[j]) {
        KeyDetermines(digest, n, values[i], values[j]);
      }
    }
    PermutedKeys(ElementKey, elements, sorted);
    forall i, j | 0 <= i < j < |sorted| ensures StrLess(ElementKey(sorted[i]), ElementKey(sorted[j])) {
      StrLessTotal(ElementKey(sorted[i]), ElementKey(sorted[j]));
    }
    PermutedMembers(elements, sorted);
    forall x ensures x in elements <==> exists v :: v in values && x == ElementOf(digest, v) {
      if v :| v in values && x == ElementOf(digest, v) {
        var i :| 0 <= i < |values| && values[i] == v;
        assert elements[i] == x;
      }
    }
  }

  lemma KeyDetermines(digest: string -> string, n: nat, v: CanonicalValue, w: CanonicalValue)
    requires OneLength(digest, n) && ElementKey(ElementOf(digest, v)) == ElementKey(ElementOf(digest, w))
    ensures Write(v) == Write(w)
  {
    var p, q := ElementOf(digest, v), ElementOf(digest, w);
    assert |p.digest| == n && |q.digest| == n;
    assert ElementKey(p)[n..] == p.bytes && ElementKey(q)[n..] == q.bytes;
  }
}
