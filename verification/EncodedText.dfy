// How long the text of an encoding can be, given its nodes and its longest string, and a tree
// that is small enough to be encoded.
module EncodedText {
  import opened Prelude
  import opened Ast
  import opened Encoding
  import Tokens
  import J = CanonicalJson

  // ---------- strings ----------

  lemma {:induction false} Utf8Append(s: string, t: string)
    ensures Tokens.Utf8Length(s + t) == Tokens.Utf8Length(s) + Tokens.Utf8Length(t)
  {
    if s == [] {
      assert s + t == t;
    } else {
      assert (s + t)[1..] == s[1..] + t;
      Utf8Append(s[1..], t);
    }
  }

  lemma EscapeBound(c: char)
    ensures Tokens.Utf8Length(J.EscapeChar(c)) <= 6 * Tokens.Utf8Width(c)
  {
    FewBytes(J.EscapeChar(c));
  }

  lemma FewBytes(s: string)
    ensures |s| == 1 ==> Tokens.Utf8Length(s) == Tokens.Utf8Width(s[0])
    ensures |s| == 2 ==> Tokens.Utf8Length(s) == Tokens.Utf8Width(s[0]) + Tokens.Utf8Width(s[1])
    ensures |s| <= 6 && (forall i :: 0 <= i < |s| ==> s[i] as nat < 0x80) ==> Tokens.Utf8Length(s) == |s|
    decreases |s|
  {
    if s != [] {
      FewBytes(s[1..]);
    }
  }

  /** An escaped character takes at most six times as many bytes. */
  lemma {:induction false} EscapedBound(s: string)
    ensures Tokens.Utf8Length(J.EscapeText(s)) <= 6 * Tokens.Utf8Length(s)
  {
    if s != [] {
      EscapeBound(s[0]);
      EscapedBound(s[1..]);
      Utf8Append(J.EscapeChar(s[0]), J.EscapeText(s[1..]));
    }
  }

  lemma QuotedBound(s: string)
    ensures Tokens.Utf8Length(J.Quoted(s)) <= 2 + 6 * Tokens.Utf8Length(s)
  {
    EscapedBound(s);
    FewBytes(['\"']);
    Utf8Append(['\"'] + J.EscapeText(s), ['\"']);
    Utf8Append(['\"'], J.EscapeText(s));
  }

  lemma {:induction false} WidthBound(s: string)
    ensures Tokens.Utf8Length(s) <= 4 * |s|
  {
    if s != [] {
      WidthBound(s[1..]);
    }
  }

  // ---------- texts ----------

  predicate Short(s: Size) {
    s.magnitude == 0 && s.longest <= 160
  }

  /** With short strings and no integers, the text takes no more than two thousand bytes for each node. */
  lemma {:induction false} TextBound(v: J.CanonicalValue)
    requires Short(SizeOf(v))
    ensures TextBytes(v) + 1000 <= 2000 * SizeOf(v).nodes
    decreases v, 1
  {
    match v
    case Integer(n) => ZeroText(n);
    case Text(s) => QuotedBound(s);
    case Array(items) => ItemsBound(items);
    case Object(entries) => EntriesBound(entries);
    case _ =>
  }

  lemma ZeroText(n: J.CanonicalInteger)
    requires J.NumberOf(n) == 0
    ensures |ToDecimal(J.NumberOf(n))| == 1
  {
  }

  lemma {:induction false} ItemsBound(items: seq<J.CanonicalValue>)
    requires Short(SizeOfItems(items))
    ensures BytesOfItems(items) + |items| <= 2000 * SizeOfItems(items).nodes
    decreases items, 0
  {
    hide SizeOf, TextBytes;
    if items != [] {
      TextBound(items[0]);
      ItemsBound(items[1..]);
    }
  }

  lemma {:induction false} EntriesBound(entries: seq<J.Entry>)
    requires Short(SizeOfEntries(entries))
    ensures BytesOfEntries(entries) + |entries| <= 2000 * SizeOfEntries(entries).nodes
    decreases entries, 0
  {
    hide SizeOf, TextBytes, J.Quoted;
    if entries != [] {
      QuotedBound(entries[0].key);
      TextBound(entries[0].value);
      EntriesBound(entries[1..]);
    }
  }

  // ---------- the canonical form ----------

  function TextsBytes(texts: seq<string>): nat {
    if texts == [] then 0 else Tokens.Utf8Length(texts[0]) + TextsBytes(texts[1..])
  }

  lemma {:induction false} JoinBytes(texts: seq<string>)
    ensures Tokens.Utf8Length(J.JoinTexts(texts)) == Commas(|texts|) + TextsBytes(texts)
  {
    if |texts| > 1 {
      JoinBytes(texts[1..]);
      FewBytes([',']);
      Utf8Append(texts[0] + [','], J.JoinTexts(texts[1..]));
      Utf8Append(texts[0], [',']);
    } else if |texts| == 1 {
      assert texts[1..] == [];
    }
  }

  function MemberBytes(members: seq<J.Member>): nat {
    if members == [] then 0 else Tokens.Utf8Length(J.MemberText(members[0])) + MemberBytes(members[1..])
  }

  lemma {:induction false} InsertBytes(m: J.Member, members: seq<J.Member>)
    ensures MemberBytes(InsertByKey(J.MemberKey, m, members)) == Tokens.Utf8Length(J.MemberText(m)) + MemberBytes(members)
    ensures |InsertByKey(J.MemberKey, m, members)| == |members| + 1
  {
    hide J.MemberText;
    if members != [] && StrLess(J.MemberKey(members[0]), J.MemberKey(m)) {
      InsertBytes(m, members[1..]);
    }
  }

  lemma {:induction false} SortBytes(members: seq<J.Member>)
    ensures MemberBytes(SortByKey(J.MemberKey, members)) == MemberBytes(members) && |SortByKey(J.MemberKey, members)| == |members|
  {
    if members != [] {
      hide J.MemberText;
      SortBytes(members[1..]);
      InsertBytes(members[0], SortByKey(J.MemberKey, members[1..]));
    }
  }

  lemma {:induction false} MemberTextsBytes(members: seq<J.Member>)
    ensures TextsBytes(J.MemberTexts(members)) == MemberBytes(members)
  {
    if members != [] {
      hide J.MemberText;
      MemberTextsBytes(members[1..]);
      assert J.MemberTexts(members)[1..] == J.MemberTexts(members[1..]);
    }
  }

  lemma Enclosing(open: char, inner: string, close: char)
    requires open as nat < 0x80 && close as nat < 0x80
    ensures Tokens.Utf8Length([open] + inner + [close]) == 2 + Tokens.Utf8Length(inner)
  {
    FewBytes([open]);
    FewBytes([close]);
    Utf8Append([open] + inner, [close]);
    Utf8Append([open], inner);
  }

  lemma {:induction false} AsciiBytes(s: string)
    requires forall i :: 0 <= i < |s| ==> s[i] as nat < 0x80
    ensures Tokens.Utf8Length(s) == |s|
  {
    if s != [] {
      AsciiBytes(s[1..]);
    }
  }

  lemma DecimalBytes(n: int)
    ensures Tokens.Utf8Length(ToDecimal(n)) == |ToDecimal(n)|
  {
    AsciiBytes(ToDecimal(n));
  }

  /** The bytes that are bounded are those of the canonical form, in whatever order members are written. */
  lemma {:induction false} BytesOfCanonicalForm(v: J.CanonicalValue)
    ensures TextBytes(v) == Tokens.Utf8Length(J.Write(v))
    decreases v, 1
  {
    match v
    case Null => AsciiBytes("null");
    case Bool(b) => AsciiBytes(if b then "true" else "false");
    case Integer(n) => DecimalBytes(J.NumberOf(n));
    case Text(s) =>
    case Array(items) =>
      BytesOfWrittenItems(items);
      JoinBytes(J.WriteAll(items));
      Enclosing('[', J.JoinTexts(J.WriteAll(items)), ']');
    case Object(entries) =>
      BytesOfWrittenEntries(entries);
      ObjectBytes(J.Members(entries));
  }

  lemma ObjectBytes(members: seq<J.Member>)
    ensures Tokens.Utf8Length(['{'] + J.JoinTexts(J.MemberTexts(SortByKey(J.MemberKey, members))) + ['}'])
            == 2 + Commas(|members|) + MemberBytes(members)
  {
    var sorted := SortByKey(J.MemberKey, members);
    SortBytes(members);
    MemberTextsBytes(sorted);
    JoinBytes(J.MemberTexts(sorted));
    Enclosing('{', J.JoinTexts(J.MemberTexts(sorted)), '}');
  }

  lemma {:induction false} BytesOfWrittenItems(items: seq<J.CanonicalValue>)
    ensures BytesOfItems(items) == TextsBytes(J.WriteAll(items))
    decreases items, 0
  {
    if items != [] {
      hide TextBytes, J.Write;
      BytesOfCanonicalForm(items[0]);
      BytesOfWrittenItems(items[1..]);
      assert J.WriteAll(items)[0] == J.Write(items[0]) && J.WriteAll(items)[1..] == J.WriteAll(items[1..]);
    }
  }

  lemma {:induction false} BytesOfWrittenEntries(entries: seq<J.Entry>)
    ensures BytesOfEntries(entries) == MemberBytes(J.Members(entries))
    decreases entries, 0
  {
    if entries != [] {
      hide TextBytes, J.Write, J.Quoted;
      BytesOfCanonicalForm(entries[0].value);
      BytesOfWrittenEntries(entries[1..]);
      var members := J.Members(entries);
      assert members[0] == J.Member(entries[0].key, J.Write(entries[0].value)) && members[1..] == J.Members(entries[1..]);
      MemberTextBytes(members[0]);
    }
  }

  lemma MemberTextBytes(m: J.Member)
    ensures Tokens.Utf8Length(J.MemberText(m)) == Tokens.Utf8Length(J.Quoted(m.key)) + 1 + Tokens.Utf8Length(m.text)
  {
    hide J.Quoted;
    FewBytes([':']);
    Utf8Append(J.Quoted(m.key) + [':'], m.text);
    Utf8Append(J.Quoted(m.key), [':']);
  }

  // ---------- a small tree ----------

  /** No integers, and bounds on everything else. */
  predicate Small(s: Size, depth: nat, nodes: nat) {
    s.magnitude == 0 && s.depth <= depth && s.nodes <= nodes && s.longest <= 160
  }

  lemma {:induction false} SmallEntries(entries: seq<J.Entry>, depth: nat, nodes: nat)
    requires forall i :: 0 <= i < |entries| ==> |entries[i].key| <= 40 && Small(SizeOf(entries[i].value), depth, nodes)
    ensures Small(SizeOfEntries(entries), depth, |entries| * nodes)
    decreases |entries|
  {
    hide SizeOf;
    if entries != [] {
      WidthBound(entries[0].key);
      forall i | 0 <= i < |entries| - 1
        ensures |entries[1..][i].key| <= 40 && Small(SizeOf(entries[1..][i].value), depth, nodes)
      {
        assert entries[1..][i] == entries[i + 1];
      }
      SmallEntries(entries[1..], depth, nodes);
      OneMore(|entries[1..]|, nodes);
    }
  }

  lemma OneMore(n: nat, k: nat)
    ensures (n + 1) * k == k + n * k
  {
  }

  /** An object of small members is small. */
  lemma SmallObject(entries: seq<J.Entry>, depth: nat, nodes: nat)
    requires forall i :: 0 <= i < |entries| ==> |entries[i].key| <= 40 && Small(SizeOf(entries[i].value), depth, nodes)
    ensures Small(SizeOf(J.Object(entries)), depth + 1, |entries| * nodes + 1)
  {
    SmallEntries(entries, depth, nodes);
    hide SizeOfEntries;
  }

  lemma SmallEncodes(v: J.CanonicalValue)
    requires Small(SizeOf(v), MAX_ENCODED_DEPTH, 500)
    ensures Encodable(v)
  {
    TextBound(v);
    hide SizeOf, TextBytes;
  }

  lemma SmallText(s: string)
    requires |s| <= 40
    ensures Small(SizeOf(J.Text(s)), 1, 1)
  {
    WidthBound(s);
  }

  lemma SmallArray(items: seq<J.CanonicalValue>, depth: nat, nodes: nat)
    requires |items| == 0 || (|items| == 1 && Small(SizeOf(items[0]), depth, nodes))
    ensures Small(SizeOf(J.Array(items)), depth + 1, nodes + 1)
  {
    if |items| == 1 {
      OneItem(items[0]);
      assert items == [items[0]];
    }
    hide SizeOf;
    hide SizeOfItems;
  }
}
