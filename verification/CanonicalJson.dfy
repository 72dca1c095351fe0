// The JCE1 canonical form (crates/joan-canonical/src/lib.rs): JSON without white space,
// with integers only and with object members in the order of their UTF-16 code units
// (section 3.2.3 of RFC 8785), and canonical sets on top of it.
module CanonicalJson {
  import opened Prelude
  import opened Ast

  // An integer remembers whether it came from a signed or an unsigned number.
  datatype CanonicalInteger = Signed(signed: i64) | Unsigned(unsigned: u64)

  /** Objects list their members in the order of the source's map; keys are distinct. */
  datatype CanonicalValue =
    | Null
    | Bool(truth: bool)
    | Integer(number: CanonicalInteger)
    | Text(text: string)
    | Array(items: seq<CanonicalValue>)
    | Object(entries: seq<Entry>)

  datatype Entry = Entry(key: string, value: CanonicalValue)

  const MAX_SAFE_JSON_INTEGER: int := 9_007_199_254_740_991

  function NumberOf(n: CanonicalInteger): int {
    match n
    case Signed(i) => i
    case Unsigned(u) => u
  }

  function Keys(entries: seq<Entry>): (r: seq<string>)
    ensures |r| == |entries| && forall i :: 0 <= i < |r| ==> r[i] == entries[i].key
  {
    seq(|entries|, i requires 0 <= i < |entries| => entries[i].key)
  }

  /** The keys of every object are distinct, as in any map. */
  predicate WellKeyed(v: CanonicalValue)
    decreases v, 1
  {
    match v
    case Array(items) => AllWellKeyed(items)
    case Object(entries) => Distinct(Keys(entries)) && MembersWellKeyed(entries)
    case _ => true
  }

  predicate AllWellKeyed(items: seq<CanonicalValue>)
    decreases items, 0
  {
    forall i :: 0 <= i < |items| ==> WellKeyed(items[i])
  }

  predicate MembersWellKeyed(entries: seq<Entry>)
    decreases entries, 0
  {
    forall i :: 0 <= i < |entries| ==> WellKeyed(entries[i].value)
  }

  /** Integers are exact in every JSON reader. */
  predicate Jce1Valid(v: CanonicalValue)
    decreases v, 1
  {
    match v
    case Integer(n) => Abs(NumberOf(n)) <= MAX_SAFE_JSON_INTEGER
    case Array(items) => forall i :: 0 <= i < |items| ==> Jce1Valid(items[i])
    case Object(entries) => forall i :: 0 <= i < |entries| ==> Jce1Valid(entries[i].value)
    case _ => true
  }

  // ---------- UTF-16 order ----------

  function Utf16Units(c: char): seq<nat> {
    var n := c as int;
    if n < 0x1_0000 then [n] else [0xD800 + (n - 0x1_0000) / 0x400, 0xDC00 + (n - 0x1_0000) % 0x400]
  }

  function Utf16(s: string): seq<nat> {
    if s == [] then [] else Utf16Units(s[0]) + Utf16(s[1..])
  }

  /** Lexicographic order of code units. */
  predicate UnitsLess(a: seq<nat>, b: seq<nat>) {
    if b == [] then false
    else if a == [] then true
    else a[0] < b[0] || (a[0] == b[0] && UnitsLess(a[1..], b[1..]))
  }

  /** A code unit as a character, in the same order; surrogates move above the other units. */
  function UnitChar(unit: nat): char
    requires unit < 0x1_0000
  {
    if unit < 0xD800 then unit as char else (unit - 0xD800 + 0x1_0000) as char
  }

  predicate AreUnits(units: seq<nat>) {
    forall i :: 0 <= i < |units| ==> units[i] < 0x1_0000
  }

  function UnitText(units: seq<nat>): (r: string)
    requires AreUnits(units)
    ensures |r| == |units| && forall i :: 0 <= i < |r| ==> r[i] == UnitChar(units[i])
  {
    seq(|units|, i requires 0 <= i < |units| => UnitChar(units[i]))
  }

  lemma {:induction false} Utf16AreUnits(s: string)
    ensures AreUnits(Utf16(s))
  {
    if s != [] {
      Utf16AreUnits(s[1..]);
    }
  }

  /** A string whose order is the UTF-16 order of the key. */
  function SortText(key: string): string {
    Utf16AreUnits(key);
    UnitText(Utf16(key))
  }

  // ---------- the writer ----------

  function HexDigit(n: nat): char
    requires n < 16
  {
    if n < 10 then ('0' as int + n) as char else ('a' as int + n - 10) as char
  }

  /** The escapes of section 3.2.2.2 of RFC 8785. */
  function EscapeChar(c: char): string {
    if c == '\"' then "\\\""
    else if c == '\\' then "\\\\"
    else if c as int == 8 then "\\b"
    else if c as int == 9 then "\\t"
    else if c as int == 10 then "\\n"
    else if c as int == 12 then "\\f"
    else if c as int == 13 then "\\r"
    else if c as int < 0x20 then ['\\', 'u', '0', '0', HexDigit(c as int / 16), HexDigit(c as int % 16)]
    else [c]
  }

  function EscapeText(s: string): string {
    if s == [] then [] else EscapeChar(s[0]) + EscapeText(s[1..])
  }

  function Quoted(s: string): string {
    ['\"'] + EscapeText(s) + ['\"']
  }

  // A member of an object, with its value already written.
  datatype Member = Member(key: string, text: string)

  function MemberKey(m: Member): string {
    SortText(m.key)
  }

  function MemberText(m: Member): string {
    Quoted(m.key) + [':'] + m.text
  }

  function JoinTexts(texts: seq<string>): string {
    if texts == [] then []
    else if |texts| == 1 then texts[0]
    else texts[0] + [','] + JoinTexts(texts[1..])
  }

  function MemberTexts(members: seq<Member>): (r: seq<string>)
    ensures |r| == |members| && forall i :: 0 <= i < |r| ==> r[i] == MemberText(members[i])
  {
    seq(|members|, i requires 0 <= i < |members| => MemberText(members[i]))
  }

  function Write(v: CanonicalValue): string
    decreases v, 1
  {
    match v
    case Null => "null"
    case Bool(b) => if b then "true" else "false"
    case Integer(n) => ToDecimal(NumberOf(n))
    case Text(s) => Quoted(s)
    case Array(items) => ['['] + JoinTexts(WriteAll(items)) + [']']
    case Object(entries) => ['{'] + JoinTexts(MemberTexts(SortByKey(MemberKey, Members(entries)))) + ['}']
  }

  function WriteAll(items: seq<CanonicalValue>): (r: seq<string>)
    ensures |r| == |items| && forall i :: 0 <= i < |r| ==> r[i] == Write(items[i])
    decreases items, 0
  {
    if items == [] then [] else [Write(items[0])] + WriteAll(items[1..])
  }

  function Members(entries: seq<Entry>): (r: seq<Member>)
    ensures |r| == |entries|
    ensures forall i :: 0 <= i < |r| ==> r[i] == Member(entries[i].key, Write(entries[i].value))
    decreases entries, 0
  {
    if entries == [] then [] else [Member(entries[0].key, Write(entries[0].value))] + Members(entries[1..])
  }

  /** Joining text by text, a comma before every text but the first. */
  function Joined(texts: seq<string>): string {
    if texts == [] then []
    else
      var n := |texts| - 1;
      Joined(texts[..n]) + (if n > 0 then [','] else []) + texts[n]
  }

  lemma {:induction false} JoinedFront(texts: seq<string>, more: seq<string>)
    requires texts != []
    ensures Joined(texts + more) == if more == [] then Joined(texts) else Joined(texts) + [','] + JoinTexts(more)
    decreases |more|
  {
    if more == [] {
      assert texts + more == texts;
    } else {
      var longer := texts + [more[0]];
      assert longer[..|texts|] == texts;
      assert texts + more == longer + more[1..];
      JoinedFront(longer, more[1..]);
      if more[1..] != [] {
        Regroup4(Joined(texts), [','], more[0], [','], JoinTexts(more[1..]));
      }
    }
  }

  lemma Regroup4(a: string, b: string, c: string, d: string, e: string)
    ensures a + b + c + d + e == a + b + (c + d + e)
  {
  }

  lemma JoinedStep(before: string, texts: seq<string>, k: nat)
    requires k < |texts|
    ensures before + Joined(texts[..k]) + (if k > 0 then [','] else []) + texts[k] == before + Joined(texts[..k + 1])
  {
    assert texts[..k + 1][..k] == texts[..k];
    Regroup(before, Joined(texts[..k]), if k > 0 then [','] else [], texts[k]);
  }

  lemma JoinedAll(before: string, texts: seq<string>, after: string)
    ensures before + Joined(texts[..|texts|]) + after == before + JoinTexts(texts) + after
  {
    assert texts[..|texts|] == texts;
    JoinedIsJoin(texts);
  }

  lemma JoinedIsJoin(texts: seq<string>)
    ensures Joined(texts) == JoinTexts(texts)
  {
    if texts != [] {
      assert [texts[0]] + texts[1..] == texts;
      assert [texts[0]][..0] == [] && Joined([texts[0]]) == texts[0];
      JoinedFront([texts[0]], texts[1..]);
    }
  }

  // Appends the canonical form of values to a text.
  class Writer {
    var output: string

    constructor ()
      ensures output == ""
    {
      output := "";
    }

    method WriteString(s: string)
      modifies this
      ensures output == old(output) + Quoted(s)
    {
      ghost var start := output + ['\"'];
      output := output + ['\"'];
      assert s[..0] == [];
      for k := 0 to |s|
        invariant output == start + EscapeText(s[..k])
      {
        output := output + EscapeChar(s[k]);
        EscapeStep(start, s, k);
      }
      output := output + ['\"'];
      QuotedWhole(old(output), s);
    }

    method WriteValue(v: CanonicalValue)
      modifies this
      ensures output == old(output) + Write(v)
      decreases v, 1
    {
      match v
      case Null => output := output + "null";
      case Bool(b) => output := output + if b then "true" else "false";
      case Integer(n) => output := output + ToDecimal(NumberOf(n));
      case Text(s) => WriteString(s);
      case Array(items) => WriteArray(items);
      case Object(entries) => WriteObject(entries);
    }

    method WriteArray(items: seq<CanonicalValue>)
      modifies this
      ensures output == old(output) + (['['] + JoinTexts(WriteAll(items)) + [']'])
      decreases items, 0
    {
      ghost var texts, start := WriteAll(items), output + ['['];
      hide Joined, JoinTexts, Write, WriteAll;
      output := output + ['['];
      JoinedNothing(start, texts);
      for k := 0 to |items|
        invariant output == start + Joined(texts[..k])
      {
        if k > 0 {
          output := output + [','];
        }
        WriteValue(items[k]);
        JoinedStep(start, texts, k);
      }
      output := output + [']'];
      JoinedAll(start, texts, [']']);
      Regroup(old(output), ['['], JoinTexts(texts), [']']);
    }

    method WriteMember(e: Entry)
      modifies this
      ensures output == old(output) + MemberText(MemberOf(e))
      decreases e, 2
    {
      WriteString(e.key);
      output := output + [':'];
      WriteValue(e.value);
      Regroup(old(output), Quoted(e.key), [':'], Write(e.value));
    }

    /** The members in UTF-16 order of their keys. */
    method WriteObject(entries: seq<Entry>)
      modifies this
      ensures output == old(output) + (['{'] + JoinTexts(MemberTexts(SortByKey(MemberKey, Members(entries)))) + ['}'])
      decreases entries, 0
    {
      var sorted := SortByKey(EntryKey, entries);
      ghost var texts, start := MemberTexts(SortByKey(MemberKey, Members(entries))), output + ['{'];
      SortedEntries(entries);
      hide Joined, JoinTexts, Write, Members, SortByKey, MemberText;
      output := output + ['{'];
      JoinedNothing(start, texts);
      for k := 0 to |sorted|
        invariant output == start + Joined(texts[..k])
      {
        if k > 0 {
          output := output + [','];
        }
        ghost var j := SortedEntryAt(entries, k);
        WriteMember(sorted[k]);
        JoinedStep(start, texts, k);
      }
      output := output + ['}'];
      JoinedAll(start, texts, ['}']);
      Regroup(old(output), ['{'], JoinTexts(texts), ['}']);
    }
  }

  lemma JoinedNothing(start: string, texts: seq<string>)
    ensures start + Joined(texts[..0]) == start
  {
  }

  lemma EscapeStep(start: string, s: string, k: nat)
    requires k < |s|
    ensures start + EscapeText(s[..k]) + EscapeChar(s[k]) == start + EscapeText(s[..k + 1])
  {
    EscapeAppend(s[..k], s[k]);
    assert s[..k] + [s[k]] == s[..k + 1];
  }

  lemma {:induction false} EscapeAppend(s: string, c: char)
    ensures EscapeText(s + [c]) == EscapeText(s) + EscapeChar(c)
  {
    if s == [] {
      assert [c][1..] == [] && s + [c] == [c];
    } else {
      EscapeAppend(s[1..], c);
      assert (s + [c])[1..] == s[1..] + [c];
      Regroup3(EscapeChar(s[0]), EscapeText(s[1..]), EscapeChar(c));
    }
  }

  lemma Regroup3(a: string, b: string, c: string)
    ensures a + (b + c) == a + b + c
  {
  }

  lemma QuotedWhole(before: string, s: string)
    ensures before + ['\"'] + EscapeText(s[..|s|]) + ['\"'] == before + Quoted(s)
  {
    assert s[..|s|] == s;
  }

  lemma Regroup(a: string, b: string, c: string, d: string)
    ensures a + b + c + d == a + (b + c + d)
  {
  }

  function EntryKey(e: Entry): string {
    SortText(e.key)
  }

  function MemberOf(e: Entry): Member {
    Member(e.key, Write(e.value))
  }

  lemma {:induction false} InsertCommutes(e: Entry, entries: seq<Entry>)
    ensures Members(InsertByKey(EntryKey, e, entries)) == InsertByKey(MemberKey, MemberOf(e), Members(entries))
  {
    if entries != [] && StrLess(EntryKey(entries[0]), EntryKey(e)) {
      InsertCommutes(e, entries[1..]);
      assert Members(entries)[1..] == Members(entries[1..]);
    }
  }

  /** Sorting entries and writing them is writing them and sorting the members. */
  lemma {:induction false} SortedEntries(entries: seq<Entry>)
    ensures Members(SortByKey(EntryKey, entries)) == SortByKey(MemberKey, Members(entries))
    ensures |SortByKey(EntryKey, entries)| == |entries|
  {
    SortIsPermutation(EntryKey, entries);
    assert |multiset(SortByKey(EntryKey, entries))| == |multiset(entries)|;
    if entries != [] {
      SortedEntries(entries[1..]);
      assert Members(entries)[1..] == Members(entries[1..]);
      InsertCommutes(entries[0], SortByKey(EntryKey, entries[1..]));
    }
  }

  /** Every sorted entry is one of the entries. */
  lemma SortedEntryAt(entries: seq<Entry>, k: nat) returns (j: nat)
    requires k < |SortByKey(EntryKey, entries)|
    ensures j < |entries| && entries[j] == SortByKey(EntryKey, entries)[k]
  {
    var sorted := SortByKey(EntryKey, entries);
    SortIsPermutation(EntryKey, entries);
    assert sorted[k] in multiset(entries);
    j :| 0 <= j < |entries| && entries[j] == sorted[k];
  }
}
