// The canonical form is unambiguous: a reader recovers from it the value that was
// written, so that two values with the same canonical form are the same value.
module CanonicalReading {
  import opened Prelude
  import opened Ast
  import opened Tokens
  import opened Normalization
  import opened CanonicalJson

  /** What a canonical form says: numbers without their tags, objects as maps. */
  datatype Json =
    | JsonNull
    | JsonBool(truth: bool)
    | JsonInteger(number: int)
    | JsonText(text: string)
    | JsonArray(items: seq<Json>)
    | JsonObject(members: map<string, Json>)

  function Meaning(v: CanonicalValue): Json
    decreases v, 1
  {
    match v
    case Null => JsonNull
    case Bool(b) => JsonBool(b)
    case Integer(n) => JsonInteger(NumberOf(n))
    case Text(s) => JsonText(s)
    case Array(items) => JsonArray(Meanings(items))
    case Object(entries) => JsonObject(MeaningMap(entries))
  }

  function Meanings(items: seq<CanonicalValue>): (r: seq<Json>)
    ensures |r| == |items| && forall i :: 0 <= i < |r| ==> r[i] == Meaning(items[i])
    decreases items, 0
  {
    if items == [] then [] else [Meaning(items[0])] + Meanings(items[1..])
  }

  function MeaningMap(entries: seq<Entry>): map<string, Json>
    decreases entries, 0
  {
    if entries == [] then map[] else MeaningMap(entries[1..])[entries[0].key := Meaning(entries[0].value)]
  }

  lemma {:induction false} MapOfEntries(entries: seq<Entry>, i: nat)
    requires Distinct(Keys(entries)) && i < |entries|
    ensures entries[i].key in MeaningMap(entries) && MeaningMap(entries)[entries[i].key] == Meaning(entries[i].value)
  {
    if i > 0 {
      assert Keys(entries)[1..] == Keys(entries[1..]);
      MapOfEntries(entries[1..], i - 1);
      assert Keys(entries)[0] != Keys(entries)[i];
    }
  }

  lemma {:induction false} MapKeys(entries: seq<Entry>, key: string)
    ensures key in MeaningMap(entries) <==> exists i :: 0 <= i < |entries| && entries[i].key == key
  {
    if entries != [] {
      MapKeys(entries[1..], key);
      if key in MeaningMap(entries[1..]) {
        var i :| 0 <= i < |entries| - 1 && entries[1..][i].key == key;
        assert entries[i + 1].key == key;
      }
    }
  }

  // ---------- the reader ----------

  datatype Read<T> = Got(value: T, rest: string) | Failed

  predicate StartsDigit(s: string) {
    s != [] && IsDigit(s[0])
  }

  function HexValue(c: char): nat {
    if '0' <= c <= '9' then c as nat - '0' as nat else if 'a' <= c <= 'f' then c as nat - 'a' as nat + 10 else 0
  }

  /** One character of a string, and how many it takes. */
  function ReadChar(s: string): Option<(char, nat)> {
    if s == [] then None
    else if s[0] != '\\' then Some((s[0], 1))
    else if |s| < 2 then None
    else if s[1] == '\"' then Some(('\"', 2))
    else if s[1] == '\\' then Some(('\\', 2))
    else if s[1] == 'b' then Some((8 as char, 2))
    else if s[1] == 't' then Some((9 as char, 2))
    else if s[1] == 'n' then Some((10 as char, 2))
    else if s[1] == 'f' then Some((12 as char, 2))
    else if s[1] == 'r' then Some((13 as char, 2))
    else if s[1] == 'u' && |s| >= 6 then Some(((HexValue(s[4]) * 16 + HexValue(s[5])) as char, 6))
    else None
  }

  /** The characters up to the closing quote. */
  function ReadText(s: string): (r: Read<string>)
    ensures r.Got? ==> |r.rest| < |s|
    decreases |s|
  {
    if s == [] then Failed
    else if s[0] == '\"' then Got([], s[1..])
    else
      match ReadChar(s)
      case None => Failed
      case Some((c, n)) =>
        if n > |s| || n == 0 then Failed
        else
          match ReadText(s[n..])
          case Failed => Failed
          case Got(text, rest) => Got([c] + text, rest)
  }

  function ReadInteger(s: string): (r: Read<Json>)
    ensures r.Got? ==> |r.rest| < |s|
  {
    if s == [] then Failed
    else if s[0] == '-' then
      var d := DigitPrefix(s[1..]);
      if d == [] then Failed else Got(JsonInteger(0 - DigitsValue(d)), s[1 + |d|..])
    else
      var d := DigitPrefix(s);
      if d == [] then Failed else Got(JsonInteger(DigitsValue(d)), s[|d|..])
  }

  function ReadValue(s: string): (r: Read<Json>)
    ensures r.Got? ==> |r.rest| < |s|
    decreases |s|, 1
  {
    if s == [] then Failed
    else if s[0] == 'n' then if |s| >= 4 then Got(JsonNull, s[4..]) else Failed
    else if s[0] == 't' then if |s| >= 4 then Got(JsonBool(true), s[4..]) else Failed
    else if s[0] == 'f' then if |s| >= 5 then Got(JsonBool(false), s[5..]) else Failed
    else if s[0] == '\"' then
      (match ReadText(s[1..])
       case Failed => Failed
       case Got(text, rest) => Got(JsonText(text), rest))
    else if s[0] == '[' then
      if |s| > 1 && s[1] == ']' then Got(JsonArray([]), s[2..])
      else
        (match ReadItems(s[1..])
         case Failed => Failed
         case Got(items, rest) => Got(JsonArray(items), rest))
    else if s[0] == '{' then
      if |s| > 1 && s[1] == '}' then Got(JsonObject(map[]), s[2..])
      else
        (match ReadMembers(s[1..])
         case Failed => Failed
         case Got(members, rest) => Got(JsonObject(members), rest))
    else ReadInteger(s)
  }

  function ReadItems(s: string): (r: Read<seq<Json>>)
    ensures r.Got? ==> |r.rest| < |s|
    decreases |s|, 2
  {
    match ReadValue(s)
    case Failed => Failed
    case Got(first, rest) =>
      if rest == [] then Failed
      else if rest[0] == ']' then Got([first], rest[1..])
      else if rest[0] == ',' then
        (match ReadItems(rest[1..])
         case Failed => Failed
         case Got(more, rest') => Got([first] + more, rest'))
      else Failed
  }

  function ReadMembers(s: string): (r: Read<map<string, Json>>)
    ensures r.Got? ==> |r.rest| < |s|
    decreases |s|, 2
  {
    if s == [] || s[0] != '\"' then Failed
    else
      match ReadText(s[1..])
      case Failed => Failed
      case Got(key, r1) =>
        if r1 == [] || r1[0] != ':' then Failed
        else
          match ReadValue(r1[1..])
          case Failed => Failed
          case Got(value, r2) =>
            if r2 == [] then Failed
            else if r2[0] == '}' then Got(map[key := value], r2[1..])
            else if r2[0] == ',' then
              (match ReadMembers(r2[1..])
               case Failed => Failed
               case Got(more, r3) => Got(more[key := value], r3))
            else Failed
  }

  // ---------- texts and integers ----------

  lemma EscapeReads(c: char, rest: string)
    ensures EscapeChar(c) != [] && EscapeChar(c)[0] != '\"'
    ensures ReadChar(EscapeChar(c) + rest) == Some((c, |EscapeChar(c)|))
  {
    var s := EscapeChar(c) + rest;
    assert forall i :: 0 <= i < |EscapeChar(c)| ==> s[i] == EscapeChar(c)[i];
    if |EscapeChar(c)| == 6 {
      HexReads(c as nat);
    }
  }

  lemma HexReads(n: nat)
    requires n < 0x20
    ensures HexValue(HexDigit(n / 16)) * 16 + HexValue(HexDigit(n % 16)) == n
  {
  }

  lemma {:induction false} TextReads(text: string, rest: string)
    ensures ReadText(EscapeText(text) + (['\"'] + rest)) == Got(text, rest)
  {
    if text == [] {
      assert EscapeText(text) + (['\"'] + rest) == ['\"'] + rest;
    } else {
      var tail := EscapeText(text[1..]) + (['\"'] + rest);
      TextReads(text[1..], rest);
      EscapeReads(text[0], tail);
      Regroup3(EscapeChar(text[0]), EscapeText(text[1..]), ['\"'] + rest);
      TextStep(EscapeChar(text[0]), tail, text[0], text[1..], rest);
      assert [text[0]] + text[1..] == text;
    }
  }

  lemma TextStep(escaped: string, tail: string, c: char, text: string, rest: string)
    requires escaped != [] && escaped[0] != '\"' && ReadChar(escaped + tail) == Some((c, |escaped|))
    requires ReadText(tail) == Got(text, rest)
    ensures ReadText(escaped + tail) == Got([c] + text, rest)
  {
    var s := escaped + tail;
    assert s[0] == escaped[0] && s[|escaped|..] == tail;
  }

  /** A quoted text at the front is read up to its closing quote. */
  lemma QuotedReads(text: string, rest: string)
    ensures var s := Quoted(text) + rest;
            s != [] && s[0] == '\"' && ReadText(s[1..]) == Got(text, rest)
  {
    var s := Quoted(text) + rest;
    assert s[1..] == EscapeText(text) + (['\"'] + rest);
    TextReads(text, rest);
  }

  lemma DecimalReads(n: int, rest: string)
    requires !StartsDigit(rest)
    ensures ToDecimal(n) != [] && (IsDigit(ToDecimal(n)[0]) || ToDecimal(n)[0] == '-')
    ensures ReadInteger(ToDecimal(n) + rest) == Got(JsonInteger(n), rest)
  {
    var m := Abs(n);
    DigitsRoundTrip(m);
    DigitsStop(Digits(m), rest);
    assert IsDigit(Digits(m)[0]);
    if n < 0 {
      NegativeReads(Digits(m), rest);
    } else {
      NaturalReads(Digits(m), rest);
    }
  }

  lemma NegativeReads(d: string, rest: string)
    requires d != [] && AllDigits(d) && DigitPrefix(d + rest) == d
    ensures ReadInteger("-" + d + rest) == Got(JsonInteger(0 - DigitsValue(d)), rest)
  {
    var s := "-" + d + rest;
    assert s[0] == '-' && s[1..] == d + rest;
    assert s[1 + |d|..] == rest;
  }

  lemma NaturalReads(d: string, rest: string)
    requires d != [] && AllDigits(d) && DigitPrefix(d + rest) == d
    ensures ReadInteger(d + rest) == Got(JsonInteger(DigitsValue(d)), rest)
  {
    var s := d + rest;
    assert IsDigit(d[0]) && s[0] == d[0];
    assert s[|d|..] == rest;
  }

  lemma {:induction false} DigitsStop(d: string, rest: string)
    requires AllDigits(d) && !StartsDigit(rest)
    ensures DigitPrefix(d + rest) == d
  {
    if d == [] {
      assert d + rest == rest;
    } else {
      DigitsStop(d[1..], rest);
      assert (d + rest)[1..] == d[1..] + rest;
      assert [d[0]] + d[1..] == d;
    }
  }

  // ---------- values ----------

  /** A text that is read as a value wherever no digit follows. */
  ghost predicate Reads(text: string, j: Json) {
    forall rest: string :: !StartsDigit(rest) ==> ReadValue(text + rest) == Got(j, rest)
  }

  lemma ReadsWith(text: string, j: Json, rest: string)
    requires Reads(text, j) && !StartsDigit(rest)
    ensures ReadValue(text + rest) == Got(j, rest)
  {
  }

  lemma {:induction false} WrittenReads(v: CanonicalValue)
    requires WellKeyed(v)
    ensures Reads(Write(v), Meaning(v))
    decreases v, 1
  {
    forall rest: string | !StartsDigit(rest) ensures ReadValue(Write(v) + rest) == Got(Meaning(v), rest) {
      match v
      case Null => WordReads("null", rest);
      case Bool(b) => WordReads(if b then "true" else "false", rest);
      case Integer(n) => IntegerReads(NumberOf(n), rest);
      case Text(s) => QuotedReads(s, rest);
      case Array(items) =>
        AllReads(items);
        ArrayReads(WriteAll(items), Meanings(items), rest);
      case Object(entries) =>
        MembersRead(entries);
        ObjectReads(entries, rest);
    }
  }

  lemma WordReads(word: string, rest: string)
    requires word == "null" || word == "true" || word == "false"
    ensures ReadValue(word + rest) ==
            Got(if word == "null" then JsonNull else JsonBool(word == "true"), rest)
  {
    assert (word + rest)[0] == word[0] && (word + rest)[|word|..] == rest;
  }

  lemma IntegerReads(n: int, rest: string)
    requires !StartsDigit(rest)
    ensures ReadValue(ToDecimal(n) + rest) == Got(JsonInteger(n), rest)
  {
    DecimalReads(n, rest);
    assert (ToDecimal(n) + rest)[0] == ToDecimal(n)[0];
  }

  lemma {:induction false} AllReads(items: seq<CanonicalValue>)
    requires AllWellKeyed(items)
    ensures forall i :: 0 <= i < |items| ==> Reads(Write(items[i]), Meaning(items[i]))
    decreases items, 0
  {
    forall i | 0 <= i < |items| ensures Reads(Write(items[i]), Meaning(items[i])) {
      WrittenReads(items[i]);
    }
  }

  lemma {:induction false} MembersRead(entries: seq<Entry>)
    requires MembersWellKeyed(entries)
    ensures forall i :: 0 <= i < |entries| ==> Reads(Write(entries[i].value), Meaning(entries[i].value))
    decreases entries, 0
  {
    forall i | 0 <= i < |entries| ensures Reads(Write(entries[i].value), Meaning(entries[i].value)) {
      WrittenReads(entries[i].value);
    }
  }

  // ---------- arrays ----------

  /** A text that is read does not start with a bracket that would close an empty list. */
  lemma ReadTextStarts(text: string, j: Json, rest: string)
    requires Reads(text, j)
    ensures text != [] && text[0] != ']' && text[0] != '}'
  {
    var s := text + [','];
    assert !StartsDigit([',']);
    ReadsWith(text, j, [',']);
    NoValueStarts(s);
    assert s[0] == if text == [] then ',' else text[0];
  }

  lemma NoValueStarts(s: string)
    requires s != []
    ensures s[0] == ',' || s[0] == ']' || s[0] == '}' ==> ReadValue(s) == Failed
  {
  }

  lemma {:induction false} ItemsRead(texts: seq<string>, items: seq<Json>, rest: string)
    requires |texts| == |items| > 0 && forall i :: 0 <= i < |texts| ==> Reads(texts[i], items[i])
    ensures ReadItems(JoinTexts(texts) + ([']'] + rest)) == Got(items, rest)
    decreases |texts|
  {
    if |texts| == 1 {
      ReadsWith(texts[0], items[0], [']'] + rest);
      assert items == [items[0]];
      assert ([']'] + rest)[1..] == rest;
    } else {
      var more := JoinTexts(texts[1..]) + ([']'] + rest);
      ItemsRead(texts[1..], items[1..], rest);
      JoinFirst(texts, [']'] + rest);
      ReadsWith(texts[0], items[0], [','] + more);
      ItemStep(texts[0], items[0], more, items[1..], rest);
      assert [items[0]] + items[1..] == items;
    }
  }

  lemma JoinFirst(texts: seq<string>, tail: string)
    requires |texts| > 1
    ensures JoinTexts(texts) + tail == texts[0] + ([','] + (JoinTexts(texts[1..]) + tail))
  {
    Regroup2(texts[0], [','], JoinTexts(texts[1..]), tail);
  }

  lemma Regroup2(a: string, b: string, c: string, d: string)
    ensures a + b + c + d == a + (b + (c + d))
  {
  }

  lemma ItemStep(text: string, first: Json, more: string, items: seq<Json>, rest: string)
    requires ReadValue(text + ([','] + more)) == Got(first, [','] + more) && ReadItems(more) == Got(items, rest)
    ensures ReadItems(text + ([','] + more)) == Got([first] + items, rest)
  {
    assert ([','] + more)[1..] == more;
  }

  lemma ArrayReads(texts: seq<string>, items: seq<Json>, rest: string)
    requires |texts| == |items| && forall i :: 0 <= i < |texts| ==> Reads(texts[i], items[i])
    ensures ReadValue(['['] + JoinTexts(texts) + [']'] + rest) == Got(JsonArray(items), rest)
  {
    var s := ['['] + JoinTexts(texts) + [']'] + rest;
    assert s[1..] == JoinTexts(texts) + ([']'] + rest);
    if texts == [] {
      assert s[1] == ']' && s[2..] == rest;
    } else {
      ReadTextStarts(texts[0], items[0], []);
      JoinStarts(texts);
      assert s[1] == JoinTexts(texts)[0];
      ItemsRead(texts, items, rest);
    }
  }

  lemma JoinStarts(texts: seq<string>)
    requires texts != [] && texts[0] != []
    ensures JoinTexts(texts) != [] && JoinTexts(texts)[0] == texts[0][0]
  {
  }

  // ---------- objects ----------

  /** Members whose texts are read as what a map says of their keys. */
  ghost predicate MembersMean(members: seq<Member>, m: map<string, Json>) {
    forall i :: 0 <= i < |members| ==> members[i].key in m && Reads(members[i].text, m[members[i].key])
  }

  function MemberNames(members: seq<Member>): set<string> {
    set x | x in members :: x.key
  }

  lemma MemberNamesStep(members: seq<Member>)
    requires members != []
    ensures MemberNames(members) == {members[0].key} + MemberNames(members[1..])
  {
    assert members == [members[0]] + members[1..];
  }

  function Restricted(m: map<string, Json>, keys: set<string>): map<string, Json> {
    map k | k in keys && k in m :: m[k]
  }

  lemma MemberReads(x: Member, j: Json, rest: string)
    requires Reads(x.text, j) && !StartsDigit(rest)
    ensures var s := MemberText(x) + rest;
            && s != [] && s[0] == '\"'
            && ReadText(s[1..]) == Got(x.key, [':'] + (x.text + rest))
            && ReadValue(x.text + rest) == Got(j, rest)
  {
    var s := MemberText(x) + rest;
    Regroup2(Quoted(x.key), [':'], x.text, rest);
    QuotedReads(x.key, [':'] + (x.text + rest));
    ReadsWith(x.text, j, rest);
  }

  lemma {:induction false} MembersReadBack(members: seq<Member>, m: map<string, Json>, rest: string)
    requires members != [] && MembersMean(members, m)
    ensures ReadMembers(JoinTexts(MemberTexts(members)) + (['}'] + rest)) == Got(Restricted(m, MemberNames(members)), rest)
    decreases |members|
  {
    var texts, first := MemberTexts(members), members[0];
    MemberNamesStep(members);
    if |members| == 1 {
      MemberReads(first, m[first.key], ['}'] + rest);
      LastMember(first, m[first.key], rest);
      assert MemberNames(members[1..]) == {};
      assert Restricted(m, MemberNames(members)) == map[first.key := m[first.key]];
    } else {
      assert texts[1..] == MemberTexts(members[1..]);
      MembersReadBack(members[1..], m, rest);
      var more := JoinTexts(texts[1..]) + (['}'] + rest);
      JoinFirst(texts, ['}'] + rest);
      MemberReads(first, m[first.key], [','] + more);
      MemberStep(first, m[first.key], more, Restricted(m, MemberNames(members[1..])), rest);
      RestrictedStep(m, MemberNames(members[1..]), first.key);
    }
  }

  lemma RestrictedStep(m: map<string, Json>, keys: set<string>, key: string)
    requires key in m
    ensures Restricted(m, keys)[key := m[key]] == Restricted(m, {key} + keys)
  {
  }

  lemma LastMember(x: Member, j: Json, rest: string)
    requires var s := MemberText(x) + (['}'] + rest);
             && s != [] && s[0] == '\"'
             && ReadText(s[1..]) == Got(x.key, [':'] + (x.text + (['}'] + rest)))
             && ReadValue(x.text + (['}'] + rest)) == Got(j, ['}'] + rest)
    ensures ReadMembers(MemberText(x) + (['}'] + rest)) == Got(map[x.key := j], rest)
  {
    assert ([':'] + (x.text + (['}'] + rest)))[1..] == x.text + (['}'] + rest);
    assert (['}'] + rest)[1..] == rest;
  }

  lemma MemberStep(x: Member, j: Json, more: string, others: map<string, Json>, rest: string)
    requires var s := MemberText(x) + ([','] + more);
             && s != [] && s[0] == '\"'
             && ReadText(s[1..]) == Got(x.key, [':'] + (x.text + ([','] + more)))
             && ReadValue(x.text + ([','] + more)) == Got(j, [','] + more)
    requires ReadMembers(more) == Got(others, rest)
    ensures ReadMembers(MemberText(x) + ([','] + more)) == Got(others[x.key := j], rest)
  {
    assert ([':'] + (x.text + ([','] + more)))[1..] == x.text + ([','] + more);
    assert ([','] + more)[1..] == more;
  }

  /** Sorting moves members around; what they mean and which keys there are stay the same. */
  lemma SortedMembersMean(entries: seq<Entry>)
    requires Distinct(Keys(entries))
    requires forall i :: 0 <= i < |entries| ==> Reads(Write(entries[i].value), Meaning(entries[i].value))
    ensures var sorted := SortByKey(MemberKey, Members(entries));
            && |sorted| == |entries| && MembersMean(sorted, MeaningMap(entries))
            && Restricted(MeaningMap(entries), MemberNames(sorted)) == MeaningMap(entries)
  {
    hide SortByKey, Reads, Write, Meaning, MeaningMap;
    var sorted := SortByKey(MemberKey, Members(entries));
    SortIsPermutation(MemberKey, Members(entries));
    PermutedMembers(Members(entries), sorted);
    forall i | 0 <= i < |sorted|
      ensures sorted[i].key in MeaningMap(entries) && Reads(sorted[i].text, MeaningMap(entries)[sorted[i].key])
    {
      assert sorted[i] in Members(entries);
      var j :| 0 <= j < |entries| && Members(entries)[j] == sorted[i];
      MapOfEntries(entries, j);
    }
    NothingLost(entries, sorted);
  }

  lemma NothingLost(entries: seq<Entry>, sorted: seq<Member>)
    requires forall x :: x in Members(entries) ==> x in sorted
    ensures Restricted(MeaningMap(entries), MemberNames(sorted)) == MeaningMap(entries)
  {
    forall key | key in MeaningMap(entries) ensures key in MemberNames(sorted) {
      MapKeys(entries, key);
      var j :| 0 <= j < |entries| && entries[j].key == key;
      assert Members(entries)[j] in sorted;
    }
  }

  lemma ObjectReads(entries: seq<Entry>, rest: string)
    requires Distinct(Keys(entries))
    requires forall i :: 0 <= i < |entries| ==> Reads(Write(entries[i].value), Meaning(entries[i].value))
    ensures ReadValue(Write(Object(entries)) + rest) == Got(JsonObject(MeaningMap(entries)), rest)
  {
    var sorted := SortByKey(MemberKey, Members(entries));
    SortedMembersMean(entries);
    ObjectTextReads(sorted, MeaningMap(entries), rest);
  }

  lemma ObjectTextReads(sorted: seq<Member>, m: map<string, Json>, rest: string)
    requires MembersMean(sorted, m) && Restricted(m, MemberNames(sorted)) == m
    ensures ReadValue(['{'] + JoinTexts(MemberTexts(sorted)) + ['}'] + rest) == Got(JsonObject(m), rest)
  {
    var text := JoinTexts(MemberTexts(sorted));
    if sorted == [] {
      assert MemberNames(sorted) == {};
      NoMembers(text, rest);
    } else {
      assert MemberText(sorted[0])[0] == '\"';
      JoinStarts(MemberTexts(sorted));
      MembersReadBack(sorted, m, rest);
      SomeMembers(text, m, rest);
    }
  }

  lemma NoMembers(text: string, rest: string)
    requires text == []
    ensures ReadValue(['{'] + text + ['}'] + rest) == Got(JsonObject(map[]), rest)
  {
    var s := ['{'] + text + ['}'] + rest;
    assert s[1] == '}' && s[2..] == rest;
  }

  lemma SomeMembers(text: string, m: map<string, Json>, rest: string)
    requires text != [] && text[0] == '\"' && ReadMembers(text + (['}'] + rest)) == Got(m, rest)
    ensures ReadValue(['{'] + text + ['}'] + rest) == Got(JsonObject(m), rest)
  {
    hide ReadMembers;
    var s := ['{'] + text + ['}'] + rest;
    BehindBrace(text, rest);
    assert s[1] == text[0];
  }

  lemma BehindBrace(text: string, rest: string)
    ensures (['{'] + text + ['}'] + rest)[1..] == text + (['}'] + rest)
  {
  }

  // ---------- the theorems ----------

  /** Reading the canonical form of a value gives back what the value says. */
  lemma CanonicalFormReads(v: CanonicalValue)
    requires WellKeyed(v)
    ensures ReadValue(Write(v)) == Got(Meaning(v), "")
  {
    WrittenReads(v);
    ReadsWith(Write(v), Meaning(v), "");
    assert Write(v) + "" == Write(v);
  }

  /** Two values have the same canonical form only if they say the same, up to the tags of integers. */
  lemma CanonicalFormIsUnambiguous(v: CanonicalValue, w: CanonicalValue)
    requires WellKeyed(v) && WellKeyed(w) && Write(v) == Write(w)
    ensures Meaning(v) == Meaning(w)
  {
    CanonicalFormReads(v);
    CanonicalFormReads(w);
  }
}
