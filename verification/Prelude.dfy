// Shared vocabulary: options and results, 64-bit arithmetic, strings as the
// source orders and spells them, and stable sorting by a string key.
module Prelude {

  datatype Option<+T> = None | Some(value: T)

  datatype Result<+T, +E> = Ok(value: T) | Err(error: E)

  // ---------- 64-bit integers ----------

  const I64_MIN: int := -0x8000_0000_0000_0000
  const I64_MAX: int := 0x7FFF_FFFF_FFFF_FFFF
  const U64_MAX: int := 0xFFFF_FFFF_FFFF_FFFF

  type i64 = n: int | I64_MIN <= n <= I64_MAX

  type u64 = n: int | 0 <= n <= U64_MAX

  predicate InI64(n: int) {
    I64_MIN <= n <= I64_MAX
  }

  function Abs(n: int): (r: nat)
    ensures r == n || r == -n
  {
    if n < 0 then -n else n
  }

  function Max(a: nat, b: nat): nat {
    if a < b then b else a
  }

  /** Integer division rounding toward zero. */
  function TruncDiv(a: int, b: int): int
    requires b != 0
  {
    if (a < 0) == (b < 0) then Abs(a) / Abs(b) else -(Abs(a) / Abs(b))
  }

  /** The remainder that goes with TruncDiv: it takes the sign of the dividend. */
  function TruncRem(a: int, b: int): int
    requires b != 0
  {
    if a < 0 then -(Abs(a) % Abs(b)) else Abs(a) % Abs(b)
  }

  lemma QuotientRemainder(x: nat, y: nat)
    requires y > 0
    ensures (x / y) * y + x % y == x
    ensures x / y <= x
    ensures y >= 2 ==> 2 * (x / y) <= x
  {
    var q := x / y;
    if y >= 2 {
      assert q * y >= q * 2;
    } else {
      assert y == 1 && q * y == q;
    }
  }

  lemma TruncDivRem(a: int, b: int)
    requires b != 0
    ensures TruncDiv(a, b) * b + TruncRem(a, b) == a
    ensures Abs(TruncRem(a, b)) < Abs(b)
    ensures TruncRem(a, b) == 0 || (TruncRem(a, b) < 0) == (a < 0)
  {
    var x: int, y: int := Abs(a), Abs(b);
    QuotientRemainder(x, y);
    var q: int := x / y;
    assert q * (0 - y) == 0 - q * y;
    assert (0 - q) * y == 0 - q * y;
    assert (0 - q) * (0 - y) == q * y;
  }

  function CheckedNeg(a: i64): Option<i64> {
    if InI64(0 - a) then Some(0 - a) else None
  }

  function CheckedAdd(a: i64, b: i64): Option<i64> {
    if InI64(a + b) then Some(a + b) else None
  }

  function CheckedSub(a: i64, b: i64): Option<i64> {
    if InI64(a - b) then Some(a - b) else None
  }

  function CheckedMul(a: i64, b: i64): Option<i64> {
    if InI64(a * b) then Some(a * b) else None
  }

  /** The divisions the hardware cannot perform: by zero, and the one quotient outside i64. */
  predicate DivisionFails(a: i64, b: i64) {
    b == 0 || (a == I64_MIN && b == -1)
  }

  lemma TruncDivFits(a: i64, b: i64)
    requires !DivisionFails(a, b)
    ensures InI64(TruncDiv(a, b)) && InI64(TruncRem(a, b))
  {
    QuotientRemainder(Abs(a), Abs(b));
    TruncDivRem(a, b);
  }

  function CheckedDiv(a: i64, b: i64): Option<i64> {
    if DivisionFails(a, b) then None
    else
      TruncDivFits(a, b);
      Some(TruncDiv(a, b))
  }

  function CheckedRem(a: i64, b: i64): Option<i64> {
    if DivisionFails(a, b) then None
    else
      TruncDivFits(a, b);
      Some(TruncRem(a, b))
  }

  // ---------- decimal text ----------

  predicate IsDigit(c: char) {
    '0' <= c <= '9'
  }

  predicate AllDigits(s: string) {
    forall i :: 0 <= i < |s| ==> IsDigit(s[i])
  }

  /** Decimal digits of a natural number, without leading zeros. */
  function Digits(n: nat): (s: string)
    ensures s != [] && AllDigits(s)
    ensures n > 0 ==> s[0] != '0'
  {
    var last := ('0' as int + n % 10) as char;
    if n < 10 then [last] else Digits(n / 10) + [last]
  }

  /** The value of a digit string, read from the left. */
  function DigitsValue(s: string): nat
    requires AllDigits(s)
  {
    if s == [] then 0
    else DigitsValue(s[..|s| - 1]) * 10 + (s[|s| - 1] as int - '0' as int)
  }

  lemma {:induction false} DigitsRoundTrip(n: nat)
    ensures DigitsValue(Digits(n)) == n
  {
    if n >= 10 {
      DigitsRoundTrip(n / 10);
      var s := Digits(n);
      assert s[..|s| - 1] == Digits(n / 10);
    } else {
      assert Digits(n)[..0] == [];
    }
  }

  /** The spelling that the i64 formatter gives a number. */
  function ToDecimal(n: int): string {
    if n < 0 then "-" + Digits(0 - n) else Digits(n)
  }

  /** Parsing decimal text as i64: an optional sign, at least one digit, in range. */
  function ParseI64(s: string): Option<i64> {
    if s == [] then None
    else if s[0] == '-' then
      if |s| > 1 && AllDigits(s[1..]) && InI64(0 - DigitsValue(s[1..])) then Some(0 - DigitsValue(s[1..])) else None
    else
      var body := if s[0] == '+' then s[1..] else s;
      if body != [] && AllDigits(body) && InI64(DigitsValue(body)) then Some(DigitsValue(body)) else None
  }

  lemma ParseDigits(body: string, n: nat)
    requires body != [] && AllDigits(body) && DigitsValue(body) == n
    ensures InI64(n) ==> ParseI64(body) == Some(n)
    ensures InI64(0 - n) ==> ParseI64("-" + body) == Some(0 - n)
  {
    assert IsDigit(body[0]);
    var signed := "-" + body;
    assert signed[1..] == body;
  }

  /** Every i64 survives the trip through its decimal spelling. */
  lemma DecimalRoundTrip(n: i64)
    ensures ParseI64(ToDecimal(n)) == Some(n)
  {
    var m := Abs(n);
    DigitsRoundTrip(m);
    ParseDigits(Digits(m), m);
  }

  // ---------- identifiers ----------

  predicate IsLetter(c: char) {
    'a' <= c <= 'z' || 'A' <= c <= 'Z' || c == '_'
  }

  predicate IsIdentifierTail(s: string) {
    forall i :: 0 <= i < |s| ==> IsLetter(s[i]) || IsDigit(s[i])
  }

  predicate IsIdentifier(s: string) {
    s != [] && IsLetter(s[0]) && IsIdentifierTail(s)
  }

  // ---------- string order ----------

  /** Lexicographic order on strings. */
  predicate StrLess(a: string, b: string) {
    if b == [] then false
    else if a == [] then true
    else a[0] < b[0] || (a[0] == b[0] && StrLess(a[1..], b[1..]))
  }

  lemma {:induction false} StrLessTotal(a: string, b: string)
    ensures !(StrLess(a, b) && StrLess(b, a))
    ensures StrLess(a, b) || StrLess(b, a) || a == b
    ensures !StrLess(a, a)
  {
    if a != [] && b != [] {
      StrLessTotal(a[1..], b[1..]);
      StrLessTotal(a[1..], a[1..]);
      if a[0] == b[0] && a[1..] == b[1..] {
        assert a == [a[0]] + a[1..] == b;
      }
    } else if a != [] {
      StrLessTotal(a[1..], a[1..]);
    }
  }

  lemma {:induction false} StrLessTransitive(a: string, b: string, c: string)
    requires StrLess(a, b) && StrLess(b, c)
    ensures StrLess(a, c)
  {
    if a != [] && a[0] == b[0] == c[0] {
      StrLessTransitive(a[1..], b[1..], c[1..]);
    }
  }

  /** Neighbours strictly increase, which is how the source tests sortedness. */
  predicate StrictlySorted(s: seq<string>) {
    forall i :: 0 <= i < |s| - 1 ==> StrLess(s[i], s[i + 1])
  }

  predicate Distinct<T(==)>(s: seq<T>) {
    forall i, j :: 0 <= i < j < |s| ==> s[i] != s[j]
  }
}
