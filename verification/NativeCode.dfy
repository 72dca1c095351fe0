// The target of joan-native: straight-line code over 64-bit values in single
// assignment, with conditional exits that return a status, calls that return a
// status and a value, and one fuel cell shared by all frames through a pointer.
module NativeCode {
  import opened Prelude

  const TWO_64: int := 0x1_0000_0000_0000_0000

  const STATUS_OK: i64 := 0
  const STATUS_BUDGET_EXHAUSTED: i64 := 1
  const STATUS_NEGATION_OVERFLOW: i64 := 2
  const STATUS_ADDITION_FAILED: i64 := 3
  const STATUS_SUBTRACTION_FAILED: i64 := 4
  const STATUS_MULTIPLICATION_FAILED: i64 := 5
  const STATUS_DIVISION_FAILED: i64 := 6
  const STATUS_REMAINDER_FAILED: i64 := 7

  // ---------- machine arithmetic ----------

  /** The 64-bit pattern of an integer, read as a signed value. */
  function Wrap(n: int): i64 {
    (n - I64_MIN) % TWO_64 + I64_MIN
  }

  lemma WrapFits(n: int)
    requires InI64(n)
    ensures Wrap(n) == n
  {
  }

  /** How an unsigned counter looks to signed instructions. */
  function Pattern(n: u64): i64 {
    if n <= I64_MAX then n else n - TWO_64
  }

  lemma PatternCountsDown(n: u64)
    ensures Pattern(n) == 0 <==> n == 0
    ensures n > 0 ==> Wrap(Pattern(n) - 1) == Pattern(n - 1)
  {
  }

  // Two's complement, bit by bit; halving rounds down, so the sign extends for ever.
  function BitAnd(a: int, b: int): int
    decreases Abs(a) + Abs(b)
  {
    if -1 <= a <= 0 && -1 <= b <= 0 then (if a == -1 && b == -1 then -1 else 0)
    else 2 * BitAnd(a / 2, b / 2) + (a % 2) * (b % 2)
  }

  function BitOr(a: int, b: int): int
    decreases Abs(a) + Abs(b)
  {
    if -1 <= a <= 0 && -1 <= b <= 0 then (if a == -1 || b == -1 then -1 else 0)
    else 2 * BitOr(a / 2, b / 2) + (if a % 2 == 0 && b % 2 == 0 then 0 else 1)
  }

  function BitXor(a: int, b: int): int
    decreases Abs(a) + Abs(b)
  {
    if -1 <= a <= 0 && -1 <= b <= 0 then (if a != b then -1 else 0)
    else 2 * BitXor(a / 2, b / 2) + (if a % 2 == b % 2 then 0 else 1)
  }

  predicate IsFlag(n: int) {
    n == 0 || n == 1
  }

  function Flag(b: bool): (n: i64)
    ensures IsFlag(n)
  {
    if b then 1 else 0
  }

  /** On canonical booleans the bitwise operations are the logical ones. */
  lemma {:induction false} FlagBits(a: bool, b: bool)
    ensures BitAnd(Flag(a), Flag(b)) == Flag(a && b)
    ensures BitOr(Flag(a), Flag(b)) == Flag(a || b)
    ensures BitXor(Flag(a), 1) == Flag(!a)
  {
    assert BitAnd(0, 0) == 0 && BitOr(0, 0) == 0 && BitXor(0, 0) == 0;
    assert Flag(a) / 2 == 0 && Flag(b) / 2 == 0 && 1 / 2 == 0;
  }

  // ---------- instructions ----------

  datatype Condition = IsEqual | IsNotEqual | SignedLess | SignedLessOrEqual | SignedGreater | SignedGreaterOrEqual

  function Test(c: Condition, a: i64, b: i64): bool {
    match c
    case IsEqual => a == b
    case IsNotEqual => a != b
    case SignedLess => a < b
    case SignedLessOrEqual => a <= b
    case SignedGreater => a > b
    case SignedGreaterOrEqual => a >= b
  }

  // Operands name values by the order in which they were defined.
  datatype Op =
    | LoadFuel
    | StoreFuel(v: nat)
    | Iconst(n: i64)
    | IcmpImm(cc: Condition, v: nat, n: i64)
    | Icmp(cc: Condition, a: nat, b: nat)
    | Uextend(v: nat)
    | IaddImm(v: nat, n: i64)
    | BxorImm(v: nat, n: i64)
    | Band(a: nat, b: nat)
    | Bor(a: nat, b: nat)
    | SaddOverflow(a: nat, b: nat)
    | SsubOverflow(a: nat, b: nat)
    | SmulOverflow(a: nat, b: nat)
    | Sdiv(a: nat, b: nat)
    | Srem(a: nat, b: nat)
    | ExitIf(condition: nat, status: i64)
    | PropagateIf(condition: nat, statusValue: nat)
    | CallFn(target: nat, arguments: seq<nat>)
    | ReturnOk(v: nat)

  /** How many values an instruction defines. */
  function Results(op: Op): nat {
    match op
    case StoreFuel(_) | ExitIf(_, _) | PropagateIf(_, _) | ReturnOk(_) => 0
    case SaddOverflow(_, _) | SsubOverflow(_, _) | SmulOverflow(_, _) | CallFn(_, _) => 2
    case _ => 1
  }

  datatype NativeFunction = NativeFunction(parameterCount: nat, ops: seq<Op>)

  // ---------- execution ----------

  // Ill is what well-formed code never does: an undefined operand, an unknown target, a hardware
  // trap, falling off the end, or nesting deeper than the call allowance.
  datatype NativeFlow =
    | Onward(values: seq<i64>, fuel: i64)
    | Exited(status: i64, value: i64, fuel: i64)
    | Ill

  predicate Defined(values: seq<i64>, v: nat) {
    v < |values|
  }

  predicate AllDefined(values: seq<i64>, vs: seq<nat>) {
    forall k :: 0 <= k < |vs| ==> vs[k] < |values|
  }

  function Selected(values: seq<i64>, vs: seq<nat>): (r: seq<i64>)
    requires AllDefined(values, vs)
    ensures |r| == |vs|
    ensures forall k :: 0 <= k < |vs| ==> r[k] == values[vs[k]]
  {
    seq(|vs|, k requires 0 <= k < |vs| => values[vs[k]])
  }

  predicate OperandsDefined(op: Op, values: seq<i64>) {
    match op
    case LoadFuel | Iconst(_) => true
    case StoreFuel(v) => Defined(values, v)
    case IcmpImm(_, v, _) => Defined(values, v)
    case Uextend(v) => Defined(values, v)
    case IaddImm(v, _) => Defined(values, v)
    case BxorImm(v, _) => Defined(values, v)
    case ReturnOk(v) => Defined(values, v)
    case ExitIf(c, _) => Defined(values, c)
    case PropagateIf(c, s) => Defined(values, c) && Defined(values, s)
    case CallFn(_, arguments) => AllDefined(values, arguments)
    case Icmp(_, a, b) => Defined(values, a) && Defined(values, b)
    case Band(a, b) => Defined(values, a) && Defined(values, b)
    case Bor(a, b) => Defined(values, a) && Defined(values, b)
    case SaddOverflow(a, b) => Defined(values, a) && Defined(values, b)
    case SsubOverflow(a, b) => Defined(values, a) && Defined(values, b)
    case SmulOverflow(a, b) => Defined(values, a) && Defined(values, b)
    case Sdiv(a, b) => Defined(values, a) && Defined(values, b)
    case Srem(a, b) => Defined(values, a) && Defined(values, b)
  }

  function Read(values: seq<i64>, v: nat): int
    requires Defined(values, v)
  {
    values[v]
  }

  function WithOverflow(values: seq<i64>, n: int, fuel: i64): NativeFlow {
    Onward(values + [Wrap(n), Flag(!InI64(n))], fuel)
  }

  function NativeStep(np: seq<NativeFunction>, op: Op, values: seq<i64>, fuel: i64, k: nat): NativeFlow
    decreases k, 0, 0
  {
    if !OperandsDefined(op, values) then Ill
    else
      match op
      case LoadFuel => Onward(values + [fuel], fuel)
      case StoreFuel(v) => Onward(values, values[v])
      case Iconst(n) => Onward(values + [n], fuel)
      case IcmpImm(cc, v, n) => Onward(values + [Flag(Test(cc, values[v], n))], fuel)
      case Icmp(cc, a, b) => Onward(values + [Flag(Test(cc, values[a], values[b]))], fuel)
      case Uextend(v) => Onward(values + [values[v]], fuel)
      case IaddImm(v, n) => Onward(values + [Wrap(values[v] + n)], fuel)
      case BxorImm(v, n) => Onward(values + [Wrap(BitXor(values[v], n))], fuel)
      case Band(a, b) => Onward(values + [Wrap(BitAnd(values[a], values[b]))], fuel)
      case Bor(a, b) => Onward(values + [Wrap(BitOr(values[a], values[b]))], fuel)
      case SaddOverflow(a, b) => WithOverflow(values, Read(values, a) + Read(values, b), fuel)
      case SsubOverflow(a, b) => WithOverflow(values, Read(values, a) - Read(values, b), fuel)
      case SmulOverflow(a, b) => WithOverflow(values, Read(values, a) * Read(values, b), fuel)
      case Sdiv(a, b) =>
        if DivisionFails(values[a], values[b]) then Ill
        else Onward(values + [Wrap(TruncDiv(values[a], values[b]))], fuel)
      case Srem(a, b) =>
        if values[b] == 0 then Ill else Onward(values + [Wrap(TruncRem(values[a], values[b]))], fuel)
      case ExitIf(c, status) => if values[c] != 0 then Exited(status, 0, fuel) else Onward(values, fuel)
      case PropagateIf(c, s) => if values[c] != 0 then Exited(values[s], 0, fuel) else Onward(values, fuel)
      case ReturnOk(v) => Exited(STATUS_OK, values[v], fuel)
      case CallFn(target, arguments) =>
        if k == 0 then Ill
        else
          match NativeCall(np, target, Selected(values, arguments), fuel, k - 1)
          case Exited(status, value, fuel') => Onward(values + [status, value], fuel')
          case _ => Ill
  }

  function NativeRun(np: seq<NativeFunction>, ops: seq<Op>, values: seq<i64>, fuel: i64, k: nat): NativeFlow
    decreases k, 1, |ops|
  {
    if ops == [] then Onward(values, fuel)
    else
      match NativeStep(np, ops[0], values, fuel, k)
      case Onward(values', fuel') => NativeRun(np, ops[1..], values', fuel', k)
      case stopped => stopped
  }

  /** A call defines its parameters first; k bounds how deep calls may nest. */
  function NativeCall(np: seq<NativeFunction>, f: nat, arguments: seq<i64>, fuel: i64, k: nat): NativeFlow
    decreases k, 2, 0
  {
    if f >= |np| || |arguments| != np[f].parameterCount then Ill
    else
      match NativeRun(np, np[f].ops, arguments, fuel, k)
      case Onward(_, _) => Ill
      case stopped => stopped
  }

  lemma {:induction false} NativeRunAppend(np: seq<NativeFunction>, a: seq<Op>, b: seq<Op>, values: seq<i64>, fuel: i64, k: nat)
    ensures NativeRun(np, a + b, values, fuel, k) ==
            match NativeRun(np, a, values, fuel, k)
            case Onward(values', fuel') => NativeRun(np, b, values', fuel', k)
            case stopped => stopped
    decreases |a|
  {
    if a == [] {
      assert a + b == b;
    } else {
      assert (a + b)[1..] == a[1..] + b;
      var r := NativeStep(np, a[0], values, fuel, k);
      if r.Onward? {
        NativeRunAppend(np, a[1..], b, r.values, r.fuel, k);
      }
    }
  }

  /** The first instruction of a list, when it does not stop the run. */
  lemma {:induction false} NativeRunFirst(np: seq<NativeFunction>, op: Op, rest: seq<Op>, values: seq<i64>, fuel: i64, k: nat)
    ensures NativeRun(np, [op] + rest, values, fuel, k) ==
            match NativeStep(np, op, values, fuel, k)
            case Onward(values', fuel') => NativeRun(np, rest, values', fuel', k)
            case stopped => stopped
  {
    assert ([op] + rest)[1..] == rest;
  }
}
