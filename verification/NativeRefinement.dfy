// Native code refines the virtual machine: for verified bytecode in the subset,
// the lowered code completes with the same value and the same remaining fuel, or
// stops with the status of the same failure, for every argument list and budget.
module NativeRefinement {
  import opened Prelude
  import opened Ast
  import opened Bytecode
  import opened Verifier
  import opened Machine
  import opened NativeCode
  import opened NativeLowering

  function StatusOf(e: VmError): i64 {
    match e
    case BudgetExhausted => STATUS_BUDGET_EXHAUSTED
    case Arithmetic(NegationOverflow) => STATUS_NEGATION_OVERFLOW
    case Arithmetic(AdditionFailed) => STATUS_ADDITION_FAILED
    case Arithmetic(SubtractionFailed) => STATUS_SUBTRACTION_FAILED
    case Arithmetic(MultiplicationFailed) => STATUS_MULTIPLICATION_FAILED
    case Arithmetic(DivisionFailed) => STATUS_DIVISION_FAILED
    case Arithmetic(RemainderFailed) => STATUS_REMAINDER_FAILED
    case _ => -1
  }

  // ---------- names stand for values ----------

  predicate NameHolds(values: seq<i64>, name: nat, v: Value) {
    name < |values| && NormalizeValue(v) == Some(values[name])
  }

  predicate StackHolds(values: seq<i64>, names: seq<nat>, stack: seq<Value>) {
    |names| == |stack| && forall k :: 0 <= k < |stack| ==> NameHolds(values, names[k], stack[k])
  }

  predicate LocalsHold(values: seq<i64>, names: seq<Option<nat>>, initialized: seq<bool>, locals: seq<Value>) {
    && |names| == |initialized| == |locals|
    && forall s :: 0 <= s < |locals| && initialized[s] ==> names[s].Some? && NameHolds(values, names[s].value, locals[s])
  }

  predicate FrameHolds(values: seq<i64>, shape: Shape, initialized: seq<bool>, frame: Frame) {
    && |values| == shape.next
    && StackHolds(values, shape.stack, frame.stack)
    && LocalsHold(values, shape.locals, initialized, frame.locals)
  }

  // ---------- straight-line fragments ----------

  lemma ChargeRuns(np: seq<NativeFunction>, values: seq<i64>, remaining: u64, k: nat)
    ensures var charged := NativeRun(np, ChargeOps(|values|), values, Pattern(remaining), k);
            if remaining == 0 then charged == Exited(STATUS_BUDGET_EXHAUSTED, 0, Pattern(0))
            else charged.Onward? && charged.fuel == Pattern(remaining - 1)
                 && |charged.values| == |values| + 3 && charged.values[..|values|] == values
  {
    var n, fuel := |values|, Pattern(remaining);
    PatternCountsDown(remaining);
    var v1 := values + [fuel];
    var v2 := v1 + [Flag(fuel == 0)];
    NativeRunFirst(np, LoadFuel, ChargeOps(n)[1..], values, fuel, k);
    NativeRunFirst(np, IcmpImm(IsEqual, n, 0), ChargeOps(n)[2..], v1, fuel, k);
    NativeRunFirst(np, ExitIf(n + 1, STATUS_BUDGET_EXHAUSTED), ChargeOps(n)[3..], v2, fuel, k);
    assert ChargeOps(n) == [LoadFuel] + ChargeOps(n)[1..];
    assert ChargeOps(n)[1..] == [IcmpImm(IsEqual, n, 0)] + ChargeOps(n)[2..];
    assert ChargeOps(n)[2..] == [ExitIf(n + 1, STATUS_BUDGET_EXHAUSTED)] + ChargeOps(n)[3..];
    if remaining > 0 {
      CountDownRuns(np, v2, n, fuel, k);
    }
  }

  lemma CountDownRuns(np: seq<NativeFunction>, values: seq<i64>, n: nat, fuel: i64, k: nat)
    requires |values| == n + 2 && values[n] == fuel
    ensures NativeRun(np, ChargeOps(n)[3..], values, fuel, k) == Onward(values + [Wrap(fuel - 1)], Wrap(fuel - 1))
  {
    var rest := ChargeOps(n)[3..];
    assert rest == [IaddImm(n, -1)] + [StoreFuel(n + 2)];
    NativeRunFirst(np, IaddImm(n, -1), [StoreFuel(n + 2)], values, fuel, k);
    var v3 := values + [Wrap(fuel - 1)];
    assert NativeRun(np, [], v3, Wrap(fuel - 1), k) == Onward(v3, Wrap(fuel - 1));
  }

  /** The integer that an overflow instruction computes before wrapping. */
  function ExactResult(op: Opcode, a: int, b: int): int
    requires op.AddI64? || op.SubI64? || op.MulI64?
  {
    if op.AddI64? then a + b else if op.SubI64? then a - b else a * b
  }

  lemma OverflowRuns(np: seq<NativeFunction>, op: Opcode, l: nat, r: nat, values: seq<i64>, fuel: i64, k: nat)
    requires op.AddI64? || op.SubI64? || op.MulI64?
    requires l < |values| && r < |values|
    ensures var x := ExactResult(op, values[l], values[r]);
            NativeRun(np, OverflowOps(op, l, r, |values|), values, fuel, k) ==
            if InI64(x) then Onward(values + [x, 0], fuel) else Exited(ArithmeticStatus(op), 0, fuel)
  {
    var x := ExactResult(op, values[l], values[r]);
    var ops := OverflowOps(op, l, r, |values|);
    assert ops == [ops[0]] + [ops[1]];
    var v1 := values + [Wrap(x), Flag(!InI64(x))];
    NativeRunFirst(np, ops[0], [ops[1]], values, fuel, k);
    assert NativeStep(np, ops[0], values, fuel, k) == Onward(v1, fuel);
    if InI64(x) {
      WrapFits(x);
      assert NativeRun(np, [], v1, fuel, k) == Onward(v1, fuel);
    }
  }

  lemma NegateRuns(np: seq<NativeFunction>, v: nat, values: seq<i64>, fuel: i64, k: nat)
    requires v < |values|
    ensures var x: int := 0 - Read(values, v);
            NativeRun(np, NegateOps(v, |values|), values, fuel, k) ==
            if InI64(x) then Onward(values + [0, x, 0], fuel) else Exited(STATUS_NEGATION_OVERFLOW, 0, fuel)
  {
    var n := |values|;
    var x: int := 0 - Read(values, v);
    var ops := NegateOps(v, n);
    assert ops == [Iconst(0)] + ([SsubOverflow(n, v)] + [ExitIf(n + 2, STATUS_NEGATION_OVERFLOW)]);
    var v1 := values + [0];
    NativeRunFirst(np, ops[0], [ops[1]] + [ops[2]], values, fuel, k);
    NativeRunFirst(np, ops[1], [ops[2]], v1, fuel, k);
    var v2 := v1 + [Wrap(x), Flag(!InI64(x))];
    assert NativeStep(np, ops[1], v1, fuel, k) == Onward(v2, fuel);
    if InI64(x) {
      WrapFits(x);
      assert v2 == values + [0, x, 0];
      assert NativeRun(np, [], v2, fuel, k) == Onward(v2, fuel);
    }
  }

  lemma FlagStep(np: seq<NativeFunction>, l: nat, r: nat, a: bool, b: bool, values: seq<i64>, fuel: i64, k: nat)
    requires l < |values| && r < |values| && values[l] == Flag(a) && values[r] == Flag(b)
    ensures NativeStep(np, Band(l, r), values, fuel, k) == Onward(values + [Flag(a && b)], fuel)
    ensures NativeStep(np, Bor(l, r), values, fuel, k) == Onward(values + [Flag(a || b)], fuel)
    ensures NativeStep(np, BxorImm(l, 1), values, fuel, k) == Onward(values + [Flag(!a)], fuel)
  {
    FlagBits(a, b);
    WrapFits(Flag(a && b));
    WrapFits(Flag(a || b));
    WrapFits(Flag(!a));
  }

  lemma DivisionTests(np: seq<NativeFunction>, op: Opcode, l: nat, r: nat, values: seq<i64>, fuel: i64, k: nat)
    requires l < |values| && r < |values|
    ensures var a, b := values[l], values[r];
            NativeRun(np, DivisionOps(op, l, r, |values|)[..3], values, fuel, k) ==
            Onward(values + [Flag(b == 0), Flag(a == I64_MIN), Flag(b == -1)], fuel)
  {
    var a, b := values[l], values[r];
    var ops := DivisionOps(op, l, r, |values|);
    var v1 := values + [Flag(b == 0)];
    var v2 := v1 + [Flag(a == I64_MIN)];
    assert ops[..3] == [ops[0]] + ([ops[1]] + [ops[2]]);
    NativeRunFirst(np, ops[0], [ops[1]] + [ops[2]], values, fuel, k);
    NativeRunFirst(np, ops[1], [ops[2]], v1, fuel, k);
    OneRuns(np, ops[2], v2, fuel, k);
    assert v2 + [Flag(b == -1)] == values + [Flag(b == 0), Flag(a == I64_MIN), Flag(b == -1)];
  }

  lemma DivisionCombines(np: seq<NativeFunction>, op: Opcode, l: nat, r: nat, values: seq<i64>, zero: bool, minimum: bool, minusOne: bool,
                         n: nat, fuel: i64, k: nat)
    requires |values| == n + 3
    requires values[n] == Flag(zero) && values[n + 1] == Flag(minimum) && values[n + 2] == Flag(minusOne)
    ensures NativeRun(np, DivisionOps(op, l, r, n)[3..5], values, fuel, k) ==
            Onward(values + [Flag(minimum && minusOne), Flag(zero || (minimum && minusOne))], fuel)
  {
    var ops := DivisionOps(op, l, r, n);
    assert ops[3..5] == [ops[3]] + [ops[4]];
    var v1 := values + [Flag(minimum && minusOne)];
    FlagStep(np, n + 1, n + 2, minimum, minusOne, values, fuel, k);
    FlagStep(np, n, n + 3, zero, minimum && minusOne, v1, fuel, k);
    NativeRunFirst(np, ops[3], [ops[4]], values, fuel, k);
    OneRuns(np, ops[4], v1, fuel, k);
    assert v1 + [Flag(zero || (minimum && minusOne))] == values + [Flag(minimum && minusOne), Flag(zero || (minimum && minusOne))];
  }

  /** The tests of a division leave the flag of an impossible quotient as their last value. */
  lemma DivisionGuard(np: seq<NativeFunction>, op: Opcode, l: nat, r: nat, values: seq<i64>, fuel: i64, k: nat)
    requires l < |values| && r < |values|
    ensures var guard := NativeRun(np, DivisionOps(op, l, r, |values|)[..5], values, fuel, k);
            && guard.Onward? && guard.fuel == fuel && |guard.values| == |values| + 5
            && guard.values[..|values|] == values
            && guard.values[|values| + 4] == Flag(DivisionFails(values[l], values[r]))
  {
    var n, a, b := |values|, values[l], values[r];
    var ops := DivisionOps(op, l, r, n);
    var tested := values + [Flag(b == 0), Flag(a == I64_MIN), Flag(b == -1)];
    assert ops[..5] == ops[..3] + ops[3..5];
    DivisionTests(np, op, l, r, values, fuel, k);
    NativeRunAppend(np, ops[..3], ops[3..5], values, fuel, k);
    DivisionCombines(np, op, l, r, tested, b == 0, a == I64_MIN, b == -1, n, fuel, k);
  }

  lemma DivisionRuns(np: seq<NativeFunction>, op: Opcode, l: nat, r: nat, values: seq<i64>, fuel: i64, k: nat)
    requires op.DivI64? || op.RemI64?
    requires l < |values| && r < |values|
    ensures var result := Compute(op, values[l], values[r]);
            var run := NativeRun(np, DivisionOps(op, l, r, |values|), values, fuel, k);
            match result
            case None => run == Exited(ArithmeticStatus(op), 0, fuel)
            case Some(x) =>
              && run.Onward? && run.fuel == fuel && |run.values| == |values| + 6
              && run.values[..|values|] == values && run.values[|values| + 5] == x
  {
    var n, a, b := |values|, values[l], values[r];
    var ops := DivisionOps(op, l, r, n);
    DivisionGuard(np, op, l, r, values, fuel, k);
    assert ops == ops[..5] + ops[5..];
    NativeRunAppend(np, ops[..5], ops[5..], values, fuel, k);
    var v5 := NativeRun(np, ops[..5], values, fuel, k).values;
    assert v5[..n] == values;
    assert ops[5..] == [ops[5]] + [ops[6]];
    NativeRunFirst(np, ops[5], [ops[6]], v5, fuel, k);
    if !DivisionFails(a, b) {
      TruncDivFits(a, b);
      WrapFits(TruncDiv(a, b));
      WrapFits(TruncRem(a, b));
      var v6 := v5 + [if op.DivI64? then TruncDiv(a, b) else TruncRem(a, b)];
      assert NativeRun(np, [], v6, fuel, k) == Onward(v6, fuel);
    }
  }

  lemma CompareRuns(np: seq<NativeFunction>, cc: Condition, l: nat, r: nat, values: seq<i64>, fuel: i64, k: nat)
    requires l < |values| && r < |values|
    ensures var flag := Flag(Test(cc, values[l], values[r]));
            NativeRun(np, [Icmp(cc, l, r), Uextend(|values|)], values, fuel, k) == Onward(values + [flag, flag], fuel)
  {
    var n, flag := |values|, Flag(Test(cc, values[l], values[r]));
    assert [Icmp(cc, l, r), Uextend(n)] == [Icmp(cc, l, r)] + [Uextend(n)];
    NativeRunFirst(np, Icmp(cc, l, r), [Uextend(n)], values, fuel, k);
    var v1 := values + [flag];
    assert NativeRun(np, [], v1 + [flag], fuel, k) == Onward(v1 + [flag], fuel);
    assert v1 + [flag] == values + [flag, flag];
  }

  lemma OneRuns(np: seq<NativeFunction>, op: Op, values: seq<i64>, fuel: i64, k: nat)
    ensures NativeRun(np, [op], values, fuel, k) == NativeStep(np, op, values, fuel, k)
  {
    var r := NativeStep(np, op, values, fuel, k);
    if r.Onward? {
      assert NativeRun(np, [], r.values, r.fuel, k) == r;
    }
  }

  // ---------- two-operand opcodes ----------

  /** The run of an opcode's code leaves the normalized result under its name, or exits with the status. */
  predicate Computes(run: NativeFlow, outcome: Result<seq<Value>, VmError>, values: seq<i64>, name: nat, defined: nat, fuel: i64) {
    match outcome
    case Err(e) => run == Exited(StatusOf(e), 0, fuel)
    case Ok(result) =>
      && |result| == 1 && run.Onward? && run.fuel == fuel
      && |run.values| == |values| + defined && run.values[..|values|] == values
      && NameHolds(run.values, name, result[0])
  }

  predicate Operands(op: Opcode, left: Value, right: Value, l: nat, r: nat, values: seq<i64>) {
    && NameHolds(values, l, left) && NameHolds(values, r, right)
    && TypeOf(left) == TypeOf(right)
    && (IsArithmetic(op) || IsOrdering(op) ==> left.IntValue?)
    && (IsLogical(op) ==> left.BoolValue?)
  }

  lemma ArithmeticRuns(np: seq<NativeFunction>, op: Opcode, left: Value, right: Value, l: nat, r: nat, values: seq<i64>, fuel: i64, k: nat)
    requires IsArithmetic(op) && Operands(op, left, right, l, r, values)
    ensures var (ops, name, defined) := OperateOps(op, l, r, |values|);
            Computes(NativeRun(np, ops, values, fuel, k), OperateOn(op, [left, right]), values, name, defined, fuel)
  {
    assert [left, right][..1] == [left] && [left][..0] == [];
    if op.DivI64? || op.RemI64? {
      DivisionRuns(np, op, l, r, values, fuel, k);
    } else {
      OverflowRuns(np, op, l, r, values, fuel, k);
    }
  }

  lemma LogicalRuns(np: seq<NativeFunction>, op: Opcode, left: Value, right: Value, l: nat, r: nat, values: seq<i64>, fuel: i64, k: nat)
    requires IsLogical(op) && Operands(op, left, right, l, r, values)
    ensures var (ops, name, defined) := OperateOps(op, l, r, |values|);
            Computes(NativeRun(np, ops, values, fuel, k), OperateOn(op, [left, right]), values, name, defined, fuel)
  {
    assert [left, right][..1] == [left] && [left][..0] == [];
    var result := if op.AndBool? then left.bool_ && right.bool_ else left.bool_ || right.bool_;
    FlagStep(np, l, r, left.bool_, right.bool_, values, fuel, k);
    OneRuns(np, if op.AndBool? then Band(l, r) else Bor(l, r), values, fuel, k);
  }

  /** Equality of normalized values is equality of values, because the operands have one type. */
  lemma ComparisonRuns(np: seq<NativeFunction>, op: Opcode, left: Value, right: Value, l: nat, r: nat, values: seq<i64>, fuel: i64, k: nat)
    requires !IsArithmetic(op) && !IsLogical(op) && Operands(op, left, right, l, r, values)
    ensures var (ops, name, defined) := OperateOps(op, l, r, |values|);
            Computes(NativeRun(np, ops, values, fuel, k), OperateOn(op, [left, right]), values, name, defined, fuel)
  {
    assert [left, right][..1] == [left] && [left][..0] == [];
    CompareRuns(np, ConditionOf(op), l, r, values, fuel, k);
  }

  /** The code of an opcode computes the normalized result of the opcode, or exits with its status. */
  lemma OperateRuns(np: seq<NativeFunction>, op: Opcode, left: Value, right: Value, l: nat, r: nat, values: seq<i64>, fuel: i64, k: nat)
    requires Operands(op, left, right, l, r, values)
    ensures var (ops, name, defined) := OperateOps(op, l, r, |values|);
            Computes(NativeRun(np, ops, values, fuel, k), OperateOn(op, [left, right]), values, name, defined, fuel)
  {
    if IsArithmetic(op) {
      ArithmeticRuns(np, op, left, right, l, r, values, fuel, k);
    } else if IsLogical(op) {
      LogicalRuns(np, op, left, right, l, r, values, fuel, k);
    } else {
      ComparisonRuns(np, op, left, right, l, r, values, fuel, k);
    }
  }
}
