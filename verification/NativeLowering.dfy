// Lowering verified bytecode to native code: the operand stack and the local
// slots hold names of values instead of values, and disappear from the result.
module NativeLowering {
  import opened Prelude
  import opened Ast
  import opened Bytecode
  import opened NativeCode
  import opened Emitter

  const MAX_NATIVE_FUNCTIONS: nat := 256
  const MAX_NATIVE_INSTRUCTIONS_PER_FUNCTION: nat := 10_000
  const MAX_NATIVE_TOTAL_INSTRUCTIONS: nat := 50_000
  const MAX_NATIVE_LOCALS_PER_FUNCTION: nat := 10_000

  // ---------- the subset ----------

  predicate InstructionInSubset(i: Instruction) {
    !i.Request? && (i.Push? ==> !i.value.TextValue?)
  }

  predicate FunctionInSubset(f: BytecodeFunction) {
    && |f.instructions| <= MAX_NATIVE_INSTRUCTIONS_PER_FUNCTION
    && f.localCount <= MAX_NATIVE_LOCALS_PER_FUNCTION
    && f.effects == [] && f.authoritySlots.None?
    && String !in f.parameterTypes && String !in f.localTypes && f.returnType != String
    && forall k :: 0 <= k < |f.instructions| ==> InstructionInSubset(f.instructions[k])
  }

  function InstructionTotal(functions: seq<BytecodeFunction>): nat {
    if functions == [] then 0 else |functions[0].instructions| + InstructionTotal(functions[1..])
  }

  /** Pure bytecode of the first profile, without strings, within the limits of the backend. */
  predicate InSubset(p: BytecodeProgram) {
    && p.schema.Legacy?
    && |p.functions| <= MAX_NATIVE_FUNCTIONS
    && (forall f :: 0 <= f < |p.functions| ==> FunctionInSubset(p.functions[f]))
    && InstructionTotal(p.functions) <= MAX_NATIVE_TOTAL_INSTRUCTIONS
  }

  method FunctionSubset(f: BytecodeFunction) returns (ok: bool)
    ensures ok <==> FunctionInSubset(f)
  {
    if |f.instructions| > MAX_NATIVE_INSTRUCTIONS_PER_FUNCTION || f.localCount > MAX_NATIVE_LOCALS_PER_FUNCTION {
      return false;
    }
    if f.effects != [] || f.authoritySlots.Some? {
      return false;
    }
    if String in f.parameterTypes || String in f.localTypes || f.returnType == String {
      return false;
    }
    for k := 0 to |f.instructions|
      invariant forall j :: 0 <= j < k ==> InstructionInSubset(f.instructions[j])
    {
      if !InstructionInSubset(f.instructions[k]) {
        return false;
      }
    }
    ok := true;
  }

  /** The loop that validates a program for the backend, stopping at the first violation. */
  method ValidateSubset(p: BytecodeProgram) returns (ok: bool)
    ensures ok <==> InSubset(p)
  {
    if !p.schema.Legacy? || |p.functions| > MAX_NATIVE_FUNCTIONS {
      return false;
    }
    var total := 0;
    assert p.functions[0..] == p.functions;
    for k := 0 to |p.functions|
      invariant forall j :: 0 <= j < k ==> FunctionInSubset(p.functions[j])
      invariant total + InstructionTotal(p.functions[k..]) == InstructionTotal(p.functions)
      invariant total <= MAX_NATIVE_TOTAL_INSTRUCTIONS
    {
      assert p.functions[k..][1..] == p.functions[k + 1..];
      total := total + |p.functions[k].instructions|;
      if total > MAX_NATIVE_TOTAL_INSTRUCTIONS {
        return false;
      }
      var inside := FunctionSubset(p.functions[k]);
      if !inside {
        return false;
      }
    }
    ok := true;
  }

  // ---------- normalized values ----------

  function NormalizeValue(v: Value): Option<i64> {
    match v
    case IntValue(n) => Some(n)
    case BoolValue(b) => Some(Flag(b))
    case UnitValue => Some(0)
    case TextValue(_) => None
  }

  function DenormalizeValue(n: i64, ty: Type): Option<Value> {
    match ty
    case I64 => Some(IntValue(n))
    case Bool => if IsFlag(n) then Some(BoolValue(n == 1)) else None
    case Unit => if n == 0 then Some(UnitValue) else None
    case String => None
  }

  /** Canonical encodings of a type are exactly the normalized values of that type. */
  predicate CanonicalFor(n: i64, ty: Type) {
    match ty
    case I64 => true
    case Bool => IsFlag(n)
    case Unit => n == 0
    case String => false
  }

  /** Normalization loses nothing, and canonical numbers are exactly what it produces. */
  lemma NormalizeRoundTrip(v: Value, n: i64, ty: Type)
    ensures NormalizeValue(v).Some? ==>
              CanonicalFor(NormalizeValue(v).value, TypeOf(v)) && DenormalizeValue(NormalizeValue(v).value, TypeOf(v)) == Some(v)
    ensures CanonicalFor(n, ty) <==> DenormalizeValue(n, ty).Some?
    ensures DenormalizeValue(n, ty).Some? ==>
              TypeOf(DenormalizeValue(n, ty).value) == ty && NormalizeValue(DenormalizeValue(n, ty).value) == Some(n)
  {
  }

  // ---------- lowering one instruction ----------

  // The next free value name, and the names that the stack and the locals hold.
  datatype Shape = Shape(next: nat, stack: seq<nat>, locals: seq<Option<nat>>)

  datatype Lowered = Lowered(ops: seq<Op>, shape: Shape)

  function ChargeOps(n: nat): seq<Op> {
    [LoadFuel, IcmpImm(IsEqual, n, 0), ExitIf(n + 1, STATUS_BUDGET_EXHAUSTED), IaddImm(n, -1), StoreFuel(n + 2)]
  }

  function Charged(s: Shape): Shape {
    s.(next := s.next + 3)
  }

  function ArithmeticStatus(op: Opcode): i64 {
    match op
    case AddI64 => STATUS_ADDITION_FAILED
    case SubI64 => STATUS_SUBTRACTION_FAILED
    case MulI64 => STATUS_MULTIPLICATION_FAILED
    case DivI64 => STATUS_DIVISION_FAILED
    case _ => STATUS_REMAINDER_FAILED
  }

  function DivisionOps(op: Opcode, l: nat, r: nat, n: nat): seq<Op> {
    [IcmpImm(IsEqual, r, 0), IcmpImm(IsEqual, l, I64_MIN), IcmpImm(IsEqual, r, -1), Band(n + 1, n + 2), Bor(n, n + 3),
     ExitIf(n + 4, ArithmeticStatus(op)), if op.DivI64? then Sdiv(l, r) else Srem(l, r)]
  }

  function OverflowOps(op: Opcode, l: nat, r: nat, n: nat): seq<Op> {
    [if op.AddI64? then SaddOverflow(l, r) else if op.SubI64? then SsubOverflow(l, r) else SmulOverflow(l, r),
     ExitIf(n + 1, ArithmeticStatus(op))]
  }

  function ConditionOf(op: Opcode): Condition {
    match op
    case EqualAny => IsEqual
    case NotEqualAny => IsNotEqual
    case LessI64 => SignedLess
    case LessEqualI64 => SignedLessOrEqual
    case GreaterI64 => SignedGreater
    case _ => SignedGreaterOrEqual
  }

  /** Code of a two-operand opcode, the name of its result, and how many values it defines. */
  function OperateOps(op: Opcode, l: nat, r: nat, n: nat): (seq<Op>, nat, nat) {
    match op
    case AddI64 | SubI64 | MulI64 => (OverflowOps(op, l, r, n), n, 2)
    case DivI64 | RemI64 => (DivisionOps(op, l, r, n), n + 5, 6)
    case AndBool => ([Band(l, r)], n, 1)
    case OrBool => ([Bor(l, r)], n, 1)
    case EqualAny | NotEqualAny | LessI64 | LessEqualI64 | GreaterI64 | GreaterEqualI64 =>
      ([Icmp(ConditionOf(op), l, r), Uextend(n)], n + 1, 2)
  }

  function NegateOps(v: nat, n: nat): seq<Op> {
    [Iconst(0), SsubOverflow(n, v), ExitIf(n + 2, STATUS_NEGATION_OVERFLOW)]
  }

  function InvokeOps(target: nat, arguments: seq<nat>, n: nat): seq<Op> {
    [CallFn(target, arguments), IcmpImm(IsNotEqual, n, 0), PropagateIf(n + 2, n)]
  }

  /** Code of one instruction after its fuel charge; it fails only where verified bytecode cannot be. */
  function LowerBody(i: Instruction, s: Shape): Option<Lowered> {
    var n, depth := s.next, |s.stack|;
    match i
    case Push(v) =>
      (match NormalizeValue(v)
       case None => None
       case Some(c) => Some(Lowered([Iconst(c)], s.(next := n + 1, stack := s.stack + [n]))))
    case LoadLocal(slot) =>
      if slot >= |s.locals| || s.locals[slot].None? then None
      else Some(Lowered([], s.(stack := s.stack + [s.locals[slot].value])))
    case StoreLocal(slot) =>
      if depth < 1 || slot >= |s.locals| then None
      else Some(Lowered([], s.(stack := s.stack[..depth - 1], locals := s.locals[slot := Some(s.stack[depth - 1])])))
    case Pop => if depth < 1 then None else Some(Lowered([], s.(stack := s.stack[..depth - 1])))
    case Negate =>
      if depth < 1 then None
      else
        Some(Lowered(NegateOps(s.stack[depth - 1], n), s.(next := n + 3, stack := s.stack[..depth - 1] + [n + 1])))
    case Not =>
      if depth < 1 then None
      else Some(Lowered([BxorImm(s.stack[depth - 1], 1)], s.(next := n + 1, stack := s.stack[..depth - 1] + [n])))
    case Operate(op) =>
      if depth < 2 then None
      else
        var (ops, result, defined) := OperateOps(op, s.stack[depth - 2], s.stack[depth - 1], n);
        Some(Lowered(ops, s.(next := n + defined, stack := s.stack[..depth - 2] + [result])))
    case Invoke(target, count) =>
      if depth < count then None
      else
        Some(Lowered(InvokeOps(target, s.stack[depth - count..], n),
                     s.(next := n + 3, stack := s.stack[..depth - count] + [n + 1])))
    case Request(_, _, _, _) => None
    case Return =>
      if depth < 1 then None
      else Some(Lowered([ReturnOk(s.stack[depth - 1])], s.(stack := s.stack[..depth - 1])))
  }

  function LowerInstruction(i: Instruction, s: Shape): Option<Lowered> {
    match LowerBody(i, Charged(s))
    case None => None
    case Some(body) => Some(Lowered(ChargeOps(s.next) + body.ops, body.shape))
  }

  function LowerCode(code: seq<Instruction>, s: Shape): Option<seq<Op>> {
    if code == [] then Some([])
    else
      match LowerInstruction(code[0], s)
      case None => None
      case Some(first) =>
        match LowerCode(code[1..], first.shape)
        case None => None
        case Some(rest) => Some(first.ops + rest)
  }

  /** Parameters are the first values; the remaining slots are unassigned. */
  function EntryShape(f: BytecodeFunction): Shape {
    Shape(f.parameterCount, [], seq(f.localCount, k requires 0 <= k < f.localCount =>
                                      if k < f.parameterCount then Option.Some(k) else None))
  }

  function LowerFunction(f: BytecodeFunction): Option<NativeFunction> {
    match LowerCode(f.instructions, EntryShape(f))
    case None => None
    case Some(ops) => Some(NativeFunction(f.parameterCount, ops))
  }

  // ---------- lowering as it runs ----------

  lemma ReturnLowers(s: Shape)
    ensures var depth := |s.stack|;
            LowerBody(Return, s) ==
            if depth < 1 then None else Some(Lowered([ReturnOk(s.stack[depth - 1])], s.(stack := s.stack[..depth - 1])))
  {
  }

  lemma PopEnd(before: seq<nat>, after: seq<nat>, value: nat)
    requires before == after + [value]
    ensures after == before[..|before| - 1] && value == before[|before| - 1]
  {
  }

  class FunctionBuilder {
    var ops: seq<Op>
    var next: nat
    var stack: seq<nat>
    var locals: seq<Option<nat>>

    ghost function Current(): Shape
      reads this
    {
      Shape(next, stack, locals)
    }

    constructor (f: BytecodeFunction)
      ensures ops == [] && Current() == EntryShape(f)
    {
      ops, next, stack := [], f.parameterCount, [];
      locals := seq(f.localCount, k requires 0 <= k < f.localCount => if k < f.parameterCount then Option.Some(k) else None);
    }

    /** Append an instruction; its results take the next names. */
    method Ins(op: Op) returns (first: nat)
      modifies this`ops, this`next
      ensures ops == old(ops) + [op] && next == old(next) + Results(op) && first == old(next)
    {
      first := next;
      ops := ops + [op];
      next := next + Results(op);
    }

    method EmitErrorIf(condition: nat, status: i64)
      modifies this`ops, this`next
      ensures ops == old(ops) + [ExitIf(condition, status)] && next == old(next)
    {
      var _ := Ins(ExitIf(condition, status));
    }

    method EmitFuelCharge()
      modifies this`ops, this`next
      ensures ops == old(ops) + ChargeOps(old(next)) && Current() == Charged(old(Current()))
    {
      var remaining := Ins(LoadFuel);
      var exhausted := Ins(IcmpImm(IsEqual, remaining, 0));
      EmitErrorIf(exhausted, STATUS_BUDGET_EXHAUSTED);
      var updated := Ins(IaddImm(remaining, -1));
      var _ := Ins(StoreFuel(updated));
    }

    method PopStack() returns (v: Option<nat>)
      modifies this`stack
      ensures v.Some? == (old(stack) != [])
      ensures v.Some? ==> old(stack) == stack + [v.value]
    {
      if stack == [] {
        return None;
      }
      v := Some(stack[|stack| - 1]);
      stack := stack[..|stack| - 1];
    }

    method Divide(op: Opcode, left: nat, right: nat) returns (result: nat)
      requires op.DivI64? || op.RemI64?
      modifies this`ops, this`next
      ensures ops == old(ops) + DivisionOps(op, left, right, old(next))
      ensures result == old(next) + 5 && next == old(next) + 6
    {
      var zero := Ins(IcmpImm(IsEqual, right, 0));
      var minimum := Ins(IcmpImm(IsEqual, left, I64_MIN));
      var negativeOne := Ins(IcmpImm(IsEqual, right, -1));
      var overflow := Ins(Band(minimum, negativeOne));
      var invalid := Ins(Bor(zero, overflow));
      EmitErrorIf(invalid, if op.DivI64? then STATUS_DIVISION_FAILED else STATUS_REMAINDER_FAILED);
      result := Ins(if op.DivI64? then Sdiv(left, right) else Srem(left, right));
    }

    method Overflowing(op: Opcode, left: nat, right: nat) returns (result: nat)
      requires op.AddI64? || op.SubI64? || op.MulI64?
      modifies this`ops, this`next
      ensures ops == old(ops) + OverflowOps(op, left, right, old(next))
      ensures result == old(next) && next == old(next) + 2
    {
      match op {
        case AddI64 =>
          result := Ins(SaddOverflow(left, right));
          EmitErrorIf(result + 1, STATUS_ADDITION_FAILED);
        case SubI64 =>
          result := Ins(SsubOverflow(left, right));
          EmitErrorIf(result + 1, STATUS_SUBTRACTION_FAILED);
        case MulI64 =>
          result := Ins(SmulOverflow(left, right));
          EmitErrorIf(result + 1, STATUS_MULTIPLICATION_FAILED);
      }
    }

    method Combine(op: Opcode, left: nat, right: nat) returns (result: nat)
      modifies this`ops, this`next
      ensures var (code, name, defined) := OperateOps(op, left, right, old(next));
              ops == old(ops) + code && result == name && next == old(next) + defined
    {
      match op
      case AddI64 | SubI64 | MulI64 => result := Overflowing(op, left, right);
      case DivI64 | RemI64 => result := Divide(op, left, right);
      case AndBool => result := Ins(Band(left, right));
      case OrBool => result := Ins(Bor(left, right));
      case EqualAny | NotEqualAny | LessI64 | LessEqualI64 | GreaterI64 | GreaterEqualI64 =>
        var value := Ins(Icmp(ConditionOf(op), left, right));
        result := Ins(Uextend(value));
    }

    method Operate(op: Opcode) returns (ok: bool)
      modifies this
      ensures match LowerBody(Instruction.Operate(op), old(Current()))
              case None => !ok
              case Some(lowered) => ok && ops == old(ops) + lowered.ops && Current() == lowered.shape
    {
      var right := PopStack();
      if right.None? {
        return false;
      }
      var left := PopStack();
      if left.None? {
        return false;
      }
      assert old(stack)[..|old(stack)| - 2] == stack;
      var result := Combine(op, left.value, right.value);
      stack := stack + [result];
      ok := true;
    }

    method NegateValue() returns (ok: bool)
      modifies this
      ensures match LowerBody(Negate, old(Current()))
              case None => !ok
              case Some(lowered) => ok && ops == old(ops) + lowered.ops && Current() == lowered.shape
    {
      var value := PopStack();
      if value.None? {
        return false;
      }
      var zero := Ins(Iconst(0));
      var result := Ins(SsubOverflow(zero, value.value));
      EmitErrorIf(result + 1, STATUS_NEGATION_OVERFLOW);
      stack := stack + [result];
      ok := true;
    }

    method Store(slot: nat) returns (ok: bool)
      modifies this
      ensures match LowerBody(StoreLocal(slot), old(Current()))
              case None => !ok
              case Some(lowered) => ok && ops == old(ops) + lowered.ops && Current() == lowered.shape
    {
      var value := PopStack();
      if value.None? || slot >= |locals| {
        return false;
      }
      locals := locals[slot := Some(value.value)];
      ok := true;
    }

    method Call(target: nat, count: nat) returns (ok: bool)
      modifies this
      ensures match LowerBody(Invoke(target, count), old(Current()))
              case None => !ok
              case Some(lowered) => ok && ops == old(ops) + lowered.ops && Current() == lowered.shape
    {
      if |stack| < count {
        return false;
      }
      var arguments := stack[|stack| - count..];
      stack := stack[..|stack| - count];
      var status := Ins(CallFn(target, arguments));
      var failed := Ins(IcmpImm(IsNotEqual, status, 0));
      var _ := Ins(PropagateIf(failed, status));
      stack := stack + [status + 1];
      ok := true;
    }

    method PushConstant(v: Value) returns (ok: bool)
      modifies this
      ensures match LowerBody(Push(v), old(Current()))
              case None => !ok
              case Some(lowered) => ok && ops == old(ops) + lowered.ops && Current() == lowered.shape
    {
      var constant := NormalizeValue(v);
      if constant.None? {
        return false;
      }
      var value := Ins(Iconst(constant.value));
      stack := stack + [value];
      ok := true;
    }

    method NotValue() returns (ok: bool)
      modifies this
      ensures match LowerBody(Not, old(Current()))
              case None => !ok
              case Some(lowered) => ok && ops == old(ops) + lowered.ops && Current() == lowered.shape
    {
      var value := PopStack();
      if value.None? {
        return false;
      }
      var result := Ins(BxorImm(value.value, 1));
      stack := stack + [result];
      ok := true;
    }

    method ReturnValue() returns (ok: bool)
      modifies this
      ensures match LowerBody(Return, old(Current()))
              case None => !ok
              case Some(lowered) => ok && ops == old(ops) + lowered.ops && Current() == lowered.shape
    {
      hide LowerBody;
      ReturnLowers(Current());
      var value := PopStack();
      if value.None? {
        return false;
      }
      PopEnd(old(stack), stack, value.value);
      var _ := Ins(ReturnOk(value.value));
      ok := true;
    }

    method Body(i: Instruction) returns (ok: bool)
      modifies this
      ensures match LowerBody(i, old(Current()))
              case None => !ok
              case Some(lowered) => ok && ops == old(ops) + lowered.ops && Current() == lowered.shape
    {
      match i
      case Push(v) => ok := PushConstant(v);
      case LoadLocal(slot) =>
        ok := slot < |locals| && locals[slot].Some?;
        if ok {
          stack := stack + [locals[slot].value];
        }
      case StoreLocal(slot) => ok := Store(slot);
      case Pop =>
        var value := PopStack();
        ok := value.Some?;
      case Negate => ok := NegateValue();
      case Not => ok := NotValue();
      case Operate(op) => ok := Operate(op);
      case Invoke(target, count) => ok := Call(target, count);
      case Request(_, _, _, _) => ok := false;
      case Return => ok := ReturnValue();
    }

    method Lower(i: Instruction) returns (ok: bool)
      modifies this
      ensures match LowerInstruction(i, old(Current()))
              case None => !ok
              case Some(lowered) => ok && ops == old(ops) + lowered.ops && Current() == lowered.shape
    {
      EmitFuelCharge();
      ok := Body(i);
    }
  }

  lemma LowerStep(code: seq<Instruction>, k: nat, s: Shape, ops: seq<Op>)
    requires k < |code|
    ensures Prefixed(ops, LowerCode(code[k..], s)) ==
            match LowerInstruction(code[k], s)
            case None => None
            case Some(first) => Prefixed(ops + first.ops, LowerCode(code[k + 1..], first.shape))
  {
    assert code[k..][0] == code[k] && code[k..][1..] == code[k + 1..];
    var first := LowerInstruction(code[k], s);
    if first.Some? {
      var rest := LowerCode(code[k + 1..], first.value.shape);
      if rest.Some? {
        assert ops + (first.value.ops + rest.value) == ops + first.value.ops + rest.value;
      }
    }
  }

  /** Lower one function in a single pass over its instructions. */
  method DefineInternalFunction(f: BytecodeFunction) returns (r: Option<NativeFunction>)
    ensures r == LowerFunction(f)
  {
    var builder := new FunctionBuilder(f);
    var code := f.instructions;
    ghost var whole := LowerCode(code, EntryShape(f));
    assert code[0..] == code;
    PrefixedNothing(whole);
    for k := 0 to |code|
      invariant fresh(builder)
      invariant whole == Prefixed(builder.ops, LowerCode(code[k..], builder.Current()))
    {
      LowerStep(code, k, builder.Current(), builder.ops);
      var ok := builder.Lower(code[k]);
      if !ok {
        return None;
      }
    }
    assert code[|code|..] == [] && builder.ops + [] == builder.ops;
    r := Some(NativeFunction(f.parameterCount, builder.ops));
  }
}
