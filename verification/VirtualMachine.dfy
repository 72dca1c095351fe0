// The virtual machine itself: an operand stack and a machine whose counters and
// request log are updated in place, proved to do exactly what RunCall says.
module VirtualMachine {
  import opened Prelude
  import opened Ast
  import opened Bytecode
  import opened Machine

  class OperandStack {
    var items: seq<Value>

    constructor ()
      ensures items == []
    {
      items := [];
    }

    method Push(v: Value)
      modifies this
      ensures items == old(items) + [v]
    {
      items := items + [v];
    }

    method Pop() returns (r: Result<Value, VmError>)
      modifies this
      ensures old(items) == [] ==> r == Err(StackUnderflow) && items == []
      ensures old(items) != [] ==> r.Ok? && old(items) == items + [r.value]
    {
      if items == [] {
        return Err(StackUnderflow);
      }
      r := Ok(items[|items| - 1]);
      items := items[..|items| - 1];
    }

    method PopI64() returns (r: Result<i64, VmError>)
      modifies this
      ensures match Machine.PopI64(old(items))
              case Ok((rest, n)) => r == Ok(n) && items == rest
              case Err(e) => r == Err(e)
    {
      var v := Pop();
      match v
      case Ok(IntValue(n)) => r := Ok(n);
      case Ok(_) => r := Err(ExpectedI64);
      case Err(e) => r := Err(e);
    }

    method PopBool() returns (r: Result<bool, VmError>)
      modifies this
      ensures match Machine.PopBool(old(items))
              case Ok((rest, b)) => r == Ok(b) && items == rest
              case Err(e) => r == Err(e)
    {
      var v := Pop();
      match v
      case Ok(BoolValue(b)) => r := Ok(b);
      case Ok(_) => r := Err(ExpectedBool);
      case Err(e) => r := Err(e);
    }

    /** The topmost values, in the order they were pushed. */
    method PopArguments(count: nat) returns (r: Result<seq<Value>, VmError>)
      modifies this
      ensures count > |old(items)| ==> r == Err(ArgumentUnderflow) && items == old(items)
      ensures count <= |old(items)| ==> r.Ok? && |r.value| == count && items + r.value == old(items)
    {
      if |items| < count {
        return Err(ArgumentUnderflow);
      }
      var base := |items| - count;
      r := Ok(items[base..]);
      items := items[..base];
    }

    method IntegerBinary(op: Opcode) returns (error: Option<VmError>)
      requires IsArithmetic(op)
      modifies this
      ensures match OperateOn(op, old(items))
              case Ok(result) => error.None? && items == result
              case Err(e) => error == Some(e)
    {
      var right := PopI64();
      if right.Err? {
        return Some(right.error);
      }
      var left := PopI64();
      if left.Err? {
        return Some(left.error);
      }
      match Compute(op, left.value, right.value)
      case None => error := Some(Arithmetic(FailureOf(op)));
      case Some(n) =>
        Push(IntValue(n));
        error := None;
    }

    method CompareI64(op: Opcode) returns (error: Option<VmError>)
      requires IsOrdering(op)
      modifies this
      ensures match OperateOn(op, old(items))
              case Ok(result) => error.None? && items == result
              case Err(e) => error == Some(e)
    {
      var right := PopI64();
      if right.Err? {
        return Some(right.error);
      }
      var left := PopI64();
      if left.Err? {
        return Some(left.error);
      }
      Push(BoolValue(Compare(op, left.value, right.value)));
      error := None;
    }

    method CompareEqual(negated: bool) returns (error: Option<VmError>)
      modifies this
      ensures match OperateOn(if negated then NotEqualAny else EqualAny, old(items))
              case Ok(result) => error.None? && items == result
              case Err(e) => error == Some(e)
    {
      var right := Pop();
      if right.Err? {
        return Some(right.error);
      }
      var left := Pop();
      if left.Err? {
        return Some(left.error);
      }
      Push(BoolValue((left.value == right.value) != negated));
      error := None;
    }

    method BooleanBinary(op: Opcode) returns (error: Option<VmError>)
      requires IsLogical(op)
      modifies this
      ensures match OperateOn(op, old(items))
              case Ok(result) => error.None? && items == result
              case Err(e) => error == Some(e)
    {
      var right := PopBool();
      if right.Err? {
        return Some(right.error);
      }
      var left := PopBool();
      if left.Err? {
        return Some(left.error);
      }
      Push(BoolValue(if op.AndBool? then left.value && right.value else left.value || right.value));
      error := None;
    }

    method Operate(op: Opcode) returns (error: Option<VmError>)
      modifies this
      ensures match OperateOn(op, old(items))
              case Ok(result) => error.None? && items == result
              case Err(e) => error == Some(e)
    {
      if IsArithmetic(op) {
        error := IntegerBinary(op);
      } else if IsOrdering(op) {
        error := CompareI64(op);
      } else if IsLogical(op) {
        error := BooleanBinary(op);
      } else {
        error := CompareEqual(op.NotEqualAny?);
      }
    }
  }

  // The outcome of one instruction inside the machine's loop.
  datatype Step = Next | Done(value: Value) | Stop(error: VmError)

  class VirtualMachine {
    const program: BytecodeProgram
    var remaining: u64
    var executed: u64
    var requests: seq<EffectRequest>
    ghost var entered: seq<nat>

    /** The counters share one budget, so counting up never overflows, and neither does a request index. */
    ghost predicate Valid()
      reads this
    {
      executed + remaining <= U64_MAX && |requests| <= executed
    }

    ghost function State(): MachineState
      reads this
    {
      MachineState(remaining, executed, requests, entered)
    }

    constructor (program: BytecodeProgram, budget: u64)
      ensures Valid() && this.program == program && State() == MachineState(budget, 0, [], [])
    {
      this.program := program;
      remaining, executed, requests, entered := budget, 0, [], [];
    }

    method ConsumeInstruction() returns (ok: bool)
      requires Valid()
      modifies this
      ensures Valid() && ok == (old(remaining) > 0)
      ensures ok ==> State() == old(State()).(remaining := old(remaining) - 1, executed := old(executed) + 1)
      ensures ok ==> |requests| < executed
      ensures !ok ==> State() == old(State())
    {
      ok := remaining > 0;
      if ok {
        remaining := remaining - 1;
        executed := executed + 1;
      }
    }

    method IdentifyRequest(functionName: string, i: Instruction, index: u64, arguments: seq<Value>) returns (r: Result<RequestId, VmError>)
      requires i.Request?
      ensures r == MakeRequestId(program, functionName, i, index, arguments)
    {
      var id := ProfileId(program.schema, program.semanticDigest, index, functionName, i.effect, i.authority, i.information, arguments);
      if id.None? {
        return Err(if i.authority.None? then MissingAuthority else MissingInformation);
      }
      var encodes := CheckId(id.value);
      r := if encodes then Ok(id.value) else Err(UnencodableRequest);
    }

    method RecordRequest(functionName: string, i: Instruction, stack: OperandStack) returns (error: Option<VmError>)
      requires Valid() && |requests| < executed && i.Request?
      modifies this, stack
      ensures Valid()
      ensures match Machine.RecordRequest(program, functionName, i, Frame([], old(stack.items)), old(State()))
              case Running(frame, m) => error.None? && stack.items == frame.stack && State() == m
              case Failed(e, m) => error == Some(e) && State() == m
              case Returned(_, _) => true
    {
      var popped := stack.PopArguments(i.argumentCount);
      if popped.Err? {
        return Some(popped.error);
      }
      var arguments := popped.value;
      assert old(stack.items)[|stack.items|..] == arguments && old(stack.items)[..|stack.items|] == stack.items;
      var index: u64 := |requests|;
      var identified := IdentifyRequest(functionName, i, index, arguments);
      match identified
      case Err(e) =>
        error := Some(e);
      case Ok(id) =>
        requests := requests + [EffectRequest(index, id, functionName, i.effect, i.authority, i.information, arguments)];
        error := None;
    }

    /** Instructions that touch only the operand stack and the local slots. */
    method LocalInstruction(i: Instruction, stack: OperandStack, locals: array<Value>) returns (error: Option<VmError>)
      requires IsLocalStep(i)
      modifies stack, locals
      ensures match LocalStep(i, Frame(old(locals[..]), old(stack.items)))
              case Ok(frame) => error.None? && stack.items == frame.stack && locals[..] == frame.locals
              case Err(e) => error == Some(e)
    {
      error := None;
      match i
      case Push(v) => stack.Push(v);
      case LoadLocal(slot) =>
        if slot >= locals.Length {
          return Some(LoadOutsideFrame);
        }
        stack.Push(locals[slot]);
      case StoreLocal(slot) =>
        var v := stack.Pop();
        if v.Err? {
          return Some(v.error);
        }
        if slot >= locals.Length {
          return Some(StoreOutsideFrame);
        }
        locals[slot] := v.value;
      case Pop =>
        var v := stack.Pop();
        if v.Err? {
          return Some(v.error);
        }
      case Negate =>
        var n := stack.PopI64();
        if n.Err? {
          return Some(n.error);
        }
        match CheckedNeg(n.value) {
          case None => return Some(Arithmetic(NegationOverflow));
          case Some(m) => stack.Push(IntValue(m));
        }
      case Not =>
        var b := stack.PopBool();
        if b.Err? {
          return Some(b.error);
        }
        stack.Push(BoolValue(!b.value));
      case Operate(op) =>
        error := stack.Operate(op);
    }

    /** One call: the function's instructions in order, on a fresh frame. */
    method Call(f: nat, arguments: seq<Value>, depth: nat) returns (r: Result<Value, VmError>)
      requires Valid()
      modifies this
      ensures Valid()
      ensures match RunCall(program, f, arguments, depth, old(State()))
              case Returned(v, m) => r == Ok(v) && State() == m
              case Failed(e, m) => r == Err(e) && State() == m
              case Running(_, _) => true
      decreases Room(depth), 2
    {
      if depth >= MAX_CALL_DEPTH {
        return Err(CallDepthExceeded);
      }
      if f >= |program.functions| {
        return Err(UnknownCallTarget);
      }
      var fn := program.functions[f];
      if |arguments| != fn.parameterCount {
        return Err(ArityMismatch);
      }
      if |arguments| > fn.localCount {
        return Err(ArgumentOutsideFrame);
      }
      var locals := new Value[fn.localCount](_ => UnitValue);
      for slot := 0 to |arguments|
        invariant fresh(locals) && locals[..] == arguments[..slot] + Units(fn.localCount - slot)
        invariant State() == old(State())
      {
        locals[slot] := arguments[slot];
      }
      assert arguments[..|arguments|] == arguments;
      entered := entered + [f];
      var stack := new OperandStack();
      var code := fn.instructions;
      ghost var start, m0 := EntryFrame(fn, arguments), State();
      assert code[0..] == code;
      for pc := 0 to |code|
        invariant Valid() && fresh(locals) && fresh(stack)
        invariant RunCode(program, f, depth, code, start, m0) ==
                  RunCode(program, f, depth, code[pc..], Frame(locals[..], stack.items), State())
      {
        assert code[pc..][0] == code[pc] && code[pc..][1..] == code[pc + 1..];
        var step := Dispatch(f, depth, code[pc], stack, locals);
        match step
        case Next =>
        case Done(v) => return Ok(v);
        case Stop(e) => return Err(e);
      }
      r := Err(MissingReturn);
    }

    /** Arguments are popped, the callee runs to its end, and its value is pushed. */
    method InvokeTarget(target: nat, count: nat, depth: nat, stack: OperandStack) returns (step: Step)
      requires Valid() && depth < MAX_CALL_DEPTH
      modifies this, stack
      ensures Valid()
      ensures var items := old(stack.items);
              if |items| < count then step == Stop(ArgumentUnderflow) && State() == old(State())
              else
                var base := |items| - count;
                match RunCall(program, target, items[base..], depth + 1, old(State()))
                case Returned(v, m) => step.Next? && stack.items == items[..base] + [v] && State() == m
                case Failed(e, m) => step == Stop(e) && State() == m
                case Running(_, _) => true
      decreases Room(depth), 0
    {
      hide RunCall;
      var popped := stack.PopArguments(count);
      if popped.Err? {
        return Stop(popped.error);
      }
      assert old(stack.items)[|stack.items|..] == popped.value && old(stack.items)[..|stack.items|] == stack.items;
      var called := Call(target, popped.value, depth + 1);
      match called
      case Ok(value) =>
        stack.Push(value);
        step := Next;
      case Err(e) => step := Stop(e);
    }

    method Dispatch(f: nat, depth: nat, i: Instruction, stack: OperandStack, locals: array<Value>) returns (step: Step)
      requires Valid() && f < |program.functions| && depth < MAX_CALL_DEPTH
      modifies this, stack, locals
      ensures Valid()
      ensures match RunStep(program, f, depth, i, Frame(old(locals[..]), old(stack.items)), old(State()))
              case Running(frame, m) =>
                step.Next? && stack.items == frame.stack && locals[..] == frame.locals && State() == m
              case Returned(v, m) => step == Done(v) && State() == m
              case Failed(e, m) => step == Stop(e) && State() == m
      decreases Room(depth), 1
    {
      hide RunCall, MakeRequestId, LocalStep;
      var ok := ConsumeInstruction();
      if !ok {
        return Stop(BudgetExhausted);
      }
      match i
      case Return =>
        var v := stack.Pop();
        match v {
          case Ok(value) => step := Done(value);
          case Err(e) => step := Stop(e);
        }
      case Invoke(target, count) =>
        step := InvokeTarget(target, count, depth, stack);
      case Request(_, _, _, _) =>
        var error := RecordRequest(program.functions[f].name, i, stack);
        step := if error.Some? then Stop(error.value) else Next;
      case _ =>
        var error := LocalInstruction(i, stack, locals);
        step := if error.Some? then Stop(error.value) else Next;
    }
  }
}
