// The bounded virtual machine of joan-compiler. RunCall, RunCode and RunStep specify what
// one call, one instruction list and one instruction do; class Machine is the
// machine itself, with its counters and request log updated in place.
module Machine {
  import opened Prelude
  import opened Ast
  import opened Bytecode
  import J = CanonicalJson
  import Encoding

  const MAX_CALL_DEPTH: nat := 1024

  datatype ArithmeticFailure = NegationOverflow | AdditionFailed | SubtractionFailed
                             | MultiplicationFailed | DivisionFailed | RemainderFailed

  datatype VmError =
    | CallDepthExceeded
    | UnknownCallTarget
    | ArityMismatch
    | ArgumentOutsideFrame
    | BudgetExhausted
    | LoadOutsideFrame
    | StoreOutsideFrame
    | StackUnderflow
    | ExpectedI64
    | ExpectedBool
    | ArgumentUnderflow
    | Arithmetic(failure: ArithmeticFailure)
    | MissingAuthority
    | MissingInformation
    | UnencodableRequest
    | MissingReturn

  // A request identity stands for the exact content it was derived from.
  datatype RequestId =
    | LegacyId(semantic: Digest, index: nat)
    | LinearId(semantic: Digest, index: nat, function_: string, effect: string, slot: string,
               arguments: seq<Value>)
    | InformationId(semantic: Digest, index: nat, function_: string, effect: string, slot: string,
                    information: Label, arguments: seq<Value>)

  datatype EffectRequest = EffectRequest(
    index: nat,
    id: RequestId,
    function_: string,
    effect: string,
    authoritySlot: Option<string>,
    information: Option<Label>,
    arguments: seq<Value>)

  /** What is digested for an identity; legacy identities are not digests. */
  function IdJson(id: RequestId): J.CanonicalValue {
    match id
    case LegacyId(_, _) => J.Null
    case LinearId(semantic, index, function_, effect, slot, arguments) =>
      Encoding.RequestJson(semantic, index, function_, effect, slot, None, arguments)
    case InformationId(semantic, index, function_, effect, slot, information, arguments) =>
      Encoding.RequestJson(semantic, index, function_, effect, slot, Some(information), arguments)
  }

  predicate EncodesId(v: J.CanonicalValue, id: RequestId) {
    v == IdJson(id)
  }

  /** The request can be encoded, so that its identity exists. */
  ghost predicate IdEncodes(id: RequestId) {
    id.LegacyId? || forall v :: EncodesId(v, id) ==> Encoding.Encodable(v)
  }

  /** Whether an identity exists, decided by encoding the request. */
  method CheckId(id: RequestId) returns (ok: bool)
    ensures ok <==> IdEncodes(id)
  {
    hide Encoding.Encodable, Encoding.RequestJson;
    if id.LegacyId? {
      return true;
    }
    assert EncodesId(IdJson(id), id);
    ok := Encoding.CheckEncodable(IdJson(id));
  }

  /** What identifies a request of a profile; None when a slot or a label is missing. */
  function ProfileId(schema: Schema, semantic: Digest, index: nat, function_: string, effect: string, slot: Option<string>,
                     information: Option<Label>, arguments: seq<Value>): Option<RequestId>
  {
    if schema.Information? then
      if slot.None? || information.None? then None
      else Some(InformationId(semantic, index, function_, effect, slot.value, information.value, arguments))
    else if schema.Linear? then
      if slot.None? then None else Some(LinearId(semantic, index, function_, effect, slot.value, arguments))
    else Some(LegacyId(semantic, index))
  }

  /** The identity that belongs to a request, derived from what the request says. */
  function DerivedId(schema: Schema, semantic: Digest, q: EffectRequest): Option<RequestId> {
    ProfileId(schema, semantic, q.index, q.function_, q.effect, q.authoritySlot, q.information, q.arguments)
  }

  // Counters and request log. The list of functions entered so far, in order,
  // only serves to state how often a function ran.
  datatype MachineState = MachineState(
    remaining: nat,
    executed: nat,
    requests: seq<EffectRequest>,
    entered: seq<nat>)

  datatype Frame = Frame(locals: seq<Value>, stack: seq<Value>)

  datatype Flow =
    | Running(frame: Frame, state: MachineState)
    | Returned(value: Value, state: MachineState)
    | Failed(error: VmError, state: MachineState)

  // ---------- operand stack ----------

  function PopValue(stack: seq<Value>): Result<(seq<Value>, Value), VmError> {
    if stack == [] then Err(StackUnderflow) else Ok((stack[..|stack| - 1], stack[|stack| - 1]))
  }

  function PopI64(stack: seq<Value>): Result<(seq<Value>, i64), VmError> {
    match PopValue(stack)
    case Ok((rest, IntValue(n))) => Ok((rest, n))
    case Ok(_) => Err(ExpectedI64)
    case Err(e) => Err(e)
  }

  function PopBool(stack: seq<Value>): Result<(seq<Value>, bool), VmError> {
    match PopValue(stack)
    case Ok((rest, BoolValue(b))) => Ok((rest, b))
    case Ok(_) => Err(ExpectedBool)
    case Err(e) => Err(e)
  }

  predicate IsArithmetic(op: Opcode) {
    op.AddI64? || op.SubI64? || op.MulI64? || op.DivI64? || op.RemI64?
  }

  predicate IsOrdering(op: Opcode) {
    op.LessI64? || op.LessEqualI64? || op.GreaterI64? || op.GreaterEqualI64?
  }

  predicate IsLogical(op: Opcode) {
    op.AndBool? || op.OrBool?
  }

  function FailureOf(op: Opcode): ArithmeticFailure
    requires IsArithmetic(op)
  {
    match op
    case AddI64 => AdditionFailed
    case SubI64 => SubtractionFailed
    case MulI64 => MultiplicationFailed
    case DivI64 => DivisionFailed
    case RemI64 => RemainderFailed
  }

  function Compute(op: Opcode, left: i64, right: i64): Option<i64>
    requires IsArithmetic(op)
  {
    match op
    case AddI64 => CheckedAdd(left, right)
    case SubI64 => CheckedSub(left, right)
    case MulI64 => CheckedMul(left, right)
    case DivI64 => CheckedDiv(left, right)
    case RemI64 => CheckedRem(left, right)
  }

  function Compare(op: Opcode, left: i64, right: i64): bool
    requires IsOrdering(op)
  {
    match op
    case LessI64 => left < right
    case LessEqualI64 => left <= right
    case GreaterI64 => left > right
    case GreaterEqualI64 => left >= right
  }

  /** Two-operand opcodes: the right operand is popped first. */
  function OperateOn(op: Opcode, stack: seq<Value>): Result<seq<Value>, VmError> {
    if IsArithmetic(op) then
      match PopI64(stack)
      case Err(e) => Err(e)
      case Ok((s1, right)) =>
        match PopI64(s1)
        case Err(e) => Err(e)
        case Ok((s2, left)) =>
          match Compute(op, left, right)
          case None => Err(Arithmetic(FailureOf(op)))
          case Some(n) => Ok(s2 + [IntValue(n)])
    else if IsOrdering(op) then
      match PopI64(stack)
      case Err(e) => Err(e)
      case Ok((s1, right)) =>
        match PopI64(s1)
        case Err(e) => Err(e)
        case Ok((s2, left)) => Ok(s2 + [BoolValue(Compare(op, left, right))])
    else if IsLogical(op) then
      match PopBool(stack)
      case Err(e) => Err(e)
      case Ok((s1, right)) =>
        match PopBool(s1)
        case Err(e) => Err(e)
        case Ok((s2, left)) => Ok(s2 + [BoolValue(if op.AndBool? then left && right else left || right)])
    else
      match PopValue(stack)
      case Err(e) => Err(e)
      case Ok((s1, right)) =>
        match PopValue(s1)
        case Err(e) => Err(e)
        case Ok((s2, left)) => Ok(s2 + [BoolValue((left == right) == op.EqualAny?)])
  }

  /** Two-operand opcodes look at the top two values only. */
  lemma OperateTopTwo(op: Opcode, stack: seq<Value>)
    requires |stack| >= 2
    ensures var n := |stack|;
            OperateOn(op, stack) ==
            match OperateOn(op, stack[n - 2..])
            case Ok(result) => Ok(stack[..n - 2] + result)
            case Err(e) => Err(e)
  {
    var n := |stack|;
    var top := stack[n - 2..];
    assert stack[..n - 1][..n - 2] == stack[..n - 2];
    assert top == [stack[n - 2], stack[n - 1]];
    assert top[..1] == [stack[n - 2]] && top[..1][..0] == [];
    if OperateOn(op, top).Ok? {
      assert OperateOn(op, stack).value == stack[..n - 2] + OperateOn(op, top).value;
    }
  }

  lemma OperateNeedsTwo(op: Opcode, stack: seq<Value>)
    requires OperateOn(op, stack).Ok?
    ensures |stack| >= 2
  {
  }

  // ---------- instructions that stay inside the frame ----------

  predicate IsLocalStep(i: Instruction) {
    !i.Invoke? && !i.Request? && !i.Return?
  }

  function LocalStep(i: Instruction, frame: Frame): Result<Frame, VmError>
    requires IsLocalStep(i)
  {
    match i
    case Push(v) => Ok(frame.(stack := frame.stack + [v]))
    case LoadLocal(slot) =>
      if slot < |frame.locals| then Ok(frame.(stack := frame.stack + [frame.locals[slot]]))
      else Err(LoadOutsideFrame)
    case StoreLocal(slot) =>
      (match PopValue(frame.stack)
       case Err(e) => Err(e)
       case Ok((rest, v)) =>
         if slot < |frame.locals| then Ok(Frame(frame.locals[slot := v], rest)) else Err(StoreOutsideFrame))
    case Pop =>
      (match PopValue(frame.stack)
       case Err(e) => Err(e)
       case Ok((rest, _)) => Ok(frame.(stack := rest)))
    case Negate =>
      (match PopI64(frame.stack)
       case Err(e) => Err(e)
       case Ok((rest, n)) =>
         match CheckedNeg(n)
         case None => Err(Arithmetic(NegationOverflow))
         case Some(m) => Ok(frame.(stack := rest + [IntValue(m)])))
    case Not =>
      (match PopBool(frame.stack)
       case Err(e) => Err(e)
       case Ok((rest, b)) => Ok(frame.(stack := rest + [BoolValue(!b)])))
    case Operate(op) =>
      (match OperateOn(op, frame.stack)
       case Err(e) => Err(e)
       case Ok(stack) => Ok(frame.(stack := stack)))
  }

  // ---------- requests ----------

  /** The identity of a request, as far as the profile and the bounds on encodings let it have one. */
  ghost function MakeRequestId(p: BytecodeProgram, function_: string, i: Instruction, index: nat, arguments: seq<Value>): Result<RequestId, VmError>
    requires i.Request?
  {
    match ProfileId(p.schema, p.semanticDigest, index, function_, i.effect, i.authority, i.information, arguments)
    case None => Err(if i.authority.None? then MissingAuthority else MissingInformation)
    case Some(id) => if IdEncodes(id) then Ok(id) else Err(UnencodableRequest)
  }

  ghost function RecordRequest(p: BytecodeProgram, function_: string, i: Instruction, frame: Frame,
                         m: MachineState): Flow
    requires i.Request?
  {
    if |frame.stack| < i.argumentCount then Failed(ArgumentUnderflow, m)
    else
      var base := |frame.stack| - i.argumentCount;
      var arguments := frame.stack[base..];
      var index := |m.requests|;
      match MakeRequestId(p, function_, i, index, arguments)
      case Err(e) => Failed(e, m)
      case Ok(id) =>
        var request := EffectRequest(index, id, function_, i.effect, i.authority, i.information, arguments);
        Running(frame.(stack := frame.stack[..base]), m.(requests := m.requests + [request]))
  }

  // ---------- one call, one instruction list, one instruction ----------

  function Room(depth: nat): nat {
    if depth < MAX_CALL_DEPTH then MAX_CALL_DEPTH - depth else 0
  }

  function Units(n: nat): (u: seq<Value>)
    ensures |u| == n
  {
    seq(n, i => UnitValue)
  }

  /** Arguments fill the first slots; the remaining slots start as unit. */
  function EntryFrame(f: BytecodeFunction, arguments: seq<Value>): Frame {
    Frame(arguments + Units(if |arguments| < f.localCount then f.localCount - |arguments| else 0), [])
  }

  ghost function RunCall(p: BytecodeProgram, f: nat, arguments: seq<Value>, depth: nat, m: MachineState): (r: Flow)
    ensures !r.Running?
    decreases Room(depth), 2, 0
  {
    if depth >= MAX_CALL_DEPTH then Failed(CallDepthExceeded, m)
    else if f >= |p.functions| then Failed(UnknownCallTarget, m)
    else
      var function_ := p.functions[f];
      if |arguments| != function_.parameterCount then Failed(ArityMismatch, m)
      else if |arguments| > function_.localCount then Failed(ArgumentOutsideFrame, m)
      else
        match RunCode(p, f, depth, function_.instructions, EntryFrame(function_, arguments), m.(entered := m.entered + [f]))
        case Running(_, m') => Failed(MissingReturn, m')
        case stopped => stopped
  }

  ghost function RunCode(p: BytecodeProgram, f: nat, depth: nat, code: seq<Instruction>, frame: Frame,
               m: MachineState): Flow
    requires depth < MAX_CALL_DEPTH && f < |p.functions|
    decreases Room(depth), 1, |code|
  {
    if code == [] then Running(frame, m)
    else
      match RunStep(p, f, depth, code[0], frame, m)
      case Running(frame', m') => RunCode(p, f, depth, code[1..], frame', m')
      case stopped => stopped
  }

  ghost function RunStep(p: BytecodeProgram, f: nat, depth: nat, i: Instruction, frame: Frame, m: MachineState): Flow
    requires depth < MAX_CALL_DEPTH && f < |p.functions|
    decreases Room(depth), 0, 0
  {
    if m.remaining == 0 then Failed(BudgetExhausted, m)
    else
      var m1 := m.(remaining := m.remaining - 1, executed := m.executed + 1);
      match i
      case Return =>
        (match PopValue(frame.stack)
         case Err(e) => Failed(e, m1)
         case Ok((_, v)) => Returned(v, m1))
      case Invoke(target, n) =>
        if |frame.stack| < n then Failed(ArgumentUnderflow, m1)
        else
          var base := |frame.stack| - n;
          var called := RunCall(p, target, frame.stack[base..], depth + 1, m1);
          if called.Returned? then
            Running(frame.(stack := frame.stack[..base] + [called.value]), called.state)
          else called
      case Request(_, _, _, _) => RecordRequest(p, p.functions[f].name, i, frame, m1)
      case _ =>
        (match LocalStep(i, frame)
         case Err(e) => Failed(e, m1)
         case Ok(frame') => Running(frame', m1))
  }

  lemma RunOne(p: BytecodeProgram, f: nat, depth: nat, i: Instruction, frame: Frame, m: MachineState)
    requires depth < MAX_CALL_DEPTH && f < |p.functions|
    ensures RunCode(p, f, depth, [i], frame, m) == RunStep(p, f, depth, i, frame, m)
  {
    var r := RunStep(p, f, depth, i, frame, m);
    if r.Running? {
      assert RunCode(p, f, depth, [], r.frame, r.state) == r;
    }
  }

  /** Running two instruction lists in a row is running their concatenation. */
  lemma {:induction false} RunAppend(p: BytecodeProgram, f: nat, depth: nat, a: seq<Instruction>, b: seq<Instruction>,
                                     frame: Frame, m: MachineState)
    requires depth < MAX_CALL_DEPTH && f < |p.functions|
    ensures RunCode(p, f, depth, a + b, frame, m) ==
            match RunCode(p, f, depth, a, frame, m)
            case Running(frame', m') => RunCode(p, f, depth, b, frame', m')
            case stopped => stopped
    decreases |a|
  {
    if a == [] {
      assert a + b == b;
    } else {
      assert (a + b)[1..] == a[1..] + b;
      match RunStep(p, f, depth, a[0], frame, m)
      case Running(frame', m') => RunAppend(p, f, depth, a[1..], b, frame', m');
      case _ =>
    }
  }
}
