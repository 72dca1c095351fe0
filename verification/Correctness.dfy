// The compiler preserves meaning: running the code of a function in the machine
// is evaluating the function, except that the machine may run out of budget.
module Correctness {
  import opened Prelude
  import opened Ast
  import opened Bytecode
  import opened Machine
  import opened Fuel
  import opened Semantics
  import opened Compiler

  // ---------- what a log means ----------

  function EventOf(q: EffectRequest): Event {
    Event(q.function_, q.effect, q.authoritySlot, q.information, q.arguments)
  }

  function EventsOf(log: seq<EffectRequest>): (r: seq<Event>)
    ensures |r| == |log|
  {
    seq(|log|, i requires 0 <= i < |log| => EventOf(log[i]))
  }

  lemma EventsAppend(log: seq<EffectRequest>, q: EffectRequest)
    ensures EventsOf(log + [q]) == EventsOf(log) + [EventOf(q)]
  {
  }

  // ---------- locals ----------

  predicate DistinctParameters(parameters: seq<Parameter>) {
    forall i, j :: 0 <= i < j < |parameters| ==> parameters[i].name != parameters[j].name
  }

  /** No let rebinds a name. */
  predicate FreshBody(body: seq<Statement<string>>, slots: Slots) {
    body == [] ||
    ((body[0].LetStatement? ==> body[0].name !in slots) && FreshBody(body[1..], SlotsAfter(body[0], slots)))
  }

  predicate LocalsDistinct(f: Function<string>) {
    DistinctParameters(f.parameters) && FreshBody(f.body, ParameterSlots(f.parameters))
  }

  /** The frame holds the value of each name in its slot. */
  predicate Holds(env: Env, slots: Slots, locals: seq<Value>) {
    env.Keys == slots.Keys && forall x :: x in slots ==> slots[x] < |locals| && locals[slots[x]] == env[x]
  }

  lemma {:induction false} ParameterSlotNames(parameters: seq<Parameter>, x: string)
    requires x in ParameterSlots(parameters)
    ensures exists i :: 0 <= i < |parameters| && parameters[i].name == x
  {
    var n := |parameters| - 1;
    if parameters[n].name != x {
      ParameterSlotNames(parameters[..n], x);
    }
  }

  lemma {:induction false} ParametersHold(parameters: seq<Parameter>, arguments: seq<Value>, locals: seq<Value>)
    requires |parameters| == |arguments| && DistinctParameters(parameters) && arguments <= locals
    ensures |ParameterSlots(parameters)| == |parameters| && Tight(ParameterSlots(parameters))
    ensures Holds(Bind(parameters, arguments), ParameterSlots(parameters), locals)
  {
    if parameters != [] {
      var n := |parameters| - 1;
      ParametersHold(parameters[..n], arguments[..n], locals);
      if parameters[n].name in ParameterSlots(parameters[..n]) {
        ParameterSlotNames(parameters[..n], parameters[n].name);
      }
    }
  }

  lemma LetHolds(env: Env, slots: Slots, locals: seq<Value>, x: string, v: Value)
    requires Holds(env, slots, locals) && Tight(slots) && x !in slots && |slots| < |locals|
    ensures Holds(env[x := v], slots[x := |slots|], locals[|slots| := v])
    ensures |slots[x := |slots|]| == |slots| + 1 && Tight(slots[x := |slots|])
  {
  }

  // ---------- the simulation ----------

  predicate LinkedAt(p: BytecodeProgram, ast: CanonicalProgram, f: nat) {
    && f < |p.functions| == |ast.functions|
    && CompileFunction(ast.functions[f], FunctionIndexes(ast.functions)) == Some(p.functions[f])
    && LocalsDistinct(ast.functions[f])
  }

  /** The program is the compiled tree, locals are distinct, and calls descend in rank. */
  ghost predicate Linked(p: BytecodeProgram, ast: CanonicalProgram, rank: seq<nat>) {
    && |p.functions| == |ast.functions|
    && p.schema == ast.schema && p.semanticDigest == IdentityOf(ast).digest
    && (forall f {:trigger LinkedAt(p, ast, f)} :: 0 <= f < |p.functions| ==> LinkedAt(p, ast, f))
    && Ranked(p.functions, rank)
  }

  /** The machine stops as the evaluation stops. */
  predicate SameStop(r: Flow, stop: Stop) {
    match stop
    case ArithmeticStop(failure) => r.Failed? && r.error == Arithmetic(failure)
    case UnencodableStop => r.Failed? && r.error.UnencodableRequest?
    case Stuck => r.Failed? && !r.error.Arithmetic? && !r.error.BudgetExhausted? && !r.error.UnencodableRequest?
    case TooDeep => false
  }

  predicate Simulates(r: Flow, o: Outcome<Value>, frame: Frame) {
    OutOfBudget(r) ||
    match o
    case Finished(v, log) =>
      r.Running? && r.frame == frame.(stack := frame.stack + [v]) && EventsOf(r.state.requests) == log
    case Stopped(stop) => SameStop(r, stop)
  }

  predicate SimulatesAll(r: Flow, o: Outcome<seq<Value>>, frame: Frame) {
    OutOfBudget(r) ||
    match o
    case Finished(vs, log) =>
      r.Running? && r.frame == frame.(stack := frame.stack + vs) && EventsOf(r.state.requests) == log
    case Stopped(stop) => SameStop(r, stop)
  }

  /** A body that falls off its end is stuck, while the machine is still running. */
  predicate SimulatesBody(r: Flow, o: Outcome<Value>) {
    OutOfBudget(r) ||
    match o
    case Finished(v, log) => r.Returned? && r.value == v && EventsOf(r.state.requests) == log
    case Stopped(stop) => SameStop(r, stop) || (stop.Stuck? && r.Running?)
  }

  predicate SimulatesCall(r: Flow, o: Outcome<Value>) {
    OutOfBudget(r) ||
    match o
    case Finished(v, log) => r.Returned? && r.value == v && EventsOf(r.state.requests) == log
    case Stopped(stop) => SameStop(r, stop)
  }

  lemma DivisionAgrees(a: i64, b: i64)
    ensures Divisible(a, b) <==> !DivisionFails(a, b)
  {
    if !DivisionFails(a, b) {
      TruncDivFits(a, b);
    }
  }

  lemma UnaryStep(p: BytecodeProgram, f: nat, depth: nat, op: UnaryOperator, v: Value, frame: Frame, m: MachineState)
    requires depth < MAX_CALL_DEPTH && f < |p.functions|
    ensures Simulates(RunStep(p, f, depth, UnaryInstruction(op), frame.(stack := frame.stack + [v]), m),
                      Apply(EvalUnary(op, v), EventsOf(m.requests)), frame)
  {
    assert (frame.stack + [v])[..|frame.stack|] == frame.stack;
  }

  lemma OperateMatches(op: BinaryOperator, l: Value, r: Value)
    ensures match EvalBinary(op, l, r)
            case Ok(v) => OperateOn(BinaryInstruction(op).opcode, [l, r]) == Ok([v])
            case Err(ArithmeticStop(failure)) =>
              OperateOn(BinaryInstruction(op).opcode, [l, r]) == Err(VmError.Arithmetic(failure))
            case Err(Stuck) =>
              var o := OperateOn(BinaryInstruction(op).opcode, [l, r]);
              o.Err? && !o.error.Arithmetic? && !o.error.BudgetExhausted?
            case Err(TooDeep) => false
  {
    assert [l, r][..1] == [l] && [l][..0] == [];
    if l.IntValue? && r.IntValue? {
      DivisionAgrees(l.int_, r.int_);
    }
    if EvalBinary(op, l, r).Ok? {
      assert [] + [EvalBinary(op, l, r).value] == [EvalBinary(op, l, r).value];
    }
  }

  lemma BinaryStep(p: BytecodeProgram, f: nat, depth: nat, op: BinaryOperator, l: Value, r: Value, frame: Frame, m: MachineState)
    requires depth < MAX_CALL_DEPTH && f < |p.functions|
    ensures Simulates(RunStep(p, f, depth, BinaryInstruction(op), frame.(stack := frame.stack + [l, r]), m),
                      Apply(EvalBinary(op, l, r), EventsOf(m.requests)), frame)
  {
    var stack := frame.stack + [l, r];
    OperateMatches(op, l, r);
    OperateTopTwo(BinaryInstruction(op).opcode, stack);
    assert stack[|stack| - 2..] == [l, r] && stack[..|stack| - 2] == frame.stack;
  }

  lemma {:induction false} SimulateExpression(p: BytecodeProgram, ast: CanonicalProgram, rank: seq<nat>, f: nat, depth: nat, k: nat,
                                              e: Expression<string>, slots: Slots, env: Env, frame: Frame, m: MachineState)
    requires Linked(p, ast, rank) && f < |p.functions|
    requires depth + rank[f] < MAX_CALL_DEPTH && rank[f] <= k
    requires Emit(e, slots, FunctionIndexes(ast.functions)).Some?
    requires CallsBelow(Emit(e, slots, FunctionIndexes(ast.functions)).value, rank, rank[f])
    requires Holds(env, slots, frame.locals)
    ensures Simulates(RunCode(p, f, depth, Emit(e, slots, FunctionIndexes(ast.functions)).value, frame, m),
                      EvalExpression(ast, env, e, EventsOf(m.requests), k), frame)
    decreases k, 1, e, 1
  {
    var indexes := FunctionIndexes(ast.functions);
    var code := Emit(e, slots, indexes).value;
    match e
    case Integer(text) =>
      RunOne(p, f, depth, Push(IntValue(ParseI64(text).value)), frame, m);
    case Boolean(b) =>
      RunOne(p, f, depth, Push(BoolValue(b)), frame, m);
    case Text(s) =>
      RunOne(p, f, depth, Push(TextValue(s)), frame, m);
    case Variable(name) =>
      RunOne(p, f, depth, LoadLocal(slots[name]), frame, m);
    case Unary(_, _) =>
      SimulateUnary(p, ast, rank, f, depth, k, e, slots, env, frame, m);
    case Binary(_, _, _) =>
      SimulateBinary(p, ast, rank, f, depth, k, e, slots, env, frame, m);
    case Call(_, _) =>
      SimulateCall(p, ast, rank, f, depth, k, e, slots, env, frame, m);
  }

  lemma {:induction false} SimulateUnary(p: BytecodeProgram, ast: CanonicalProgram, rank: seq<nat>, f: nat, depth: nat, k: nat,
                                         e: Expression<string>, slots: Slots, env: Env, frame: Frame, m: MachineState)
    requires e.Unary?
    requires Linked(p, ast, rank) && f < |p.functions|
    requires depth + rank[f] < MAX_CALL_DEPTH && rank[f] <= k
    requires Emit(e, slots, FunctionIndexes(ast.functions)).Some?
    requires CallsBelow(Emit(e, slots, FunctionIndexes(ast.functions)).value, rank, rank[f])
    requires Holds(env, slots, frame.locals)
    ensures Simulates(RunCode(p, f, depth, Emit(e, slots, FunctionIndexes(ast.functions)).value, frame, m),
                      EvalExpression(ast, env, e, EventsOf(m.requests), k), frame)
    decreases k, 1, e, 0
  {
    var c := Emit(e.operand, slots, FunctionIndexes(ast.functions)).value;
    var i := UnaryInstruction(e.unop);
    CallsBelowParts(c, [i], rank, rank[f]);
    SimulateExpression(p, ast, rank, f, depth, k, e.operand, slots, env, frame, m);
    RunAppend(p, f, depth, c, [i], frame, m);
    var r := RunCode(p, f, depth, c, frame, m);
    if r.Running? {
      RunOne(p, f, depth, i, r.frame, r.state);
      UnaryStep(p, f, depth, e.unop, EvalExpression(ast, env, e.operand, EventsOf(m.requests), k).result, frame, r.state);
    }
  }

  lemma {:induction false} SimulateBinary(p: BytecodeProgram, ast: CanonicalProgram, rank: seq<nat>, f: nat, depth: nat, k: nat,
                                          e: Expression<string>, slots: Slots, env: Env, frame: Frame, m: MachineState)
    requires e.Binary?
    requires Linked(p, ast, rank) && f < |p.functions|
    requires depth + rank[f] < MAX_CALL_DEPTH && rank[f] <= k
    requires Emit(e, slots, FunctionIndexes(ast.functions)).Some?
    requires CallsBelow(Emit(e, slots, FunctionIndexes(ast.functions)).value, rank, rank[f])
    requires Holds(env, slots, frame.locals)
    ensures Simulates(RunCode(p, f, depth, Emit(e, slots, FunctionIndexes(ast.functions)).value, frame, m),
                      EvalExpression(ast, env, e, EventsOf(m.requests), k), frame)
    decreases k, 1, e, 0
  {
    var indexes := FunctionIndexes(ast.functions);
    var c1, c2 := Emit(e.left, slots, indexes).value, Emit(e.right, slots, indexes).value;
    var i := BinaryInstruction(e.binop);
    CallsBelowParts(c1 + c2, [i], rank, rank[f]);
    CallsBelowParts(c1, c2, rank, rank[f]);
    SimulateExpression(p, ast, rank, f, depth, k, e.left, slots, env, frame, m);
    RunAppend(p, f, depth, c1 + c2, [i], frame, m);
    RunAppend(p, f, depth, c1, c2, frame, m);
    var r1 := RunCode(p, f, depth, c1, frame, m);
    if r1.Running? {
      var l := EvalExpression(ast, env, e.left, EventsOf(m.requests), k).result;
      SimulateExpression(p, ast, rank, f, depth, k, e.right, slots, env, r1.frame, r1.state);
      var r2 := RunCode(p, f, depth, c2, r1.frame, r1.state);
      if r2.Running? {
        var r := EvalExpression(ast, env, e.right, EventsOf(r1.state.requests), k).result;
        assert r2.frame.stack == frame.stack + [l, r];
        RunOne(p, f, depth, i, r2.frame, r2.state);
        BinaryStep(p, f, depth, e.binop, l, r, frame, r2.state);
      }
    }
  }

  lemma {:induction false} SimulateCall(p: BytecodeProgram, ast: CanonicalProgram, rank: seq<nat>, f: nat, depth: nat, k: nat,
                                        e: Expression<string>, slots: Slots, env: Env, frame: Frame, m: MachineState)
    requires e.Call?
    requires Linked(p, ast, rank) && f < |p.functions|
    requires depth + rank[f] < MAX_CALL_DEPTH && rank[f] <= k
    requires Emit(e, slots, FunctionIndexes(ast.functions)).Some?
    requires CallsBelow(Emit(e, slots, FunctionIndexes(ast.functions)).value, rank, rank[f])
    requires Holds(env, slots, frame.locals)
    ensures Simulates(RunCode(p, f, depth, Emit(e, slots, FunctionIndexes(ast.functions)).value, frame, m),
                      EvalExpression(ast, env, e, EventsOf(m.requests), k), frame)
    decreases k, 1, e, 0
  {
    hide FunctionIndexes, RunCall, EvalArguments, EvalFunction, CompileFunction;
    var indexes := FunctionIndexes(ast.functions);
    var c := EmitAll(e.arguments, slots, indexes).value;
    var target := indexes[e.callee];
    var invoke := Invoke(target, |e.arguments|);
    CallsBelowParts(c, [invoke], rank, rank[f]);
    assert [invoke][0] == invoke;
    SimulateArguments(p, ast, rank, f, depth, k, e.arguments, slots, env, frame, m);
    RunAppend(p, f, depth, c, [invoke], frame, m);
    var r := RunCode(p, f, depth, c, frame, m);
    if r.Running? {
      var values := EvalArguments(ast, env, e.arguments, EventsOf(m.requests), k).result;
      RunOne(p, f, depth, invoke, r.frame, r.state);
      assert r.frame.stack[|frame.stack|..] == values && r.frame.stack[..|frame.stack|] == frame.stack;
      if r.state.remaining > 0 {
        var m1 := r.state.(remaining := r.state.remaining - 1, executed := r.state.executed + 1);
        SimulateFunction(p, ast, rank, target, values, depth + 1, k - 1, m1);
      }
    }
  }

  lemma {:induction false} SimulateArguments(p: BytecodeProgram, ast: CanonicalProgram, rank: seq<nat>, f: nat, depth: nat, k: nat,
                                             es: seq<Expression<string>>, slots: Slots, env: Env, frame: Frame, m: MachineState)
    requires Linked(p, ast, rank) && f < |p.functions|
    requires depth + rank[f] < MAX_CALL_DEPTH && rank[f] <= k
    requires EmitAll(es, slots, FunctionIndexes(ast.functions)).Some?
    requires CallsBelow(EmitAll(es, slots, FunctionIndexes(ast.functions)).value, rank, rank[f])
    requires Holds(env, slots, frame.locals)
    ensures SimulatesAll(RunCode(p, f, depth, EmitAll(es, slots, FunctionIndexes(ast.functions)).value, frame, m),
                         EvalArguments(ast, env, es, EventsOf(m.requests), k), frame)
    decreases k, 1, es, 0
  {
    if es == [] {
      assert frame.stack + [] == frame.stack;
    } else {
      var indexes := FunctionIndexes(ast.functions);
      var c1, c2 := Emit(es[0], slots, indexes).value, EmitAll(es[1..], slots, indexes).value;
      CallsBelowParts(c1, c2, rank, rank[f]);
      SimulateExpression(p, ast, rank, f, depth, k, es[0], slots, env, frame, m);
      RunAppend(p, f, depth, c1, c2, frame, m);
      var r1 := RunCode(p, f, depth, c1, frame, m);
      if r1.Running? {
        var v := EvalExpression(ast, env, es[0], EventsOf(m.requests), k).result;
        SimulateArguments(p, ast, rank, f, depth, k, es[1..], slots, env, r1.frame, r1.state);
        FirstThenOthers(RunCode(p, f, depth, c2, r1.frame, r1.state), v,
                        EvalArguments(ast, env, es[1..], EventsOf(r1.state.requests), k), frame, r1.frame);
      }
    }
  }

  /** The value of the first argument lies below the values of the others. */
  lemma FirstThenOthers(r: Flow, v: Value, rest: Outcome<seq<Value>>, frame: Frame, first: Frame)
    requires SimulatesAll(r, rest, first) && first == Frame(frame.locals, frame.stack + [v])
    ensures SimulatesAll(r, match rest
                            case Finished(vs, log) => Finished([v] + vs, log)
                            case Stopped(stop) => Stopped(stop), frame)
  {
    if rest.Finished? {
      assert frame.stack + [v] + rest.result == frame.stack + ([v] + rest.result);
    }
  }

  lemma CallsBelowParts(c1: seq<Instruction>, c2: seq<Instruction>, rank: seq<nat>, bound: nat)
    ensures CallsBelow(c1 + c2, rank, bound) <==> CallsBelow(c1, rank, bound) && CallsBelow(c2, rank, bound)
  {
    var c := c1 + c2;
    if CallsBelow(c, rank, bound) {
      assert forall i :: 0 <= i < |c1| ==> c1[i] == c[i];
      assert forall i :: 0 <= i < |c2| ==> c2[i] == c[|c1| + i];
    }
  }

  lemma {:induction false} SimulateFunction(p: BytecodeProgram, ast: CanonicalProgram, rank: seq<nat>, f: nat, arguments: seq<Value>,
                                            depth: nat, k: nat, m: MachineState)
    requires Linked(p, ast, rank) && f < |p.functions|
    requires depth + rank[f] < MAX_CALL_DEPTH && rank[f] <= k
    ensures SimulatesCall(RunCall(p, f, arguments, depth, m), EvalFunction(ast, f, arguments, EventsOf(m.requests), k))
    decreases k, 4
  {
    hide RunCode, EvalBody, EmitBody, FunctionIndexes, LetTypes, LetLabels;
    assert LinkedAt(p, ast, f) && RankedAt(p.functions, rank, f);
    var fn, source := p.functions[f], ast.functions[f];
    if |arguments| == |source.parameters| {
      var frame := EntryFrame(fn, arguments);
      ParametersHold(source.parameters, arguments, frame.locals);
      SimulateBody(p, ast, rank, f, depth, k, source.body, ParameterSlots(source.parameters),
                   Bind(source.parameters, arguments), frame, m.(entered := m.entered + [f]));
    }
  }

  lemma {:induction false} SimulateBody(p: BytecodeProgram, ast: CanonicalProgram, rank: seq<nat>, f: nat, depth: nat, k: nat,
                                        body: seq<Statement<string>>, slots: Slots, env: Env, frame: Frame, m: MachineState)
    requires Linked(p, ast, rank) && f < |p.functions|
    requires depth + rank[f] < MAX_CALL_DEPTH && rank[f] <= k
    requires EmitBody(body, slots, FunctionIndexes(ast.functions)).Some?
    requires CallsBelow(EmitBody(body, slots, FunctionIndexes(ast.functions)).value, rank, rank[f])
    requires Holds(env, slots, frame.locals) && Tight(slots) && FreshBody(body, slots)
    requires |slots| + |LetTypes(body)| <= |frame.locals| && frame.stack == []
    requires p.functions[f].name == ast.functions[f].name
    ensures SimulatesBody(RunCode(p, f, depth, EmitBody(body, slots, FunctionIndexes(ast.functions)).value, frame, m),
                          EvalBody(ast, ast.functions[f].name, env, body, EventsOf(m.requests), k))
    decreases k, 3, |body|
  {
    if body != [] {
      var indexes := FunctionIndexes(ast.functions);
      var s := body[0];
      var c1, c2 := EmitStatement(s, slots, indexes).value, EmitBody(body[1..], SlotsAfter(s, slots), indexes).value;
      CallsBelowParts(c1, c2, rank, rank[f]);
      RunAppend(p, f, depth, c1, c2, frame, m);
      SimulateStatement(p, ast, rank, f, depth, k, s, slots, env, frame, m);
      var r := RunCode(p, f, depth, c1, frame, m);
      if r.Running? {
        var next := EvalStatement(ast, ast.functions[f].name, env, s, EventsOf(m.requests), k);
        SimulateBody(p, ast, rank, f, depth, k, body[1..], SlotsAfter(s, slots), next.env, r.frame, r.state);
      }
    }
  }

  /** After a statement the frame holds the new environment, in the slots that follow. */
  predicate SimulatesStatement(r: Flow, progress: Progress, slots: Slots, size: nat) {
    OutOfBudget(r) ||
    match progress
    case Continues(env, log) =>
      && r.Running? && r.frame.stack == [] && |r.frame.locals| == size
      && Holds(env, slots, r.frame.locals) && Tight(slots) && EventsOf(r.state.requests) == log
    case Returns(v, log) => r.Returned? && r.value == v && EventsOf(r.state.requests) == log
    case Halts(stop) => SameStop(r, stop)
  }

  lemma {:induction false} SimulateStatement(p: BytecodeProgram, ast: CanonicalProgram, rank: seq<nat>, f: nat, depth: nat, k: nat,
                                             s: Statement<string>, slots: Slots, env: Env, frame: Frame, m: MachineState)
    requires Linked(p, ast, rank) && f < |p.functions|
    requires depth + rank[f] < MAX_CALL_DEPTH && rank[f] <= k
    requires EmitStatement(s, slots, FunctionIndexes(ast.functions)).Some?
    requires CallsBelow(EmitStatement(s, slots, FunctionIndexes(ast.functions)).value, rank, rank[f])
    requires Holds(env, slots, frame.locals) && Tight(slots) && frame.stack == []
    requires s.LetStatement? ==> s.name !in slots && |slots| < |frame.locals|
    requires p.functions[f].name == ast.functions[f].name
    ensures SimulatesStatement(RunCode(p, f, depth, EmitStatement(s, slots, FunctionIndexes(ast.functions)).value, frame, m),
                               EvalStatement(ast, ast.functions[f].name, env, s, EventsOf(m.requests), k),
                               SlotsAfter(s, slots), |frame.locals|)
    decreases k, 2, 0
  {
    match s
    case ReturnStatement(None) =>
      SimulateBareReturn(p, f, depth, frame, m);
    case RequestStatement(effect, authority, information, arguments) =>
      SimulateRequest(p, ast, rank, f, depth, k, s, slots, env, frame, m);
    case LetStatement(x, _, _, value) =>
      SimulateOperand(p, ast, rank, f, depth, k, value, StoreLocal(|slots|), slots, env, frame, m);
      var o := EvalExpression(ast, env, value, EventsOf(m.requests), k);
      if o.Finished? {
        LetHolds(env, slots, frame.locals, x, o.result);
      }
    case ReturnStatement(Some(e)) =>
      SimulateOperand(p, ast, rank, f, depth, k, e, Return, slots, env, frame, m);
    case ExpressionStatement(e) =>
      SimulateOperand(p, ast, rank, f, depth, k, e, Pop, slots, env, frame, m);
  }

  lemma SimulateBareReturn(p: BytecodeProgram, f: nat, depth: nat, frame: Frame, m: MachineState)
    requires depth < MAX_CALL_DEPTH && f < |p.functions|
    ensures var r := RunCode(p, f, depth, [Push(UnitValue), Return], frame, m);
            OutOfBudget(r) || (r.Returned? && r.value == UnitValue && r.state.requests == m.requests)
  {
    assert [Push(UnitValue)] + [Return] == [Push(UnitValue), Return];
    RunAppend(p, f, depth, [Push(UnitValue)], [Return], frame, m);
    RunOne(p, f, depth, Push(UnitValue), frame, m);
    var r1 := RunCode(p, f, depth, [Push(UnitValue)], frame, m);
    if r1.Running? {
      RunOne(p, f, depth, Return, r1.frame, r1.state);
    }
  }

  /** An expression on the empty stack, followed by one instruction that takes its value away. */
  lemma {:induction false} SimulateOperand(p: BytecodeProgram, ast: CanonicalProgram, rank: seq<nat>, f: nat, depth: nat, k: nat,
                                           e: Expression<string>, i: Instruction, slots: Slots, env: Env, frame: Frame, m: MachineState)
    requires Linked(p, ast, rank) && f < |p.functions|
    requires depth + rank[f] < MAX_CALL_DEPTH && rank[f] <= k
    requires Emit(e, slots, FunctionIndexes(ast.functions)).Some?
    requires CallsBelow(Emit(e, slots, FunctionIndexes(ast.functions)).value + [i], rank, rank[f])
    requires Holds(env, slots, frame.locals) && frame.stack == []
    requires i.Pop? || i.Return? || (i.StoreLocal? && i.slot < |frame.locals|)
    ensures var r := RunCode(p, f, depth, Emit(e, slots, FunctionIndexes(ast.functions)).value + [i], frame, m);
            OutOfBudget(r) ||
            match EvalExpression(ast, env, e, EventsOf(m.requests), k)
            case Stopped(stop) => SameStop(r, stop)
            case Finished(v, log) =>
              && EventsOf(r.state.requests) == log
              && (if i.Return? then r.Returned? && r.value == v
                  else r.Running? && r.frame == Frame(if i.Pop? then frame.locals else frame.locals[i.slot := v], []))
    decreases k, 1, e, 2
  {
    hide Emit, EvalExpression, FunctionIndexes;
    var c := Emit(e, slots, FunctionIndexes(ast.functions)).value;
    CallsBelowParts(c, [i], rank, rank[f]);
    SimulateExpression(p, ast, rank, f, depth, k, e, slots, env, frame, m);
    RunAppend(p, f, depth, c, [i], frame, m);
    var r1 := RunCode(p, f, depth, c, frame, m);
    if r1.Running? {
      RunOne(p, f, depth, i, r1.frame, r1.state);
    }
  }

  lemma {:induction false} SimulateRequest(p: BytecodeProgram, ast: CanonicalProgram, rank: seq<nat>, f: nat, depth: nat, k: nat,
                                           s: Statement<string>, slots: Slots, env: Env, frame: Frame, m: MachineState)
    requires Linked(p, ast, rank) && f < |p.functions| && s.RequestStatement?
    requires depth + rank[f] < MAX_CALL_DEPTH && rank[f] <= k
    requires EmitStatement(s, slots, FunctionIndexes(ast.functions)).Some?
    requires CallsBelow(EmitStatement(s, slots, FunctionIndexes(ast.functions)).value, rank, rank[f])
    requires Holds(env, slots, frame.locals) && Tight(slots) && frame.stack == []
    requires p.functions[f].name == ast.functions[f].name
    ensures SimulatesStatement(RunCode(p, f, depth, EmitStatement(s, slots, FunctionIndexes(ast.functions)).value, frame, m),
                               EvalStatement(ast, ast.functions[f].name, env, s, EventsOf(m.requests), k),
                               slots, |frame.locals|)
    decreases k, 1, s.arguments, 1
  {
    hide FunctionIndexes, RunCall, RunStep, CompileFunction, Recorded, Holds, Tight;
    var c := EmitAll(s.arguments, slots, FunctionIndexes(ast.functions)).value;
    var request := Request(s.effect, s.authority, s.information, |s.arguments|);
    CallsBelowParts(c, [request], rank, rank[f]);
    SimulateArguments(p, ast, rank, f, depth, k, s.arguments, slots, env, frame, m);
    RunAppend(p, f, depth, c, [request], frame, m);
    var r1 := RunCode(p, f, depth, c, frame, m);
    if r1.Running? {
      var values := EvalArguments(ast, env, s.arguments, EventsOf(m.requests), k).result;
      assert r1.frame.stack == values;
      RunOne(p, f, depth, request, r1.frame, r1.state);
      RequestStep(p, ast, f, depth, request, slots, env, r1.frame, r1.state);
    }
  }

  /** Recording the request on the machine is recording it in the evaluation. */
  lemma RequestStep(p: BytecodeProgram, ast: CanonicalProgram, f: nat, depth: nat, i: Instruction, slots: Slots, env: Env,
                    frame: Frame, m: MachineState)
    requires depth < MAX_CALL_DEPTH && f < |p.functions| && i.Request?
    requires p.schema == ast.schema && p.semanticDigest == IdentityOf(ast).digest
    requires i.argumentCount == |frame.stack| && Holds(env, slots, frame.locals) && Tight(slots)
    ensures SimulatesStatement(RunStep(p, f, depth, i, frame, m),
                               Recorded(ast, env, Event(p.functions[f].name, i.effect, i.authority, i.information, frame.stack),
                                        EventsOf(m.requests)), slots, |frame.locals|)
  {
    hide RunCall, IdEncodes, LocalStep, Holds, Tight;
    if m.remaining > 0 {
      assert frame.stack[0..] == frame.stack;
      var r := RunStep(p, f, depth, i, frame, m);
      if r.Running? {
        var q := r.state.requests[|m.requests|];
        assert r.state.requests == m.requests + [q];
        EventsAppend(m.requests, q);
      }
    }
  }
}
