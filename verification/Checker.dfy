// The static checker as it runs: one object that collects signatures, walks the
// bodies counting diagnostics and recording calls, and then searches the calls
// for cycles in whatever order the signature table yields its names.
module Checker {
  import opened Prelude
  import opened CallGraph
  import opened Ast
  import opened CheckRules
  import opened CheckedPrograms
  import opened Acceptance

  type Calls = map<string, seq<string>>

  function CallsOf(calls: Calls, name: string): seq<string> {
    if name in calls then calls[name] else []
  }

  function AddCalls(calls: Calls, caller: string, callees: seq<string>): Calls {
    if callees == [] then calls else calls[caller := CallsOf(calls, caller) + callees]
  }

  lemma AddCallsTwice(calls: Calls, caller: string, a: seq<string>, b: seq<string>)
    ensures AddCalls(AddCalls(calls, caller, a), caller, b) == AddCalls(calls, caller, a + b)
  {
    if a == [] {
      assert a + b == b;
    } else if b == [] {
      assert a + b == a;
    } else {
      assert CallsOf(calls, caller) + (a + b) == CallsOf(calls, caller) + a + b;
    }
  }

  class Checker {
    const program: Program
    const linearProfile: bool
    var signatures: Signatures
    var calls: Calls
    var diagnostics: nat
    var visiting: set<string>
    var visited: set<string>

    constructor (program: Program)
      ensures this.program == program && linearProfile == LinearProfile(program)
      ensures signatures == map[] && calls == map[] && diagnostics == 0 && visiting == {} && visited == {}
    {
      this.program := program;
      linearProfile := program.informationFlow || MentionsAuthority(program.functions);
      signatures, calls, diagnostics, visiting, visited := map[], map[], 0, {}, {};
    }

    method Report(problem: bool)
      modifies this`diagnostics
      ensures diagnostics == old(diagnostics) + One(problem)
    {
      if problem {
        diagnostics := diagnostics + 1;
      }
    }

    // ---------- signatures ----------

    method CheckInformationShape(f: Function<i64>)
      modifies this`diagnostics
      ensures diagnostics == old(diagnostics) + InformationShape(program.informationFlow, f)
    {
      var flow := program.informationFlow;
      Report(flow != f.returnInformation.Some?);
      assert f.parameters[0..] == f.parameters && f.body[0..] == f.body;
      for k := 0 to |f.parameters|
        invariant diagnostics + ParameterShape(flow, f.parameters[k..]) ==
                  old(diagnostics) + ShapeError(flow, f.returnInformation) + ParameterShape(flow, f.parameters)
      {
        assert f.parameters[k..][1..] == f.parameters[k + 1..];
        Report(flow != f.parameters[k].information.Some?);
      }
      for k := 0 to |f.body|
        invariant diagnostics + BodyShape(flow, f.body[k..]) == old(diagnostics) + InformationShape(flow, f)
      {
        assert f.body[k..][1..] == f.body[k + 1..];
        var s := f.body[k];
        if s.LetStatement? || s.RequestStatement? {
          Report(flow != s.information.Some?);
        }
      }
    }

    /** A set insertion that finds its element already present is a repeat. */
    method CollectEffects(effects: seq<string>) returns (collected: set<string>)
      modifies this`diagnostics
      ensures diagnostics == old(diagnostics) + Repeats(effects) && collected == EffectSet(effects)
    {
      collected := {};
      for k := 0 to |effects|
        invariant collected == EffectSet(effects[..k])
        invariant diagnostics == old(diagnostics) + Repeats(effects[..k])
      {
        assert effects[..k + 1][..k] == effects[..k];
        Report(effects[k] in collected);
        collected := collected + {effects[k]};
      }
      assert effects[..|effects|] == effects;
    }

    method CollectSignature(ghost before: seq<Function<i64>>, f: Function<i64>)
      requires signatures == SignaturesOf(before)
      modifies this`diagnostics, this`signatures
      ensures signatures == SignaturesOf(before)[f.name := SignatureOf(f)]
      ensures diagnostics == old(diagnostics) + DeclarationErrorsOf(program.informationFlow, f) +
                             One(f.name in FunctionNames(before))
    {
      CheckInformationShape(f);
      Report(|f.parameters| > CHECK_MAX_PARAMETERS);
      var effects := CollectEffects(f.effects);
      SignatureKeys(before, f.name);
      Report(f.name in signatures);
      signatures := signatures[f.name :=
        Signature(InfosOf(f.parameters), ValueInfo(f.returnType, LabelOr(f.returnInformation)), effects)];
    }

    method CollectSignatures()
      requires signatures == map[]
      modifies this`diagnostics, this`signatures
      ensures diagnostics == old(diagnostics) + SignatureErrors(program)
      ensures signatures == SignaturesOf(program.functions)
    {
      var fs, flow := program.functions, program.informationFlow;
      Report(|fs| > CHECK_MAX_FUNCTIONS);
      ghost var start := diagnostics;
      var statementCount := 0;
      for k := 0 to |fs|
        invariant signatures == SignaturesOf(fs[..k]) && statementCount == StatementCount(fs[..k])
        invariant diagnostics == start + DeclarationErrors(flow, fs[..k]) + Repeats(FunctionNames(fs[..k]))
      {
        FunctionStep(flow, fs, k);
        CollectSignature(fs[..k], fs[k]);
        statementCount := statementCount + |fs[k].body|;
      }
      assert fs[..|fs|] == fs;
      Report(statementCount > CHECK_MAX_STATEMENTS);
    }

    method CheckEntrypoint()
      modifies this`diagnostics
      ensures diagnostics == old(diagnostics) + EntryErrors(signatures)
    {
      if "main" !in signatures {
        Report(true);
        return;
      }
      Report(signatures["main"].parameters != []);
    }

    // ---------- expressions ----------

    method RequireType(expected: Type, actual: Option<ValueInfo>)
      modifies this`diagnostics
      ensures diagnostics == old(diagnostics) + CheckRules.RequireType(expected, actual)
    {
      if actual.Some? && expected != actual.value.ty {
        Report(true);
      }
    }

    method RequireFlow(source: Option<ValueInfo>, destination: Label)
      modifies this`diagnostics
      ensures diagnostics == old(diagnostics) + CheckRules.RequireFlow(program.informationFlow, source, destination)
    {
      if !program.informationFlow {
        return;
      }
      if source.Some? && !source.value.information.CanFlowTo(destination) {
        Report(true);
      }
    }

    /** The rules as this checker applies them to an expression of the caller. */
    ghost function Rule(locals: Locals, caller: Function<i64>, e: Expression<i64>): Typed
      reads this`signatures
    {
      TypeExpression(signatures, program.informationFlow, EffectSet(caller.effects), locals, e)
    }

    method ExpressionType(e: Expression<i64>, locals: Locals, caller: Function<i64>) returns (info: Option<ValueInfo>)
      modifies this`diagnostics, this`calls
      ensures info == Rule(locals, caller, e).info
      ensures diagnostics == old(diagnostics) + Rule(locals, caller, e).errors
      ensures calls == AddCalls(old(calls), caller.name, CalleesOf(signatures, e))
      decreases e, 2
    {
      match e
      case Integer(_) => info := Some(ValueInfo(I64, Public));
      case Boolean(_) => info := Some(ValueInfo(Bool, Public));
      case Text(_) => info := Some(ValueInfo(String, Public));
      case Variable(name) =>
        if name in locals {
          info := Some(locals[name]);
        } else {
          Report(true);
          info := None;
        }
      case Unary(op, operand) =>
        var actual := ExpressionType(operand, locals, caller);
        RequireType(OperandType(op), actual);
        info := Some(ValueInfo(OperandType(op), LabelOfInfo(actual)));
      case Binary(op, left, right) =>
        var l := ExpressionType(left, locals, caller);
        var r := ExpressionType(right, locals, caller);
        AddCallsTwice(old(calls), caller.name, CalleesOf(signatures, left), CalleesOf(signatures, right));
        var joined := BinaryType(op, l, r);
        info := Some(joined);
      case Call(callee, arguments) =>
        info := CallType(callee, arguments, locals, caller);
    }

    method BinaryType(op: BinaryOperator, left: Option<ValueInfo>, right: Option<ValueInfo>) returns (info: ValueInfo)
      modifies this`diagnostics
      ensures Some(info) == BinaryRule(op, left, right).info
      ensures diagnostics == old(diagnostics) + BinaryRule(op, left, right).errors
    {
      var ty;
      match op {
        case Add | Subtract | Multiply | Divide | Remainder =>
          RequireType(I64, left);
          RequireType(I64, right);
          ty := I64;
        case Less | LessEqual | Greater | GreaterEqual =>
          RequireType(I64, left);
          RequireType(I64, right);
          ty := Bool;
        case And | Or =>
          RequireType(Bool, left);
          RequireType(Bool, right);
          ty := Bool;
        case Equal | NotEqual =>
          Report(left.Some? && right.Some? && left.value.ty != right.value.ty);
          ty := Bool;
      }
      var information := JoinedLabel(left, right);
      info := ValueInfo(ty, information);
    }

    /** The join of both labels; operands without a type count as public. */
    method JoinedLabel(left: Option<ValueInfo>, right: Option<ValueInfo>) returns (information: Label)
      modifies this`diagnostics
      ensures var joined := LabelOfInfo(left).Join(LabelOfInfo(right));
              && information == (if joined.Some? then joined.value else Public)
              && diagnostics == old(diagnostics) + One(joined.None?)
    {
      information := Public;
      match (left, right) {
        case (Some(l), Some(r)) =>
          var joined := l.information.Join(r.information);
          Report(joined.None?);
          information := if joined.Some? then joined.value else Public;
        case (Some(v), None) => information := v.information;
        case (None, Some(v)) => information := v.information;
        case (None, None) =>
      }
    }

    method CallType(callee: string, arguments: seq<Expression<i64>>, locals: Locals, caller: Function<i64>)
      returns (info: Option<ValueInfo>)
      modifies this`diagnostics, this`calls
      ensures info == Rule(locals, caller, Call(callee, arguments)).info
      ensures diagnostics == old(diagnostics) + Rule(locals, caller, Call(callee, arguments)).errors
      ensures calls == AddCalls(old(calls), caller.name, CalleesOf(signatures, Call(callee, arguments)))
      decreases arguments, 1
    {
      if callee !in signatures {
        Report(true);
        ArgumentTypes(arguments, [], locals, caller);
        AddCallsTwice(old(calls), caller.name, [], CalleesOfAll(signatures, arguments));
        return None;
      }
      var signature := signatures[callee];
      calls := calls[caller.name := (if caller.name in calls then calls[caller.name] else []) + [callee]];
      Report(|arguments| != |signature.parameters|);
      ArgumentTypes(arguments, signature.parameters, locals, caller);
      AddCallsTwice(old(calls), caller.name, [callee], CalleesOfAll(signatures, arguments));
      diagnostics := diagnostics + |signature.effects - EffectSet(caller.effects)|;
      info := Some(signature.returnValue);
    }

    /** Every argument is checked; those with a parameter are matched against it. */
    method ArgumentTypes(es: seq<Expression<i64>>, expected: seq<ValueInfo>, locals: Locals, caller: Function<i64>)
      modifies this`diagnostics, this`calls
      ensures diagnostics == old(diagnostics) +
                             TypeArguments(signatures, program.informationFlow, EffectSet(caller.effects), locals, es, expected)
      ensures calls == AddCalls(old(calls), caller.name, CalleesOfAll(signatures, es))
      decreases es, 0
    {
      ghost var flow, row := program.informationFlow, EffectSet(caller.effects);
      assert es[0..] == es && From(expected, 0) == expected;
      for k := 0 to |es|
        invariant diagnostics + TypeArguments(signatures, flow, row, locals, es[k..], From(expected, k)) ==
                  old(diagnostics) + TypeArguments(signatures, flow, row, locals, es, expected)
        invariant AddCalls(calls, caller.name, CalleesOfAll(signatures, es[k..])) ==
                  AddCalls(old(calls), caller.name, CalleesOfAll(signatures, es))
      {
        ArgumentStep(signatures, flow, row, locals, es, expected, k);
        AddCallsTwice(calls, caller.name, CalleesOf(signatures, es[k]), CalleesOfAll(signatures, es[k + 1..]));
        ArgumentType(es[k], expected, k, locals, caller);
      }
    }

    /** One argument: its type, and whether it fits the parameter at its position, if there is one. */
    method ArgumentType(e: Expression<i64>, expected: seq<ValueInfo>, k: nat, locals: Locals, caller: Function<i64>)
      modifies this`diagnostics, this`calls
      ensures diagnostics == old(diagnostics) + ArgumentErrors(program.informationFlow, Rule(locals, caller, e), expected, k)
      ensures calls == AddCalls(old(calls), caller.name, CalleesOf(signatures, e))
      decreases e, 3
    {
      var actual := ExpressionType(e, locals, caller);
      if k < |expected| {
        RequireType(expected[k].ty, actual);
        RequireFlow(actual, expected[k].information);
      }
    }

    // ---------- statements ----------

    ghost function ScopeFor(caller: Function<i64>): Scope
      reads this`signatures
    {
      ScopeOf(signatures, program.informationFlow, linearProfile, caller)
    }

    method CheckReturn(result: Option<Expression<i64>>, locals: Locals, caller: Function<i64>)
      modifies this`diagnostics, this`calls
      ensures diagnostics == old(diagnostics) + CheckRules.CheckReturn(ScopeFor(caller), locals, result)
      ensures calls == old(calls) || calls == AddCalls(old(calls), caller.name, CalleesOfStatement(signatures, ReturnStatement(result)))
      ensures diagnostics == old(diagnostics) ==>
                calls == AddCalls(old(calls), caller.name, CalleesOfStatement(signatures, ReturnStatement(result)))
    {
      match (result, caller.returnType)
      case (None, ty) => Report(ty != Unit);
      case (Some(_), Unit) => Report(true);
      case (Some(e), expected) =>
        var actual := ExpressionType(e, locals, caller);
        RequireType(expected, actual);
        RequireFlow(actual, LabelOr(caller.returnInformation));
    }

    method CheckLet(s: Statement<i64>, locals: Locals, ghost available: set<string>, caller: Function<i64>)
      returns (extended: Locals)
      requires s.LetStatement?
      modifies this`diagnostics, this`calls
      ensures CheckRules.CheckLet(ScopeFor(caller), s, BodyState(old(diagnostics), locals, available, false)) ==
              BodyState(diagnostics, extended, available, false)
      ensures calls == AddCalls(old(calls), caller.name, CalleesOfStatement(signatures, s))
    {
      Report(s.valueType == Unit);
      var actual := ExpressionType(s.value, locals, caller);
      RequireType(s.valueType, actual);
      var destination := LabelOr(s.information);
      RequireFlow(actual, destination);
      Report(s.name in locals);
      extended := locals[s.name := ValueInfo(s.valueType, destination)];
    }

    /** All arguments of a request flow into its sink. */
    method SinkArguments(es: seq<Expression<i64>>, sink: Label, locals: Locals, caller: Function<i64>)
      modifies this`diagnostics, this`calls
      ensures diagnostics == old(diagnostics) +
                             CheckRules.SinkArguments(signatures, program.informationFlow, EffectSet(caller.effects), locals, es, sink)
      ensures calls == AddCalls(old(calls), caller.name, CalleesOfAll(signatures, es))
    {
      ghost var flow, row := program.informationFlow, EffectSet(caller.effects);
      assert es[0..] == es;
      for k := 0 to |es|
        invariant diagnostics + CheckRules.SinkArguments(signatures, flow, row, locals, es[k..], sink) ==
                  old(diagnostics) + CheckRules.SinkArguments(signatures, flow, row, locals, es, sink)
        invariant AddCalls(calls, caller.name, CalleesOfAll(signatures, es[k..])) ==
                  AddCalls(old(calls), caller.name, CalleesOfAll(signatures, es))
      {
        assert es[k..][0] == es[k] && es[k..][1..] == es[k + 1..];
        AddCallsTwice(calls, caller.name, CalleesOf(signatures, es[k]), CalleesOfAll(signatures, es[k + 1..]));
        var actual := ExpressionType(es[k], locals, caller);
        RequireFlow(actual, sink);
      }
    }

    method CheckRequest(s: Statement<i64>, locals: Locals, slots: map<string, string>, available: set<string>, caller: Function<i64>)
      returns (left: set<string>)
      requires s.RequestStatement? && slots == ScopeFor(caller).slots
      modifies this`diagnostics, this`calls
      ensures CheckRules.CheckRequest(ScopeFor(caller), s, BodyState(old(diagnostics), locals, available, false)) ==
              BodyState(diagnostics, locals, left, false)
      ensures calls == AddCalls(old(calls), caller.name, CalleesOfStatement(signatures, s))
    {
      left := available;
      Report(s.effect !in EffectSet(caller.effects));
      SinkArguments(s.arguments, LabelOr(s.information), locals, caller);
      if !linearProfile {
        return;
      }
      if s.authority.None? || s.authority.value !in slots || slots[s.authority.value] != s.effect {
        Report(true);
        return;
      }
      Report(s.authority.value !in left);
      left := left - {s.authority.value};
    }

    method CheckStatement(s: Statement<i64>, locals: Locals, slots: map<string, string>, available: set<string>, caller: Function<i64>)
      returns (returned: bool, extended: Locals, left: set<string>)
      requires slots == ScopeFor(caller).slots
      modifies this`diagnostics, this`calls
      ensures CheckRules.CheckStatement(ScopeFor(caller), s, BodyState(old(diagnostics), locals, available, false)) ==
              BodyState(diagnostics, extended, left, returned)
      ensures diagnostics == old(diagnostics) ==> calls == AddCalls(old(calls), caller.name, CalleesOfStatement(signatures, s))
      ensures KnownCalls(signatures, old(calls)) && caller.name in signatures ==> KnownCalls(signatures, calls)
    {
      StatementCallees(signatures, s);
      KnownAdds(signatures, calls, caller.name, CalleesOfStatement(signatures, s));
      returned, extended, left := false, locals, available;
      match s
      case LetStatement(_, _, _, _) => extended := CheckLet(s, locals, available, caller);
      case ReturnStatement(result) =>
        CheckReturn(result, locals, caller);
        returned := true;
      case RequestStatement(_, _, _, _) => left := CheckRequest(s, locals, slots, available, caller);
      case ExpressionStatement(e) => var _ := ExpressionType(e, locals, caller);
    }

    // ---------- functions ----------

    /** The statements of a body in order; what follows a return is reported and skipped. */
    method CheckStatements(body: seq<Statement<i64>>, parameters: Locals, slots: map<string, string>, caller: Function<i64>)
      returns (returned: bool, locals: Locals, left: set<string>)
      requires slots == ScopeFor(caller).slots
      modifies this`diagnostics, this`calls
      ensures CheckRules.CheckStatements(ScopeFor(caller), body, BodyState(old(diagnostics), parameters, slots.Keys, false)) ==
              BodyState(diagnostics, locals, left, returned)
      ensures diagnostics >= old(diagnostics)
      ensures diagnostics == old(diagnostics) ==> calls == AddCalls(old(calls), caller.name, CalleesOfBody(signatures, body))
      ensures KnownCalls(signatures, old(calls)) && caller.name in signatures ==> KnownCalls(signatures, calls)
    {
      returned, locals, left := false, parameters, slots.Keys;
      ghost var scope, start := ScopeFor(caller), BodyState(diagnostics, parameters, slots.Keys, false);
      assert body[0..] == body;
      for k := 0 to |body|
        invariant CheckRules.CheckStatements(scope, body, start) ==
                  CheckRules.CheckStatements(scope, body[k..], BodyState(diagnostics, locals, left, returned))
        invariant diagnostics >= old(diagnostics)
        invariant KnownCalls(signatures, old(calls)) && caller.name in signatures ==> KnownCalls(signatures, calls)
        invariant diagnostics == old(diagnostics) ==>
                    AddCalls(calls, caller.name, CalleesOfBody(signatures, body[k..])) ==
                    AddCalls(old(calls), caller.name, CalleesOfBody(signatures, body))
      {
        StatementsStep(signatures, scope, body, k, BodyState(diagnostics, locals, left, returned));
        AddCallsTwice(calls, caller.name, CalleesOfStatement(signatures, body[k]), CalleesOfBody(signatures, body[k + 1..]));
        StatementErrorsGrow(scope, body[k], BodyState(diagnostics, locals, left, false));
        if returned {
          Report(true);
        } else {
          returned, locals, left := CheckStatement(body[k], locals, slots, left, caller);
        }
      }
    }

    /** Slots of a function in the linear profile, or nothing if it does not declare them. */
    method AuthorityState(f: Function<i64>) returns (slots: Option<map<string, string>>)
      modifies this`diagnostics
      ensures slots.None? <==> linearProfile && f.authorities.None?
      ensures slots.None? ==> diagnostics == old(diagnostics) + 1
      ensures slots.Some? ==> slots.value == AuthorityMap(DeclaredSlots(linearProfile, f))
      ensures slots.Some? ==>
                diagnostics == old(diagnostics) + Repeats(AuthorityNames(DeclaredSlots(linearProfile, f))) +
                               UndeclaredEffects(DeclaredSlots(linearProfile, f), EffectSet(f.effects))
    {
      if !linearProfile {
        return Some(map[]);
      }
      if f.authorities.None? {
        Report(true);
        return None;
      }
      var items, known := f.authorities.value, map[];
      ghost var row := EffectSet(f.effects);
      assert items[0..] == items;
      for k := 0 to |items|
        invariant known == AuthorityMap(items[..k])
        invariant diagnostics + UndeclaredEffects(items[k..], row) ==
                  old(diagnostics) + Repeats(AuthorityNames(items[..k])) + UndeclaredEffects(items, row)
      {
        SlotStep(items, row, k);
        Report(items[k].name in known);
        known := known[items[k].name := items[k].effect];
        Report(items[k].effect !in f.effects);
      }
      assert items[..|items|] == items;
      slots := Some(known);
    }

    method CheckParameters(parameters: seq<Parameter>) returns (locals: Locals)
      modifies this`diagnostics
      ensures locals == ParameterLocals(parameters)
      ensures diagnostics == old(diagnostics) + UnitParameters(parameters) + Repeats(ParameterNames(parameters))
    {
      locals := map[];
      assert parameters[0..] == parameters;
      for k := 0 to |parameters|
        invariant locals == ParameterLocals(parameters[..k])
        invariant diagnostics + UnitParameters(parameters[k..]) ==
                  old(diagnostics) + UnitParameters(parameters) + Repeats(ParameterNames(parameters[..k]))
      {
        ParameterStep(parameters, k);
        Report(parameters[k].valueType == Unit);
        Report(parameters[k].name in locals);
        locals := locals[parameters[k].name := InfoOf(parameters[k])];
      }
      assert parameters[..|parameters|] == parameters;
    }

    /** A body and what it leaves behind: a missing return, slots that were never used. */
    method CheckBody(f: Function<i64>, locals: Locals, slots: map<string, string>)
      requires slots == ScopeFor(f).slots
      modifies this`diagnostics, this`calls
      ensures var b := CheckRules.CheckStatements(ScopeFor(f), f.body, BodyState(0, locals, slots.Keys, false));
              diagnostics == old(diagnostics) + b.errors + One(!b.returned) + if linearProfile then |b.available| else 0
      ensures diagnostics == old(diagnostics) ==> calls == AddCalls(old(calls), f.name, CalleesOfBody(signatures, f.body))
      ensures KnownCalls(signatures, old(calls)) && f.name in signatures ==> KnownCalls(signatures, calls)
    {
      var returned, _, left := CheckStatements(f.body, locals, slots, f);
      StatementsOffset(ScopeFor(f), f.body, BodyState(0, locals, slots.Keys, false), old(diagnostics));
      Report(!returned);
      if linearProfile {
        diagnostics := diagnostics + |left|;
      }
    }

    method CheckFunction(f: Function<i64>)
      modifies this`diagnostics, this`calls
      ensures diagnostics == old(diagnostics) + CheckRules.CheckFunction(signatures, program.informationFlow, linearProfile, f)
      ensures diagnostics == old(diagnostics) ==> calls == AddCalls(old(calls), f.name, CalleesOfBody(signatures, f.body))
      ensures KnownCalls(signatures, old(calls)) && f.name in signatures ==> KnownCalls(signatures, calls)
    {
      var slots := AuthorityState(f);
      if slots.None? {
        return;
      }
      var locals := CheckParameters(f.parameters);
      if f.body == [] {
        Report(true);
        return;
      }
      CheckBody(f, locals, slots.value);
    }

    /** Without a diagnostic, the recorded calls are the calls of all bodies. */
    method CheckBodies()
      requires signatures == SignaturesOf(program.functions) && calls == map[]
      requires diagnostics == 0 ==> Distinct(FunctionNames(program.functions))
      modifies this`diagnostics, this`calls
      ensures diagnostics == old(diagnostics) + BodyErrors(signatures, program.informationFlow, linearProfile, program.functions)
      ensures diagnostics == 0 ==> Recorded(calls, CallsByName(signatures, program.functions))
      ensures KnownCalls(signatures, calls)
    {
      var fs := program.functions;
      for k := 0 to |fs|
        invariant diagnostics == old(diagnostics) + BodyErrors(signatures, program.informationFlow, linearProfile, fs[..k])
        invariant diagnostics == 0 ==> Recorded(calls, CallsByName(signatures, fs[..k]))
        invariant KnownCalls(signatures, calls)
      {
        SignatureKeys(fs, fs[k].name);
        assert FunctionNames(fs)[k] == fs[k].name;
        BodyStep(signatures, program.informationFlow, linearProfile, fs, k);
        if diagnostics == 0 {
          RecordStep(calls, signatures, fs, k);
        }
        CheckFunction(fs[k]);
      }
      assert fs[..|fs|] == fs;
    }

    // ---------- calls ----------

    /**
     * Visit a name. Either everything it reaches is finished, callees first, or a cycle has been
     * reported; the search goes on after a report.
     */
    method Visit(name: string, ghost path: seq<string>, ghost before: seq<string>) returns (ghost order: seq<string>)
      requires KnownCalls(signatures, calls) && name in signatures && visiting <= signatures.Keys
      requires diagnostics == 0 ==> Searching(calls, visiting, visited, path, before)
      requires diagnostics == 0 && path != [] ==> Edge(calls, path[|path| - 1], name)
      requires diagnostics == 0 && path == [] ==> name !in visiting
      modifies this`diagnostics, this`visiting, this`visited
      ensures visiting == old(visiting) && old(visited) <= visited && diagnostics >= old(diagnostics)
      ensures old(diagnostics) == 0 && diagnostics > 0 ==> !Acyclic(calls)
      ensures diagnostics == 0 ==> Searching(calls, visiting, visited, path, order) && name in visited
      decreases signatures.Keys - visiting
    {
      order := before;
      if name in visited {
        return;
      }
      if name in visiting {
        ReportCycle(path, before, name);
        return;
      }
      if diagnostics == 0 {
        EnterSearch(calls, visiting, visited, path, before, name);
      }
      visiting := visiting + {name};
      ghost var here := path + [name];
      var callees := CallsOf(calls, name);
      for k := 0 to |callees|
        invariant visiting == old(visiting) + {name} && old(visited) <= visited && diagnostics >= old(diagnostics)
        invariant old(diagnostics) == 0 && diagnostics > 0 ==> !Acyclic(calls)
        invariant diagnostics == 0 ==> Searching(calls, visiting, visited, here, order) && forall j :: 0 <= j < k ==> callees[j] in visited
      {
        assert Edge(calls, name, callees[k]);
        if callees[k] in visiting {
          ReportCycle(here, order, callees[k]);
        } else {
          order := Visit(callees[k], here, order);
        }
      }
      if diagnostics == 0 {
        order := LeaveSearch(calls, old(visiting), visited, path, order, name);
      }
      visiting := visiting - {name};
      visited := visited + {name};
    }

    /** A name that is being visited calls itself through the names visited after it. */
    method ReportCycle(ghost path: seq<string>, ghost order: seq<string>, name: string)
      requires name in visiting
      requires diagnostics == 0 ==> Searching(calls, visiting, visited, path, order) && path != []
      requires diagnostics == 0 ==> Edge(calls, path[|path| - 1], name)
      modifies this`diagnostics
      ensures diagnostics == old(diagnostics) + 1
      ensures old(diagnostics) == 0 ==> !Acyclic(calls)
    {
      if diagnostics == 0 {
        CloseCycle(calls, path, IndexOf(path, name), name);
      }
      Report(true);
    }

    /** The names of the signature table are visited in an arbitrary order. */
    method CheckAcyclicCalls()
      requires KnownCalls(signatures, calls) && visiting == {} && visited == {}
      modifies this`diagnostics, this`visiting, this`visited
      ensures diagnostics >= old(diagnostics)
      ensures old(diagnostics) == 0 ==> (diagnostics == 0 <==> Acyclic(calls))
    {
      var names := signatures.Keys;
      ghost var order: seq<string> := [];
      while names != {}
        invariant names <= signatures.Keys && visiting == {} && diagnostics >= old(diagnostics)
        invariant old(diagnostics) == 0 && diagnostics > 0 ==> !Acyclic(calls)
        invariant diagnostics == 0 ==> Searching(calls, visiting, visited, [], order) && signatures.Keys - names <= visited
        decreases names
      {
        var name :| name in names;
        names := names - {name};
        order := Visit(name, [], order);
      }
      if diagnostics == 0 {
        TopologicalAcyclic(calls, order);
      }
    }

    /** The checker accepts exactly the programs that the static rules accept. */
    method Run() returns (accepted: bool)
      requires signatures == map[] && calls == map[] && diagnostics == 0 && visiting == {} && visited == {}
      requires linearProfile == LinearProfile(program)
      modifies this
      ensures accepted <==> CheckAccepts(program)
    {
      CollectSignatures();
      RepeatsZero(FunctionNames(program.functions));
      CheckEntrypoint();
      CheckBodies();
      if diagnostics == 0 {
        SameGraph(calls, CallsByName(signatures, program.functions));
      }
      CheckAcyclicCalls();
      accepted := diagnostics == 0;
    }
  }

  /** Check a parsed program. */
  method Check(program: Program) returns (accepted: bool)
    ensures accepted <==> CheckAccepts(program)
  {
    var checker := new Checker(program);
    accepted := checker.Run();
  }

  /** Without a diagnostic, the names being visited are a path and the finished ones come callees first. */
  ghost predicate Searching(calls: Calls, visiting: set<string>, visited: set<string>, path: seq<string>, order: seq<string>) {
    && IsPath(calls, path)
    && (forall x :: x in path <==> x in visiting)
    && Topological(calls, order)
    && (forall x :: x in order <==> x in visited)
  }

  lemma EnterSearch(calls: Calls, visiting: set<string>, visited: set<string>, path: seq<string>, order: seq<string>, name: string)
    requires Searching(calls, visiting, visited, path, order)
    requires path != [] ==> Edge(calls, path[|path| - 1], name)
    ensures Searching(calls, visiting + {name}, visited, path + [name], order)
  {
  }

  lemma LeaveSearch(calls: Calls, visiting: set<string>, visited: set<string>, path: seq<string>, order: seq<string>, name: string)
    returns (finished: seq<string>)
    requires Searching(calls, visiting + {name}, visited, path + [name], order)
    requires forall x :: x in path <==> x in visiting
    requires forall j :: 0 <= j < |CallsOf(calls, name)| ==> CallsOf(calls, name)[j] in visited
    ensures Searching(calls, visiting, visited + {name}, path, finished)
  {
    var here := path + [name];
    assert forall i :: 0 <= i < |path| ==> here[i] == path[i];
    if name in order {
      finished := order;
    } else {
      forall b | b in CallsOf(calls, name) ensures b in order {
        var j :| 0 <= j < |CallsOf(calls, name)| && CallsOf(calls, name)[j] == b;
      }
      ExtendOrder(calls, order, name);
      finished := order + [name];
    }
  }

  // Callers and callees are all known functions.
  predicate KnownCalls(sigs: Signatures, calls: Calls) {
    calls.Keys <= sigs.Keys && ClosedOn(calls, sigs.Keys)
  }

  lemma {:induction false} KnownAdds(sigs: Signatures, calls: Calls, caller: string, callees: seq<string>)
    requires forall c :: c in callees ==> c in sigs
    ensures KnownCalls(sigs, calls) && caller in sigs ==> KnownCalls(sigs, AddCalls(calls, caller, callees))
  {
  }

  lemma {:induction false} KnownCallees(sigs: Signatures, e: Expression<i64>)
    ensures forall c :: c in CalleesOf(sigs, e) ==> c in sigs
    decreases e, 1
  {
    match e
    case Unary(_, operand) => KnownCallees(sigs, operand);
    case Binary(_, left, right) =>
      KnownCallees(sigs, left);
      KnownCallees(sigs, right);
    case Call(_, arguments) => KnownCalleesAll(sigs, arguments);
    case _ =>
  }

  lemma {:induction false} KnownCalleesAll(sigs: Signatures, es: seq<Expression<i64>>)
    ensures forall c :: c in CalleesOfAll(sigs, es) ==> c in sigs
    decreases es, 0
  {
    if es != [] {
      KnownCallees(sigs, es[0]);
      KnownCalleesAll(sigs, es[1..]);
    }
  }

  lemma {:induction false} StatementCallees(sigs: Signatures, s: Statement<i64>)
    ensures forall c :: c in CalleesOfStatement(sigs, s) ==> c in sigs
  {
    match s
    case LetStatement(_, _, _, e) => KnownCallees(sigs, e);
    case ReturnStatement(None) =>
    case ReturnStatement(Some(e)) => KnownCallees(sigs, e);
    case RequestStatement(_, _, _, arguments) => KnownCalleesAll(sigs, arguments);
    case ExpressionStatement(e) => KnownCallees(sigs, e);
  }

  /** Graphs in which every name has the same callees have the same cycles. */
  lemma SameGraph(calls: Calls, expected: Calls)
    requires Recorded(calls, expected)
    ensures Acyclic(calls) <==> Acyclic(expected)
  {
    forall path: seq<string> ensures IsCycle(calls, path) <==> IsCycle(expected, path) {
      forall k | 0 <= k < |path| - 1 ensures Edge(calls, path[k], path[k + 1]) <==> Edge(expected, path[k], path[k + 1]) {
        assert SameCalls(calls, expected, path[k]);
      }
    }
  }

  // Looking a name up gives the same callees.
  predicate SameCalls(calls: Calls, expected: Calls, name: string) {
    CallsOf(calls, name) == CallsOf(expected, name)
  }

  ghost predicate Recorded(calls: Calls, expected: Calls) {
    forall name: string {:trigger SameCalls(calls, expected, name)} :: SameCalls(calls, expected, name)
  }

  lemma {:induction false} RecordStep(calls: Calls, sigs: Signatures, fs: seq<Function<i64>>, k: nat)
    requires k < |fs| && Distinct(FunctionNames(fs)) && Recorded(calls, CallsByName(sigs, fs[..k]))
    ensures Recorded(AddCalls(calls, fs[k].name, CalleesOfBody(sigs, fs[k].body)), CallsByName(sigs, fs[..k + 1]))
  {
    var before, after := CallsByName(sigs, fs[..k]), CallsByName(sigs, fs[..k + 1]);
    assert fs[..k + 1][..k] == fs[..k];
    forall i | 0 <= i < k ensures fs[..k][i].name != fs[k].name {
      assert FunctionNames(fs)[i] != FunctionNames(fs)[k];
    }
    if fs[k].name in before {
      CallerNames(sigs, fs[..k], fs[k].name);
    }
    assert SameCalls(calls, before, fs[k].name);
    assert [] + CalleesOfBody(sigs, fs[k].body) == CalleesOfBody(sigs, fs[k].body);
    var added := AddCalls(calls, fs[k].name, CalleesOfBody(sigs, fs[k].body));
    forall name: string ensures SameCalls(added, after, name) {
      assert SameCalls(calls, before, name);
    }
  }

  lemma {:induction false} CallerNames(sigs: Signatures, fs: seq<Function<i64>>, name: string)
    requires name in CallsByName(sigs, fs)
    ensures exists i :: 0 <= i < |fs| && fs[i].name == name
  {
    var n := |fs| - 1;
    if fs[n].name != name {
      CallerNames(sigs, fs[..n], name);
      var i :| 0 <= i < n && fs[..n][i].name == name;
      assert fs[i].name == name;
    }
  }

  lemma {:induction false} BodyStep(sigs: Signatures, flow: bool, linear: bool, fs: seq<Function<i64>>, k: nat)
    requires k < |fs|
    ensures BodyErrors(sigs, flow, linear, fs[..k + 1]) ==
            BodyErrors(sigs, flow, linear, fs[..k]) + CheckFunction(sigs, flow, linear, fs[k])
  {
    assert fs[..k + 1][..k] == fs[..k];
  }

  lemma {:induction false} StatementErrorsGrow(scope: Scope, s: Statement<i64>, b: BodyState)
    ensures CheckStatement(scope, s, b).errors >= b.errors
  {
  }

  /** Diagnostics reported before a body do not influence how it is checked. */
  lemma {:induction false} StatementsOffset(scope: Scope, body: seq<Statement<i64>>, b: BodyState, d: nat)
    ensures var shifted := CheckStatements(scope, body, b.(errors := b.errors + d));
            var plain := CheckStatements(scope, body, b);
            shifted == plain.(errors := plain.errors + d)
  {
    if body != [] {
      assert CheckStatement(scope, body[0], b.(errors := b.errors + d)) ==
             CheckStatement(scope, body[0], b).(errors := CheckStatement(scope, body[0], b).errors + d);
      StatementsOffset(scope, body[1..], CheckStatement(scope, body[0], b), d);
    }
  }

  lemma {:induction false} SlotStep(items: seq<Authority>, row: set<string>, k: nat)
    requires k < |items|
    ensures AuthorityMap(items[..k + 1]) == AuthorityMap(items[..k])[items[k].name := items[k].effect]
    ensures Repeats(AuthorityNames(items[..k + 1])) ==
            Repeats(AuthorityNames(items[..k])) + One(items[k].name in AuthorityMap(items[..k]))
    ensures UndeclaredEffects(items[k..], row) == One(items[k].effect !in row) + UndeclaredEffects(items[k + 1..], row)
  {
    assert items[..k + 1][..k] == items[..k] && items[k..][1..] == items[k + 1..];
    assert AuthorityNames(items[..k + 1])[..k] == AuthorityNames(items[..k]);
    SlotKeys(items[..k], items[k].name);
  }

  lemma {:induction false} SlotKeys(items: seq<Authority>, name: string)
    ensures name in AuthorityMap(items) <==> name in AuthorityNames(items)
  {
    if items != [] {
      var n := |items| - 1;
      SlotKeys(items[..n], name);
      assert AuthorityNames(items) == AuthorityNames(items[..n]) + [items[n].name];
    }
  }

  lemma {:induction false} ParameterStep(parameters: seq<Parameter>, k: nat)
    requires k < |parameters|
    ensures ParameterLocals(parameters[..k + 1]) == ParameterLocals(parameters[..k])[parameters[k].name := InfoOf(parameters[k])]
    ensures Repeats(ParameterNames(parameters[..k + 1])) ==
            Repeats(ParameterNames(parameters[..k])) + One(parameters[k].name in ParameterLocals(parameters[..k]))
    ensures UnitParameters(parameters[k..]) == One(parameters[k].valueType == Unit) + UnitParameters(parameters[k + 1..])
  {
    assert parameters[..k + 1][..k] == parameters[..k] && parameters[k..][1..] == parameters[k + 1..];
    assert ParameterNames(parameters[..k + 1])[..k] == ParameterNames(parameters[..k]);
    LocalKeys(parameters[..k], parameters[k].name);
  }

  lemma {:induction false} LocalKeys(parameters: seq<Parameter>, name: string)
    ensures name in ParameterLocals(parameters) <==> name in ParameterNames(parameters)
  {
    if parameters != [] {
      var n := |parameters| - 1;
      LocalKeys(parameters[..n], name);
      assert ParameterNames(parameters) == ParameterNames(parameters[..n]) + [parameters[n].name];
    }
  }

  function From<T>(s: seq<T>, k: nat): seq<T> {
    if k < |s| then s[k..] else []
  }

  function ArgumentErrors(flow: bool, t: Typed, expected: seq<ValueInfo>, k: nat): nat {
    t.errors + if k >= |expected| then 0
               else RequireType(expected[k].ty, t.info) + RequireFlow(flow, t.info, expected[k].information)
  }

  lemma StatementsStep(sigs: Signatures, scope: Scope, body: seq<Statement<i64>>, k: nat, b: BodyState)
    requires k < |body|
    ensures CheckRules.CheckStatements(scope, body[k..], b) ==
            CheckRules.CheckStatements(scope, body[k + 1..], CheckRules.CheckStatement(scope, body[k], b))
    ensures CalleesOfBody(sigs, body[k..]) == CalleesOfStatement(sigs, body[k]) + CalleesOfBody(sigs, body[k + 1..])
  {
    assert body[k..][0] == body[k] && body[k..][1..] == body[k + 1..];
  }

  lemma {:induction false} ArgumentStep(sigs: Signatures, flow: bool, effects: set<string>, locals: Locals, es: seq<Expression<i64>>,
                     expected: seq<ValueInfo>, k: nat)
    requires k < |es|
    ensures TypeArguments(sigs, flow, effects, locals, es[k..], From(expected, k)) ==
            ArgumentErrors(flow, TypeExpression(sigs, flow, effects, locals, es[k]), expected, k)
            + TypeArguments(sigs, flow, effects, locals, es[k + 1..], From(expected, k + 1))
    ensures CalleesOfAll(sigs, es[k..]) == CalleesOf(sigs, es[k]) + CalleesOfAll(sigs, es[k + 1..])
  {
    assert es[k..][0] == es[k] && es[k..][1..] == es[k + 1..];
    if k < |expected| {
      assert expected[k..][1..] == expected[k + 1..];
    }
  }

  function DeclarationErrorsOf(flow: bool, f: Function<i64>): nat {
    InformationShape(flow, f) + One(|f.parameters| > CHECK_MAX_PARAMETERS) + Repeats(f.effects)
  }

  lemma {:induction false} FunctionStep(flow: bool, fs: seq<Function<i64>>, k: nat)
    requires k < |fs|
    ensures Repeats(FunctionNames(fs[..k + 1])) == Repeats(FunctionNames(fs[..k])) + One(fs[k].name in FunctionNames(fs[..k]))
    ensures SignaturesOf(fs[..k + 1]) == SignaturesOf(fs[..k])[fs[k].name := SignatureOf(fs[k])]
    ensures StatementCount(fs[..k + 1]) == StatementCount(fs[..k]) + |fs[k].body|
    ensures DeclarationErrors(flow, fs[..k + 1]) == DeclarationErrors(flow, fs[..k]) + DeclarationErrorsOf(flow, fs[k])
  {
    assert fs[..k + 1][..k] == fs[..k];
    var names := FunctionNames(fs[..k + 1]);
    assert names[..k] == FunctionNames(fs[..k]);
  }

  lemma {:induction false} SignatureKeys(fs: seq<Function<i64>>, name: string)
    ensures name in SignaturesOf(fs) <==> name in FunctionNames(fs)
  {
    if fs != [] {
      var n := |fs| - 1;
      SignatureKeys(fs[..n], name);
      assert FunctionNames(fs) == FunctionNames(fs[..n]) + [fs[n].name];
    }
  }
}
