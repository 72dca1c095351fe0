// The compiler of joan-compiler as it runs: instructions are appended to a list
// while the tree is walked, and frame tables grow statement by statement.
module Emitter {
  import opened Prelude
  import opened Ast
  import opened Bytecode
  import opened Semantics
  import opened Compiler
  import Encoding
  import Artifact

  class InstructionList {
    var instructions: seq<Instruction>

    constructor ()
      ensures instructions == []
    {
      instructions := [];
    }

    method Push(i: Instruction)
      modifies this
      ensures instructions == old(instructions) + [i]
    {
      instructions := instructions + [i];
    }

    /** Append the code of an expression. */
    method CompileExpression(e: Expression<string>, locals: Slots, indexes: map<string, nat>) returns (ok: bool)
      modifies this
      ensures ok == Emit(e, locals, indexes).Some?
      ensures ok ==> instructions == old(instructions) + Emit(e, locals, indexes).value
      decreases e, 1
    {
      match e {
      case Integer(text) =>
        var n := ParseI64(text);
        if n.None? {
          return false;
        }
        Push(Instruction.Push(IntValue(n.value)));
      case Boolean(b) => Push(Instruction.Push(BoolValue(b)));
      case Text(s) => Push(Instruction.Push(TextValue(s)));
      case Variable(name) =>
        if name !in locals {
          return false;
        }
        Push(LoadLocal(locals[name]));
      case Unary(op, operand) =>
        ok := CompileExpression(operand, locals, indexes);
        if !ok {
          return;
        }
        Push(UnaryInstruction(op));
      case Binary(op, left, right) =>
        ok := CompileExpression(left, locals, indexes);
        if !ok {
          return;
        }
        ok := CompileExpression(right, locals, indexes);
        if !ok {
          return;
        }
        Push(BinaryInstruction(op));
      case Call(callee, arguments) =>
        ok := CompileArguments(arguments, locals, indexes);
        if !ok {
          return;
        }
        if callee !in indexes {
          return false;
        }
        Push(Invoke(indexes[callee], |arguments|));
      }
      ok := true;
    }

    /** Append the code of an argument list, first argument first. */
    method CompileArguments(es: seq<Expression<string>>, locals: Slots, indexes: map<string, nat>) returns (ok: bool)
      modifies this
      ensures ok == EmitAll(es, locals, indexes).Some?
      ensures ok ==> instructions == old(instructions) + EmitAll(es, locals, indexes).value
      decreases es, 0
    {
      assert es[0..] == es;
      for k := 0 to |es|
        invariant EmitAll(es[k..], locals, indexes).Some? == EmitAll(es, locals, indexes).Some?
        invariant EmitAll(es, locals, indexes).Some? ==>
                    instructions + EmitAll(es[k..], locals, indexes).value ==
                    old(instructions) + EmitAll(es, locals, indexes).value
      {
        ArgumentStep(es, k, locals, indexes, instructions);
        ok := CompileExpression(es[k], locals, indexes);
        if !ok {
          return;
        }
      }
      ok := true;
    }

    /** Append the code of a statement; a let stores into the next free slot. */
    method CompileStatement(s: Statement<string>, locals: Slots, indexes: map<string, nat>) returns (ok: bool)
      modifies this
      ensures ok == EmitStatement(s, locals, indexes).Some?
      ensures ok ==> instructions == old(instructions) + EmitStatement(s, locals, indexes).value
    {
      match s {
      case LetStatement(_, _, _, value) =>
        ok := CompileExpression(value, locals, indexes);
        if !ok {
          return;
        }
        Push(StoreLocal(|locals|));
      case ReturnStatement(result) =>
        if result.Some? {
          ok := CompileExpression(result.value, locals, indexes);
          if !ok {
            return;
          }
        } else {
          Push(Instruction.Push(UnitValue));
        }
        Push(Return);
      case RequestStatement(effect, authority, information, arguments) =>
        ok := CompileArguments(arguments, locals, indexes);
        if !ok {
          return;
        }
        Push(Request(effect, authority, information, |arguments|));
      case ExpressionStatement(e) =>
        ok := CompileExpression(e, locals, indexes);
        if !ok {
          return;
        }
        Push(Pop);
      }
      ok := true;
    }
  }

  /** What is already emitted, followed by the rest if there is one. */
  ghost function Prefixed<T>(done: seq<T>, rest: Option<seq<T>>): Option<seq<T>> {
    match rest
    case None => None
    case Some(items) => Some(done + items)
  }

  lemma PrefixedNothing<T>(rest: Option<seq<T>>)
    ensures Prefixed([], rest) == rest
  {
    if rest.Some? {
      assert [] + rest.value == rest.value;
    }
  }

  lemma PrefixedStep<T>(done: seq<T>, x: T, rest: Option<seq<T>>)
    ensures rest.Some? ==> Prefixed(done, Some([x] + rest.value)) == Prefixed(done + [x], rest)
  {
    if rest.Some? {
      assert done + ([x] + rest.value) == done + [x] + rest.value;
    }
  }

  lemma ArgumentStep(es: seq<Expression<string>>, k: nat, locals: Slots, indexes: map<string, nat>, code: seq<Instruction>)
    requires k < |es|
    ensures var first, rest := Emit(es[k], locals, indexes), EmitAll(es[k + 1..], locals, indexes);
            && EmitAll(es[k..], locals, indexes).Some? == (first.Some? && rest.Some?)
            && (first.Some? && rest.Some? ==> code + EmitAll(es[k..], locals, indexes).value == code + first.value + rest.value)
  {
    assert es[k..][0] == es[k] && es[k..][1..] == es[k + 1..];
  }

  /** The labels of the parameters, refused as soon as one is missing. */
  method CollectLabels(parameters: seq<Parameter>) returns (labels: Option<seq<Label>>)
    ensures labels == ParameterLabels(parameters)
  {
    var collected: seq<Label> := [];
    assert parameters[0..] == parameters;
    for k := 0 to |parameters|
      invariant ParameterLabels(parameters[k..]).Some? == ParameterLabels(parameters).Some?
      invariant ParameterLabels(parameters).Some? ==>
                  collected + ParameterLabels(parameters[k..]).value == ParameterLabels(parameters).value
    {
      assert parameters[k..][0] == parameters[k] && parameters[k..][1..] == parameters[k + 1..];
      if parameters[k].information.None? {
        return None;
      }
      collected := collected + [parameters[k].information.value];
    }
    assert parameters[|parameters|..] == [] && collected + [] == collected;
    labels := Some(collected);
  }

  /** Frame tables and code while a body is walked: what is done, and what is left, add up to the whole body. */
  ghost predicate Walked(body: seq<Statement<string>>, k: nat, slots0: Slots, locals: Slots, indexes: map<string, nat>,
                         code: seq<Instruction>, types: seq<Type>, labels: Option<seq<Label>>)
    requires k <= |body|
  {
    && EmitBody(body, slots0, indexes) == Prefixed(code, EmitBody(body[k..], locals, indexes))
    && LetTypes(body) == types + LetTypes(body[k..])
    && (labels.Some? ==> LetLabels(body) == Prefixed(labels.value, LetLabels(body[k..])))
  }

  lemma EmitStep(body: seq<Statement<string>>, k: nat, slots0: Slots, locals: Slots, indexes: map<string, nat>,
                 code: seq<Instruction>)
    requires k < |body| && EmitBody(body, slots0, indexes) == Prefixed(code, EmitBody(body[k..], locals, indexes))
    ensures var c := EmitStatement(body[k], locals, indexes);
            EmitBody(body, slots0, indexes) ==
            if c.None? then None else Prefixed(code + c.value, EmitBody(body[k + 1..], SlotsAfter(body[k], locals), indexes))
  {
    assert body[k..][0] == body[k] && body[k..][1..] == body[k + 1..];
    var c1, c2 := EmitStatement(body[k], locals, indexes), EmitBody(body[k + 1..], SlotsAfter(body[k], locals), indexes);
    if c1.Some? && c2.Some? {
      assert code + (c1.value + c2.value) == code + c1.value + c2.value;
    }
  }

  lemma LabelStep(body: seq<Statement<string>>, k: nat, labels: seq<Label>)
    requires k < |body| && LetLabels(body) == Prefixed(labels, LetLabels(body[k..]))
    ensures LetLabels(body) ==
            if !body[k].LetStatement? then Prefixed(labels, LetLabels(body[k + 1..]))
            else if body[k].information.None? then None
            else Prefixed(labels + [body[k].information.value], LetLabels(body[k + 1..]))
  {
    assert body[k..][0] == body[k] && body[k..][1..] == body[k + 1..];
    if body[k].LetStatement? && body[k].information.Some? {
      PrefixedStep(labels, body[k].information.value, LetLabels(body[k + 1..]));
    }
  }

  lemma WalkedStep(body: seq<Statement<string>>, k: nat, slots0: Slots, locals: Slots, indexes: map<string, nat>,
                   code: seq<Instruction>, types: seq<Type>, labels: Option<seq<Label>>)
    requires k < |body| && Walked(body, k, slots0, locals, indexes, code, types, labels)
    ensures EmitStatement(body[k], locals, indexes).None? ==> EmitBody(body, slots0, indexes).None?
    ensures labels.Some? && body[k].LetStatement? && body[k].information.None? ==> LetLabels(body).None?
    ensures EmitStatement(body[k], locals, indexes).Some? && (labels.Some? && body[k].LetStatement? ==> body[k].information.Some?) ==>
              Walked(body, k + 1, slots0, SlotsAfter(body[k], locals), indexes,
                     code + EmitStatement(body[k], locals, indexes).value,
                     if body[k].LetStatement? then types + [body[k].valueType] else types,
                     if labels.Some? && body[k].LetStatement? then Some(labels.value + [body[k].information.value]) else labels)
  {
    hide EmitStatement, EmitBody, SlotsAfter, LetTypes, LetLabels;
    EmitStep(body, k, slots0, locals, indexes, code);
    TypeStep(body, k, types);
    if labels.Some? {
      LabelStep(body, k, labels.value);
    }
  }

  lemma TypeStep(body: seq<Statement<string>>, k: nat, types: seq<Type>)
    requires k < |body| && LetTypes(body) == types + LetTypes(body[k..])
    ensures LetTypes(body) == (if body[k].LetStatement? then types + [body[k].valueType] else types) + LetTypes(body[k + 1..])
  {
    assert body[k..][0] == body[k] && body[k..][1..] == body[k + 1..];
    if body[k].LetStatement? {
      assert types + ([body[k].valueType] + LetTypes(body[k + 1..])) == types + [body[k].valueType] + LetTypes(body[k + 1..]);
    }
  }

  /** Compile one function: its code, and the frame tables that grow with every let. */
  method CompileFunction(f: Function<string>, indexes: map<string, nat>) returns (r: Option<BytecodeFunction>)
    ensures r == Compiler.CompileFunction(f, indexes)
  {
    var flow := f.returnInformation.Some?;
    var locals := ParameterSlots(f.parameters);
    var parameterTypes := ParameterTypes(f.parameters);
    var parameterLabels: Option<seq<Label>> := None;
    if flow {
      parameterLabels := CollectLabels(f.parameters);
      if parameterLabels.None? {
        return None;
      }
    }
    var code, types, labels := CompileBody(f.body, locals, indexes, flow);
    if code.None? {
      return None;
    }
    r := Some(BytecodeFunction(
                f.name, |parameterTypes|, parameterTypes, parameterLabels,
                |parameterTypes| + |types|, parameterTypes + types,
                if flow then Some(parameterLabels.value + labels) else None,
                f.returnType, f.returnInformation, f.effects, f.authorities, code.value));
  }

  /** Walk a body once, emitting code and collecting the types and labels of its lets. */
  method CompileBody(body: seq<Statement<string>>, parameters: Slots, indexes: map<string, nat>, flow: bool)
    returns (r: Option<seq<Instruction>>, types: seq<Type>, labels: seq<Label>)
    ensures r.Some? == (EmitBody(body, parameters, indexes).Some? && (flow ==> LetLabels(body).Some?))
    ensures r.Some? ==> r == EmitBody(body, parameters, indexes) && types == LetTypes(body)
    ensures r.Some? && flow ==> Some(labels) == LetLabels(body)
  {
    var locals := parameters;
    var code := new InstructionList();
    types, labels := [], [];
    assert body[0..] == body;
    PrefixedNothing(EmitBody(body, parameters, indexes));
    PrefixedNothing(LetLabels(body));
    for k := 0 to |body|
      invariant fresh(code)
      invariant Walked(body, k, parameters, locals, indexes, code.instructions, types, if flow then Some(labels) else None)
    {
      var s := body[k];
      WalkedStep(body, k, parameters, locals, indexes, code.instructions, types, if flow then Some(labels) else None);
      var ok := code.CompileStatement(s, locals, indexes);
      if !ok {
        return None, [], [];
      }
      if s.LetStatement? {
        types := types + [s.valueType];
        if flow {
          if s.information.None? {
            return None, [], [];
          }
          labels := labels + [s.information.value];
        }
      }
      locals := SlotsAfter(s, locals);
    }
    assert body[|body|..] == [] && code.instructions + [] == code.instructions && types + [] == types && labels + [] == labels;
    r := Some(code.instructions);
  }

  /** Compile every function, in the order of the tree. */
  method CompileAll(fs: seq<Function<string>>, indexes: map<string, nat>) returns (r: Option<seq<BytecodeFunction>>)
    ensures r == CompileFunctions(fs, indexes)
  {
    var functions: seq<BytecodeFunction> := [];
    assert fs[0..] == fs;
    PrefixedNothing(CompileFunctions(fs, indexes));
    for k := 0 to |fs|
      invariant CompileFunctions(fs, indexes) == Prefixed(functions, CompileFunctions(fs[k..], indexes))
    {
      assert fs[k..][0] == fs[k] && fs[k..][1..] == fs[k + 1..];
      var compiled := CompileFunction(fs[k], indexes);
      if compiled.None? {
        return None;
      }
      PrefixedStep(functions, compiled.value, CompileFunctions(fs[k + 1..], indexes));
      functions := functions + [compiled.value];
    }
    assert fs[|fs|..] == [] && functions + [] == functions;
    r := Some(functions);
  }

  /** Compile a canonical tree, encode it and bind the artifact to its identity. */
  method CompileTree(ast: CanonicalProgram) returns (r: Option<BytecodeProgram>)
    ensures r == Artifact.CompileTree(ast)
  {
    var indexes := FunctionIndexes(ast.functions);
    if "main" !in indexes {
      return None;
    }
    var functions := CompileAll(ast.functions, indexes);
    if functions.None? {
      return None;
    }
    var encodes := Encoding.CheckEncodable(Encoding.TreeJson(ast));
    Encoding.TreeEncoding(ast);
    if !encodes {
      return None;
    }
    var identity := IdentityOf(ast);
    r := Some(BytecodeProgram(ast.schema, ast.moduleName, identity.digest, identity, ast, indexes["main"], functions.value));
  }
}
