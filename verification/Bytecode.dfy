// The bytecode artifact of joan-bytecode: values, instructions, functions and
// the program record that embeds the canonical syntax tree it was compiled from.
module Bytecode {
  import opened Prelude
  import opened Ast

  datatype Value = IntValue(int_: i64) | BoolValue(bool_: bool) | TextValue(text: string) | UnitValue

  function TypeOf(v: Value): Type {
    match v
    case IntValue(_) => I64
    case BoolValue(_) => Bool
    case TextValue(_) => String
    case UnitValue => Unit
  }

  // The thirteen two-operand opcodes.
  datatype Opcode =
    | AddI64 | SubI64 | MulI64 | DivI64 | RemI64
    | EqualAny | NotEqualAny | LessI64 | LessEqualI64 | GreaterI64 | GreaterEqualI64
    | AndBool | OrBool

  datatype Instruction =
    | Push(value: Value)
    | LoadLocal(slot: nat)
    | StoreLocal(slot: nat)
    | Pop
    | Negate
    | Not
    | Operate(opcode: Opcode)
    | Invoke(target: nat, argumentCount: nat)
    | Request(effect: string, authority: Option<string>, information: Option<Label>, argumentCount: nat)
    | Return

  // The declared, effect-specific authority slots of a function.
  type AuthoritySlot = Authority

  datatype BytecodeFunction = BytecodeFunction(
    name: string,
    parameterCount: nat,
    parameterTypes: seq<Type>,
    parameterInformation: Option<seq<Label>>,
    localCount: nat,
    localTypes: seq<Type>,
    localInformation: Option<seq<Label>>,
    returnType: Type,
    returnInformation: Option<Label>,
    effects: seq<string>,
    authoritySlots: Option<seq<AuthoritySlot>>,
    instructions: seq<Instruction>)

  // A digest stands for the exact content it was computed from.
  datatype Digest = Digest(schema: Schema, content: CanonicalProgram)

  datatype AstIdentity = AstIdentity(astSchema: Schema, digest: Digest)

  function IdentityOf(ast: CanonicalProgram): AstIdentity {
    AstIdentity(ast.schema, Digest(ast.schema, ast))
  }

  datatype BytecodeProgram = BytecodeProgram(
    schema: Schema,
    moduleName: string,
    semanticDigest: Digest,
    semanticIdentity: AstIdentity,
    canonicalAst: CanonicalProgram,
    entryFunction: nat,
    functions: seq<BytecodeFunction>)

  // ---------- the call graph ----------

  /** Call targets in code order. */
  function Targets(code: seq<Instruction>): seq<nat> {
    if code == [] then []
    else (if code[0].Invoke? then [code[0].target] else []) + Targets(code[1..])
  }

  lemma {:induction false} TargetsComplete(code: seq<Instruction>, t: nat)
    ensures t in Targets(code) <==> exists i :: 0 <= i < |code| && code[i].Invoke? && code[i].target == t
  {
    if code != [] {
      TargetsComplete(code[1..], t);
      assert forall i :: 0 <= i < |code| - 1 ==> code[1..][i] == code[i + 1];
    }
  }

  lemma {:induction false} TargetsAppend(a: seq<Instruction>, b: seq<Instruction>)
    ensures Targets(a + b) == Targets(a) + Targets(b)
  {
    if a == [] {
      assert a + b == b;
    } else {
      TargetsAppend(a[1..], b);
      assert (a + b)[1..] == a[1..] + b;
      var first := if a[0].Invoke? then [a[0].target] else [];
      TargetsRegroup(first, Targets(a[1..]), Targets(b));
    }
  }

  lemma TargetsRegroup(a: seq<nat>, b: seq<nat>, c: seq<nat>)
    ensures a + (b + c) == a + b + c
  {
  }

  /** Every call in the code goes to a function of smaller rank. */
  predicate CallsBelow(code: seq<Instruction>, rank: seq<nat>, bound: nat) {
    forall i :: 0 <= i < |code| && code[i].Invoke? ==>
                  code[i].target < |rank| && rank[code[i].target] < bound
  }

  predicate RankedAt(functions: seq<BytecodeFunction>, rank: seq<nat>, f: nat) {
    && f < |functions| && f < |rank|
    && rank[f] < |functions|
    && CallsBelow(functions[f].instructions, rank, rank[f])
  }

  /** A rank that calls decrease: the functions are ordered, callees first. */
  predicate Ranked(functions: seq<BytecodeFunction>, rank: seq<nat>) {
    |rank| == |functions| && forall f {:trigger RankedAt(functions, rank, f)} ::
      0 <= f < |functions| ==> RankedAt(functions, rank, f)
  }
}
