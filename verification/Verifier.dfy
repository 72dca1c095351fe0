// The structural bytecode verifier of joan-bytecode: an abstract interpreter
// over types, information labels and authority slots, and a depth-first search
// for call cycles. The functions say what is accepted; the methods decide it.
module Verifier {
  import opened Prelude
  import opened CallGraph
  import opened Ast
  import opened Bytecode

  const MAX_FUNCTIONS: nat := 1024
  const MAX_PARAMETERS: nat := 64
  const MAX_LOCALS_PER_FUNCTION: nat := 100_064
  const MAX_INSTRUCTIONS_PER_FUNCTION: nat := 100_000
  const MAX_TOTAL_INSTRUCTIONS: nat := 1_000_000
  const MAX_STACK_DEPTH: nat := 65_536

  // ---------- declarations ----------

  predicate LabelOk(l: Label) {
    l.Secret? ==> IsIdentifier(l.tenant) && IsIdentifier(l.purpose)
  }

  /** A label is present, and well formed, exactly in the information-flow profile. */
  predicate InformationPresence(flow: bool, information: Option<Label>) {
    if flow then information.Some? && LabelOk(information.value) else information.None?
  }

  predicate SortedEffects(effects: seq<string>) {
    (forall e :: e in effects ==> IsIdentifier(e)) && StrictlySorted(effects)
  }

  predicate AuthoritiesOk(linear: bool, f: BytecodeFunction) {
    if !linear then f.authoritySlots.None?
    else
      && f.authoritySlots.Some?
      && (forall s :: s in f.authoritySlots.value ==>
                        IsIdentifier(s.name) && IsIdentifier(s.effect) && s.effect in f.effects)
      && StrictlySorted(AuthorityNames(f.authoritySlots.value))
  }

  predicate InformationOk(flow: bool, f: BytecodeFunction) {
    if !flow then f.parameterInformation.None? && f.localInformation.None? && f.returnInformation.None?
    else
      && f.parameterInformation.Some? && f.localInformation.Some? && f.returnInformation.Some?
      && |f.parameterInformation.value| == f.parameterCount
      && |f.localInformation.value| == f.localCount
      && f.parameterInformation.value <= f.localInformation.value
      && (forall l :: l in f.localInformation.value ==> LabelOk(l))
      && LabelOk(f.returnInformation.value)
  }

  predicate FrameOk(f: BytecodeFunction) {
    && f.localCount <= MAX_LOCALS_PER_FUNCTION
    && f.parameterCount == |f.parameterTypes|
    && f.localCount == |f.localTypes|
    && f.parameterCount <= MAX_PARAMETERS
    && f.parameterTypes <= f.localTypes
    && Unit !in f.localTypes
    && 1 <= |f.instructions| <= MAX_INSTRUCTIONS_PER_FUNCTION
  }

  predicate DeclarationOk(p: BytecodeProgram, f: BytecodeFunction) {
    && IsIdentifier(f.name)
    && SortedEffects(f.effects)
    && AuthoritiesOk(p.canonicalAst.schema.IsLinear(), f)
    && InformationOk(p.canonicalAst.schema.IsInformationFlow(), f)
    && FrameOk(f)
  }

  /** Tables that the abstract interpreter indexes by slot. */
  predicate TablesFit(f: BytecodeFunction) {
    && |f.localTypes| == f.localCount
    && f.parameterCount <= f.localCount
    && (f.localInformation.Some? ==> |f.localInformation.value| == f.localCount)
  }

  // ---------- abstract interpretation ----------

  datatype AbstractValue = AbstractValue(ty: Type, information: Label)

  datatype AbstractState = AbstractState(
    stack: seq<AbstractValue>,
    initialized: seq<bool>,
    consumed: set<string>,
    calls: seq<nat>,
    maxDepth: nat)

  function SlotLabel(f: BytecodeFunction, slot: nat): Label
    requires TablesFit(f) && slot < f.localCount
  {
    if f.localInformation.Some? then f.localInformation.value[slot] else Public
  }

  function SlotEffects(slots: Option<seq<AuthoritySlot>>): map<string, string> {
    match slots
    case None => map[]
    case Some(items) => AuthorityMap(items)
  }

  function PopTyped(stack: seq<AbstractValue>, ty: Type): Option<(seq<AbstractValue>, Label)> {
    if stack == [] || stack[|stack| - 1].ty != ty then None
    else Some((stack[..|stack| - 1], stack[|stack| - 1].information))
  }

  function AbstractUnary(stack: seq<AbstractValue>, ty: Type): Option<seq<AbstractValue>> {
    match PopTyped(stack, ty)
    case None => None
    case Some((rest, information)) => Some(rest + [AbstractValue(ty, information)])
  }

  function AbstractBinary(stack: seq<AbstractValue>, input: Type, output: Type): Option<seq<AbstractValue>> {
    match PopTyped(stack, input)
    case None => None
    case Some((s1, right)) =>
      match PopTyped(s1, input)
      case None => None
      case Some((s2, left)) =>
        match left.Join(right)
        case None => None
        case Some(joined) => Some(s2 + [AbstractValue(output, joined)])
  }

  function AbstractEquality(stack: seq<AbstractValue>): Option<seq<AbstractValue>> {
    if |stack| < 2 then None
    else
      var left, right := stack[|stack| - 2], stack[|stack| - 1];
      if left.ty != right.ty then None
      else
        match left.information.Join(right.information)
        case None => None
        case Some(joined) => Some(stack[..|stack| - 2] + [AbstractValue(Bool, joined)])
  }

  function AbstractOperate(op: Opcode, stack: seq<AbstractValue>): Option<seq<AbstractValue>> {
    match op
    case AddI64 | SubI64 | MulI64 | DivI64 | RemI64 => AbstractBinary(stack, I64, I64)
    case LessI64 | LessEqualI64 | GreaterI64 | GreaterEqualI64 => AbstractBinary(stack, I64, Bool)
    case AndBool | OrBool => AbstractBinary(stack, Bool, Bool)
    case EqualAny | NotEqualAny => AbstractEquality(stack)
  }

  /** Arguments on top of the stack match the signature; labels are compared as far as both lists go. */
  predicate ArgumentsMatch(stack: seq<AbstractValue>, types: seq<Type>, labels: Option<seq<Label>>) {
    && |types| <= |stack|
    && var start := |stack| - |types|;
    && (forall k :: 0 <= k < |types| ==> stack[start + k].ty == types[k])
    && (labels.Some? ==>
          forall k :: 0 <= k < |types| && k < |labels.value| ==>
                        stack[start + k].information.CanFlowTo(labels.value[k]))
  }

  function AbstractInvoke(p: BytecodeProgram, f: BytecodeFunction, i: Instruction, a: AbstractState)
    : Option<AbstractState>
    requires i.Invoke?
  {
    if i.target >= |p.functions| then None
    else
      var target := p.functions[i.target];
      if i.argumentCount != target.parameterCount then None
      else if !ArgumentsMatch(a.stack, target.parameterTypes, target.parameterInformation) then None
      else if exists e :: e in target.effects && e !in f.effects then None
      else
        var base := |a.stack| - |target.parameterTypes|;
        var result := AbstractValue(target.returnType, LabelOr(target.returnInformation));
        Some(a.(stack := a.stack[..base] + [result], calls := a.calls + [i.target]))
  }

  function AbstractRequest(p: BytecodeProgram, f: BytecodeFunction, i: Instruction, a: AbstractState)
    : Option<AbstractState>
    requires i.Request?
  {
    if !IsIdentifier(i.effect) || i.effect !in f.effects || |a.stack| < i.argumentCount then None
    else
      var base := |a.stack| - i.argumentCount;
      var sink := LabelOr(i.information);
      if !InformationPresence(p.canonicalAst.schema.IsInformationFlow(), i.information) then None
      else if exists k :: base <= k < |a.stack| && !a.stack[k].information.CanFlowTo(sink) then None
      else if !p.canonicalAst.schema.IsLinear() then
        if i.authority.Some? then None else Some(a.(stack := a.stack[..base]))
      else if i.authority.None? then None
      else
        var name, slots := i.authority.value, SlotEffects(f.authoritySlots);
        if name !in slots || slots[name] != i.effect || name in a.consumed then None
        else Some(a.(stack := a.stack[..base], consumed := a.consumed + {name}))
  }

  function AbstractReturn(f: BytecodeFunction, a: AbstractState): Option<AbstractState> {
    if |a.stack| == 1 && a.stack[0].ty == f.returnType &&
       a.stack[0].information.CanFlowTo(LabelOr(f.returnInformation))
    then Some(a.(stack := []))
    else None
  }

  function WithStack(a: AbstractState, stack: Option<seq<AbstractValue>>): Option<AbstractState> {
    match stack
    case None => None
    case Some(s) => Some(a.(stack := s))
  }

  function AbstractOp(p: BytecodeProgram, f: BytecodeFunction, i: Instruction, last: bool, a: AbstractState)
    : (r: Option<AbstractState>)
    requires TablesFit(f) && |a.initialized| == f.localCount
    ensures r.Some? ==> |r.value.initialized| == f.localCount
  {
    match i
    case Push(v) => Some(a.(stack := a.stack + [AbstractValue(TypeOf(v), Public)]))
    case LoadLocal(slot) =>
      if slot >= f.localCount || !a.initialized[slot] then None
      else Some(a.(stack := a.stack + [AbstractValue(f.localTypes[slot], SlotLabel(f, slot))]))
    case StoreLocal(slot) =>
      if slot >= f.localCount || a.initialized[slot] then None
      else
        (match PopTyped(a.stack, f.localTypes[slot])
         case None => None
         case Some((rest, information)) =>
           if !information.CanFlowTo(SlotLabel(f, slot)) then None
           else Some(a.(stack := rest, initialized := a.initialized[slot := true])))
    case Pop => if a.stack == [] then None else Some(a.(stack := a.stack[..|a.stack| - 1]))
    case Negate => WithStack(a, AbstractUnary(a.stack, I64))
    case Not => WithStack(a, AbstractUnary(a.stack, Bool))
    case Operate(op) => WithStack(a, AbstractOperate(op, a.stack))
    case Invoke(_, _) => AbstractInvoke(p, f, i, a)
    case Request(_, _, _, _) => AbstractRequest(p, f, i, a)
    case Return => if last then AbstractReturn(f, a) else None
  }

  function AbstractStep(p: BytecodeProgram, f: BytecodeFunction, i: Instruction, last: bool, a: AbstractState)
    : (r: Option<AbstractState>)
    requires TablesFit(f) && |a.initialized| == f.localCount
    ensures r.Some? ==> |r.value.initialized| == f.localCount
  {
    match AbstractOp(p, f, i, last, a)
    case None => None
    case Some(a') =>
      if |a'.stack| > MAX_STACK_DEPTH then None
      else Some(a'.(maxDepth := Max(a'.maxDepth, |a'.stack|)))
  }

  /** Abstract execution of an instruction list; Return is only allowed as its last instruction. */
  function AbstractRun(p: BytecodeProgram, f: BytecodeFunction, code: seq<Instruction>, a: AbstractState)
    : (r: Option<AbstractState>)
    requires TablesFit(f) && |a.initialized| == f.localCount
    ensures r.Some? ==> |r.value.initialized| == f.localCount
    decreases |code|
  {
    if code == [] then Some(a)
    else
      match AbstractStep(p, f, code[0], |code| == 1, a)
      case None => None
      case Some(a') => AbstractRun(p, f, code[1..], a')
  }

  function InitialState(f: BytecodeFunction): AbstractState {
    AbstractState([], seq(f.localCount, k => k < f.parameterCount), {}, [], 0)
  }

  predicate EndsInReturn(code: seq<Instruction>) {
    code != [] && code[|code| - 1].Return?
  }

  function VerifyBody(p: BytecodeProgram, f: BytecodeFunction): Option<AbstractState>
    requires TablesFit(f)
  {
    match AbstractRun(p, f, f.instructions, InitialState(f))
    case None => None
    case Some(a) =>
      if EndsInReturn(f.instructions) && |a.consumed| == |SlotEffects(f.authoritySlots)| then Some(a) else None
  }

  // ---------- the whole program ----------

  predicate FunctionOk(p: BytecodeProgram, f: BytecodeFunction) {
    DeclarationOk(p, f) && VerifyBody(p, f).Some?
  }

  function GraphOf(functions: seq<BytecodeFunction>): (g: seq<seq<nat>>)
    ensures |g| == |functions|
    ensures forall i :: 0 <= i < |g| ==> g[i] == Targets(functions[i].instructions)
  {
    seq(|functions|, i requires 0 <= i < |functions| => Targets(functions[i].instructions))
  }

  function AsGraph(g: seq<seq<nat>>): Graph<nat> {
    map i: nat | i < |g| :: g[i]
  }

  function TotalInstructions(functions: seq<BytecodeFunction>): nat {
    if functions == [] then 0
    else TotalInstructions(functions[..|functions| - 1]) + |functions[|functions| - 1].instructions|
  }

  predicate DistinctNames(functions: seq<BytecodeFunction>) {
    forall i, j :: 0 <= i < j < |functions| ==> functions[i].name != functions[j].name
  }

  predicate EntryOk(p: BytecodeProgram) {
    && p.entryFunction < |p.functions|
    && p.functions[p.entryFunction].name == "main"
    && p.functions[p.entryFunction].parameterCount == 0
  }

  // ---------- where the verifier breaks off ----------

  /**
   * With all label tables present and of the lengths they state, the verifier compares the parameter
   * labels with a prefix of the local labels before it compares the counts; a prefix longer than the
   * table is an index out of bounds.
   */
  predicate SlicesBeyond(flow: bool, f: BytecodeFunction) {
    && flow
    && f.parameterInformation.Some? && f.localInformation.Some? && f.returnInformation.Some?
    && |f.parameterInformation.value| == f.parameterCount
    && |f.localInformation.value| == f.localCount
    && f.parameterCount > f.localCount
  }

  /** What is examined of a declaration before its label tables. */
  predicate DeclarationStarts(p: BytecodeProgram, f: BytecodeFunction) {
    && IsIdentifier(f.name)
    && SortedEffects(f.effects)
    && AuthoritiesOk(p.canonicalAst.schema.IsLinear(), f)
  }

  predicate EntryDeclared(p: BytecodeProgram) {
    1 <= |p.functions| <= MAX_FUNCTIONS && EntryOk(p)
  }

  /** Everything that structural verification asks of the first k functions, one by one. */
  ghost predicate FunctionsOk(p: BytecodeProgram, k: nat)
    requires k <= |p.functions|
  {
    && (forall i :: 0 <= i < k ==> FunctionOk(p, p.functions[i]))
    && (forall i, j :: 0 <= i < j < k ==> p.functions[i].name != p.functions[j].name)
    && TotalInstructions(p.functions[..k]) <= MAX_TOTAL_INSTRUCTIONS
  }

  /** The pass over the functions accepts the first k, reaches the label tables of the next and breaks off there. */
  ghost predicate CrashesAt(p: BytecodeProgram, k: nat) {
    && k < |p.functions| && FunctionsOk(p, k)
    && DeclarationStarts(p, p.functions[k])
    && (forall i :: 0 <= i < k ==> p.functions[i].name != p.functions[k].name)
    && SlicesBeyond(p.canonicalAst.schema.IsInformationFlow(), p.functions[k])
  }

  ghost predicate StructureCrashes(p: BytecodeProgram) {
    EntryDeclared(p) && exists k :: CrashesAt(p, k)
  }

  ghost predicate StructureOk(p: BytecodeProgram) {
    && 1 <= |p.functions| <= MAX_FUNCTIONS
    && EntryOk(p)
    && DistinctNames(p.functions)
    && (forall i :: 0 <= i < |p.functions| ==> FunctionOk(p, p.functions[i]))
    && TotalInstructions(p.functions) <= MAX_TOTAL_INSTRUCTIONS
    && Acyclic(AsGraph(GraphOf(p.functions)))
  }
}
