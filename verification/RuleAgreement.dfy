// The checker accepts exactly the modules that the static rules allow.
module RuleAgreement {
  import opened Prelude
  import opened CallGraph
  import opened Ast
  import opened CheckRules
  import opened CheckedPrograms
  import opened CheckedStructure
  import opened Semantics
  import opened StaticRules

  function KindOf(info: ValueInfo): Kind {
    Kind(info.ty, info.information)
  }

  /** Signatures by name are those of the functions. */
  ghost predicate Known(p: Program, sigs: Signatures) {
    && (forall i :: 0 <= i < |p.functions| ==> p.functions[i].name in sigs && sigs[p.functions[i].name] == SignatureOf(p.functions[i]))
    && (forall name :: name in sigs ==> exists i :: 0 <= i < |p.functions| && p.functions[i].name == name)
  }

  /** The locals of the checker are the names in scope. */
  ghost predicate Scoped(f: Function<i64>, k: nat, locals: Locals)
    requires k <= |f.body|
  {
    forall name, v :: InScope(f, k, name, v) <==> name in locals && v == KindOf(locals[name])
  }

  /** No diagnostics means a value by the rules, and the rules allow no other value. */
  ghost predicate Agrees(p: Program, f: Function<i64>, k: nat, e: Expression<i64>, t: Typed)
    requires k <= |f.body|
  {
    && (t.errors == 0 ==> t.info.Some? && HasValue(p, f, k, e, KindOf(t.info.value)))
    && forall v :: HasValue(p, f, k, e, v) ==> t.errors == 0 && t.info.Some? && KindOf(t.info.value) == v
  }

  lemma LabelsAgree(information: Option<Label>, l: Label)
    ensures Labelled(information, l) <==> l == LabelOr(information)
    ensures MayEnter(l, information) <==> l.CanFlowTo(LabelOr(information))
  {
  }

  lemma FitsAgree(flow: bool, info: ValueInfo, ty: Type, boundary: Option<Label>)
    ensures Fits(flow, KindOf(info), ty, boundary) <==>
            RequireType(ty, Some(info)) == 0 && RequireFlow(flow, Some(info), LabelOr(boundary)) == 0
  {
    LabelsAgree(boundary, info.information);
  }

  // ---------- expressions ----------

  lemma BinaryAgrees(op: BinaryOperator, a: ValueInfo, b: ValueInfo)
    ensures var t := BinaryRule(op, Some(a), Some(b));
            && t.info.Some?
            && forall v: Kind :: OperatorRule(op, a.ty, b.ty, v.ty) && Combine(a.information, b.information, v.information) <==>
                                 t.errors == 0 && v == KindOf(t.info.value)
  {
  }

  lemma {:induction false} ExpressionAgrees(p: Program, f: Function<i64>, k: nat, sigs: Signatures, locals: Locals, e: Expression<i64>)
    requires k <= |f.body| && Known(p, sigs) && Scoped(f, k, locals)
    ensures Agrees(p, f, k, e, TypeExpression(sigs, p.informationFlow, EffectSet(f.effects), locals, e))
    decreases e, 1
  {
    match e
    case Variable(name) =>
      assert name in locals ==> InScope(f, k, name, KindOf(locals[name]));
    case Unary(op, operand) =>
      ExpressionAgrees(p, f, k, sigs, locals, operand);
    case Binary(op, left, right) =>
      ExpressionAgrees(p, f, k, sigs, locals, left);
      ExpressionAgrees(p, f, k, sigs, locals, right);
      BinaryInParts(p, f, k, op, left, right, TypeExpression(sigs, p.informationFlow, EffectSet(f.effects), locals, left),
                    TypeExpression(sigs, p.informationFlow, EffectSet(f.effects), locals, right));
    case Call(callee, arguments) =>
      CallAgrees(p, f, k, sigs, locals, callee, arguments);
    case _ =>
  }

  lemma BinaryInParts(p: Program, f: Function<i64>, k: nat, op: BinaryOperator, left: Expression<i64>, right: Expression<i64>, l: Typed, r: Typed)
    requires k <= |f.body| && Agrees(p, f, k, left, l) && Agrees(p, f, k, right, r)
    ensures var t := BinaryRule(op, l.info, r.info);
            Agrees(p, f, k, Binary(op, left, right), Typed(t.info, l.errors + r.errors + t.errors))
  {
    hide BinaryRule, OperatorRule, Combine, HasValue;
    var t := BinaryRule(op, l.info, r.info);
    if l.errors == 0 && r.errors == 0 {
      BinaryAgrees(op, l.info.value, r.info.value);
      if t.errors == 0 {
        BinaryHasValue(p, f, k, op, left, right, KindOf(l.info.value), KindOf(r.info.value), KindOf(t.info.value));
      }
    }
    forall v | HasValue(p, f, k, Binary(op, left, right), v)
      ensures l.errors == 0 && r.errors == 0 && t.errors == 0 && t.info.Some? && KindOf(t.info.value) == v
    {
      var a, b := BinaryParts(p, f, k, op, left, right, v);
    }
  }

  lemma BinaryHasValue(p: Program, f: Function<i64>, k: nat, op: BinaryOperator, left: Expression<i64>, right: Expression<i64>,
                       a: Kind, b: Kind, v: Kind)
    requires k <= |f.body| && HasValue(p, f, k, left, a) && HasValue(p, f, k, right, b)
    requires OperatorRule(op, a.ty, b.ty, v.ty) && Combine(a.information, b.information, v.information)
    ensures HasValue(p, f, k, Binary(op, left, right), v)
  {
    hide OperatorRule, Combine;
  }

  lemma BinaryParts(p: Program, f: Function<i64>, k: nat, op: BinaryOperator, left: Expression<i64>, right: Expression<i64>, v: Kind)
    returns (a: Kind, b: Kind)
    requires k <= |f.body| && HasValue(p, f, k, Binary(op, left, right), v)
    ensures HasValue(p, f, k, left, a) && HasValue(p, f, k, right, b)
    ensures OperatorRule(op, a.ty, b.ty, v.ty) && Combine(a.information, b.information, v.information)
  {
    hide OperatorRule, Combine;
    a, b :| HasValue(p, f, k, left, a) && HasValue(p, f, k, right, b)
            && OperatorRule(op, a.ty, b.ty, v.ty) && Combine(a.information, b.information, v.information);
  }

  lemma {:induction false} CallAgrees(p: Program, f: Function<i64>, k: nat, sigs: Signatures, locals: Locals, callee: string,
                                      arguments: seq<Expression<i64>>)
    requires k <= |f.body| && Known(p, sigs) && Scoped(f, k, locals)
    ensures Agrees(p, f, k, Call(callee, arguments),
                   TypeExpression(sigs, p.informationFlow, EffectSet(f.effects), locals, Call(callee, arguments)))
    decreases arguments, 1
  {
    hide Scoped, AreAccepted;
    forall i | 0 <= i < |p.functions| && p.functions[i].name == callee && |arguments| == |p.functions[i].parameters|
      ensures TypeArguments(sigs, p.informationFlow, EffectSet(f.effects), locals, arguments, InfosOf(p.functions[i].parameters)) == 0 <==>
              AreAccepted(p, f, k, arguments, p.functions[i].parameters)
    {
      ArgumentsAgree(p, f, k, sigs, locals, arguments, p.functions[i].parameters);
    }
    forall i, v | 0 <= i < |p.functions| && p.functions[i].name == callee
      ensures CallRule(f, p.functions[i], callee, v) <==>
              |sigs[callee].effects - EffectSet(f.effects)| == 0 && v == KindOf(sigs[callee].returnValue)
    {
      CallRuleAgrees(f, p.functions[i], callee, v);
    }
    forall i | 0 <= i < |p.functions| && AreAccepted(p, f, k, arguments, p.functions[i].parameters)
      ensures |arguments| == |p.functions[i].parameters|
    {
      AcceptedCount(p, f, k, arguments, p.functions[i].parameters);
    }
  }

  lemma AcceptedCount(p: Program, f: Function<i64>, k: nat, es: seq<Expression<i64>>, parameters: seq<Parameter>)
    requires k <= |f.body| && AreAccepted(p, f, k, es, parameters)
    ensures |es| == |parameters|
  {
  }

  lemma CallRuleAgrees(f: Function<i64>, g: Function<i64>, callee: string, v: Kind)
    requires g.name == callee
    ensures CallRule(f, g, callee, v) <==>
            |SignatureOf(g).effects - EffectSet(f.effects)| == 0 && v == KindOf(SignatureOf(g).returnValue)
  {
    LabelsAgree(g.returnInformation, v.information);
    NoneMissing(EffectSet(g.effects), EffectSet(f.effects));
    assert forall x :: x in EffectSet(g.effects) <==> x in g.effects;
    assert forall x :: x in EffectSet(f.effects) <==> x in f.effects;
  }

  lemma NoneMissing(a: set<string>, b: set<string>)
    ensures |a - b| == 0 <==> forall x :: x in a ==> x in b
  {
    if |a - b| == 0 {
      forall x | x in a ensures x in b {
        assert x !in a - b;
      }
    } else {
      var x :| x in a - b;
    }
  }

  lemma {:induction false} ArgumentsAgree(p: Program, f: Function<i64>, k: nat, sigs: Signatures, locals: Locals, es: seq<Expression<i64>>,
                                          parameters: seq<Parameter>)
    requires k <= |f.body| && Known(p, sigs) && Scoped(f, k, locals) && |es| == |parameters|
    ensures TypeArguments(sigs, p.informationFlow, EffectSet(f.effects), locals, es, InfosOf(parameters)) == 0 <==>
            AreAccepted(p, f, k, es, parameters)
    decreases es, 0
  {
    if es != [] {
      ExpressionAgrees(p, f, k, sigs, locals, es[0]);
      ArgumentsAgree(p, f, k, sigs, locals, es[1..], parameters[1..]);
      assert InfosOf(parameters)[1..] == InfosOf(parameters[1..]);
      FirstArgument(p, f, k, es, parameters, TypeExpression(sigs, p.informationFlow, EffectSet(f.effects), locals, es[0]));
      hide Scoped, AreAccepted, TypeExpression;
    }
  }

  lemma AcceptedAgrees(p: Program, f: Function<i64>, k: nat, e: Expression<i64>, ty: Type, boundary: Option<Label>, t: Typed)
    requires k <= |f.body| && Agrees(p, f, k, e, t)
    ensures IsAccepted(p, f, k, e, ty, boundary) <==>
            t.errors == 0 && RequireType(ty, t.info) == 0 && RequireFlow(p.informationFlow, t.info, LabelOr(boundary)) == 0
  {
    hide HasValue, Fits, RequireType, RequireFlow;
    if t.errors == 0 {
      FitsAgree(p.informationFlow, t.info.value, ty, boundary);
      assert HasValue(p, f, k, e, KindOf(t.info.value));
    }
  }

  /** An argument list is accepted if its first argument is and the others are. */
  lemma FirstArgument(p: Program, f: Function<i64>, k: nat, es: seq<Expression<i64>>, parameters: seq<Parameter>, t: Typed)
    requires k <= |f.body| && |es| == |parameters| > 0 && Agrees(p, f, k, es[0], t)
    ensures var info := InfoOf(parameters[0]);
            AreAccepted(p, f, k, es, parameters) <==>
            && t.errors == 0 && RequireType(info.ty, t.info) == 0 && RequireFlow(p.informationFlow, t.info, info.information) == 0
            && AreAccepted(p, f, k, es[1..], parameters[1..])
  {
    AcceptedAgrees(p, f, k, es[0], parameters[0].valueType, parameters[0].information, t);
    hide IsAccepted, Agrees, RequireType, RequireFlow;
    assert forall i :: 0 < i < |es| ==> es[i] == es[1..][i - 1] && parameters[i] == parameters[1..][i - 1];
    assert forall i :: 0 <= i < |es| - 1 ==> es[1..][i] == es[i + 1] && parameters[1..][i] == parameters[i + 1];
  }

  // ---------- scopes ----------

  lemma {:induction false} ParametersInScope(parameters: seq<Parameter>, name: string, v: Kind)
    requires forall i, j :: 0 <= i < j < |parameters| ==> parameters[i].name != parameters[j].name
    ensures (exists i :: 0 <= i < |parameters| && Declares(parameters[i], name, v)) <==>
            name in ParameterLocals(parameters) && v == KindOf(ParameterLocals(parameters)[name])
    ensures name in ParameterLocals(parameters) <==> exists i :: 0 <= i < |parameters| && parameters[i].name == name
  {
    if parameters != [] {
      var n := |parameters| - 1;
      ParametersInScope(parameters[..n], name, v);
      LabelsAgree(parameters[n].information, v.information);
      assert forall i :: 0 <= i < n ==> parameters[..n][i] == parameters[i];
      hide Declares, LabelOr, Labelled;
      LastParameter(parameters[n], name, v);
    }
  }

  lemma LastParameter(q: Parameter, name: string, v: Kind)
    ensures Declares(q, name, v) <==> q.name == name && v == KindOf(InfoOf(q))
  {
    LabelsAgree(q.information, v.information);
  }

  lemma ParametersScoped(f: Function<i64>)
    requires forall i, j :: 0 <= i < j < |f.parameters| ==> f.parameters[i].name != f.parameters[j].name
    ensures Scoped(f, 0, ParameterLocals(f.parameters))
  {
    hide Declares;
    forall name, v ensures InScope(f, 0, name, v) <==> name in ParameterLocals(f.parameters) && v == KindOf(ParameterLocals(f.parameters)[name]) {
      ParametersInScope(f.parameters, name, v);
    }
  }

  lemma InScopeNext(f: Function<i64>, k: nat, name: string, v: Kind)
    requires k < |f.body|
    ensures InScope(f, k + 1, name, v) <==> InScope(f, k, name, v) || Binds(f.body[k], name, v)
  {
    hide Declares, Binds;
  }

  lemma FreshAgrees(f: Function<i64>, k: nat, locals: Locals, name: string)
    requires k <= |f.body| && Scoped(f, k, locals)
    ensures IsFresh(f, k, name) <==> name !in locals
  {
    if name in locals {
      var v := KindOf(locals[name]);
      assert InScope(f, k, name, v);
    }
    forall i | 0 <= i < |f.parameters| && f.parameters[i].name == name ensures name in locals {
      LastParameter(f.parameters[i], name, KindOf(InfoOf(f.parameters[i])));
      assert InScope(f, k, name, KindOf(InfoOf(f.parameters[i])));
    }
    forall j | 0 <= j < k && f.body[j].LetStatement? && f.body[j].name == name ensures name in locals {
      var v := Kind(f.body[j].valueType, LabelOr(f.body[j].information));
      LabelsAgree(f.body[j].information, v.information);
      assert Binds(f.body[j], name, v);
      assert InScope(f, k, name, v);
    }
  }

  /** A binding of a fresh name extends the scope by what it declares. */
  lemma ScopedAfterLet(f: Function<i64>, k: nat, locals: Locals)
    requires k < |f.body| && Scoped(f, k, locals) && f.body[k].LetStatement? && f.body[k].name !in locals
    ensures Scoped(f, k + 1, locals[f.body[k].name := ValueInfo(f.body[k].valueType, LabelOr(f.body[k].information))])
  {
    hide InScope;
    var s := f.body[k];
    var next := locals[s.name := ValueInfo(s.valueType, LabelOr(s.information))];
    var after := k + 1;
    forall name, v ensures InScope(f, after, name, v) <==> name in next && v == KindOf(next[name]) {
      LabelsAgree(s.information, v.information);
      InScopeNext(f, k, name, v);
    }
  }

  lemma ScopedAfterOther(f: Function<i64>, k: nat, locals: Locals)
    requires k < |f.body| && Scoped(f, k, locals) && !f.body[k].LetStatement?
    ensures Scoped(f, k + 1, locals)
  {
    hide InScope;
    var after := k + 1;
    forall name, v ensures InScope(f, after, name, v) <==> name in locals && v == KindOf(locals[name]) {
      InScopeNext(f, k, name, v);
    }
  }

  // ---------- slots ----------

  lemma {:induction false} SlotsLookup(items: seq<Authority>, name: string, effect: string)
    requires forall i, j :: 0 <= i < j < |items| ==> items[i].name != items[j].name
    ensures Authority(name, effect) in items <==> name in AuthorityMap(items) && AuthorityMap(items)[name] == effect
    ensures name in AuthorityMap(items) <==> exists i :: 0 <= i < |items| && items[i].name == name
  {
    if items != [] {
      var n := |items| - 1;
      SlotsLookup(items[..n], name, effect);
      assert items == items[..n] + [items[n]];
      assert forall i :: 0 <= i < n ==> items[..n][i] == items[i];
    }
  }

  predicate ReturnedBefore(f: Function<i64>, k: nat)
    requires k <= |f.body|
  {
    exists j :: 0 <= j < k && f.body[j].ReturnStatement?
  }

  // ---------- statements ----------

  // A function of a module, and what the checker looks up in it.
  datatype Setting = Setting(p: Program, f: Function<i64>, sigs: Signatures) {

    function scope(): Scope {
      ScopeOf(sigs, p.informationFlow, LinearProfile(p), f)
    }

    /** Slots are declared where they have to be, under different names. */
    ghost predicate Valid() {
      && Known(p, sigs)
      && (LinearProfile(p) ==>
            f.authorities.Some?
            && forall i, j :: 0 <= i < j < |f.authorities.value| ==> f.authorities.value[i].name != f.authorities.value[j].name)
    }
  }

  /** The checker in front of statement k, with nothing reported so far. */
  ghost predicate Reached(c: Setting, k: nat, b: BodyState)
    requires k <= |c.f.body|
  {
    && b.errors == 0 && Scoped(c.f, k, b.locals)
    && (b.returned <==> ReturnedBefore(c.f, k))
    && forall slot :: slot in b.available <==> slot in c.scope().slots && !Used(c.f, k, slot)
  }

  lemma ProfilesAgree(p: Program)
    ensures LinearProfile(p) <==> KeepsAuthority(p)
  {
    forall i | 0 <= i < |p.functions| ensures RequestsWithAuthority(p.functions[i]) <==> RequestsWithSlot(p.functions[i]) {
    }
  }

  lemma SlotAgrees(c: Setting, k: nat, b: BodyState, effect: string, slot: Option<string>)
    requires c.Valid() && k <= |c.f.body| && Reached(c, k, b) && LinearProfile(c.p)
    ensures var slots := c.scope().slots;
            SlotRule(c.f, k, effect, slot) <==>
            slot.Some? && slot.value in slots && slots[slot.value] == effect && slot.value in b.available
  {
    if slot.Some? {
      SlotsLookup(c.f.authorities.value, slot.value, effect);
    }
  }

  lemma {:induction false} SinkAgrees(p: Program, f: Function<i64>, k: nat, sigs: Signatures, locals: Locals, es: seq<Expression<i64>>,
                                      information: Option<Label>)
    requires k <= |f.body| && Known(p, sigs) && Scoped(f, k, locals)
    ensures SinkArguments(sigs, p.informationFlow, EffectSet(f.effects), locals, es, LabelOr(information)) == 0 <==>
            forall i :: 0 <= i < |es| ==> Enters(p, f, k, es[i], information)
    decreases es
  {
    if es != [] {
      SinkAgrees(p, f, k, sigs, locals, es[1..], information);
      EntersAgrees(p, f, k, sigs, locals, es[0], information);
      assert forall i :: 0 < i < |es| ==> es[i] == es[1..][i - 1];
      assert forall i :: 0 <= i < |es| - 1 ==> es[1..][i] == es[i + 1];
      hide Scoped, Enters, TypeExpression;
    }
  }

  lemma EntersAgrees(p: Program, f: Function<i64>, k: nat, sigs: Signatures, locals: Locals, e: Expression<i64>, information: Option<Label>)
    requires k <= |f.body| && Known(p, sigs) && Scoped(f, k, locals)
    ensures var t := TypeExpression(sigs, p.informationFlow, EffectSet(f.effects), locals, e);
            Enters(p, f, k, e, information) <==> t.errors == 0 && RequireFlow(p.informationFlow, t.info, LabelOr(information)) == 0
  {
    ExpressionAgrees(p, f, k, sigs, locals, e);
    hide TypeExpression, HasValue, Scoped;
    var t := TypeExpression(sigs, p.informationFlow, EffectSet(f.effects), locals, e);
    if t.errors == 0 {
      LabelsAgree(information, t.info.value.information);
      assert HasValue(p, f, k, e, KindOf(t.info.value));
    }
  }

  /** What the rules ask of statement k, and that it can be reached. */
  ghost predicate StepRule(c: Setting, k: nat)
    requires k < |c.f.body|
  {
    !ReturnedBefore(c.f, k) && StatementRule(c.p, c.f, k)
  }

  lemma LetAgrees(c: Setting, k: nat, b: BodyState)
    requires c.Valid() && k < |c.f.body| && Reached(c, k, b) && c.f.body[k].LetStatement?
    ensures CheckLet(c.scope(), c.f.body[k], b).errors == 0 <==> StatementRule(c.p, c.f, k)
    ensures CheckLet(c.scope(), c.f.body[k], b).errors == 0 ==> Scoped(c.f, k + 1, CheckLet(c.scope(), c.f.body[k], b).locals)
  {
    var s := c.f.body[k];
    hide Scoped, TypeExpression, IsFresh, IsAccepted, RequireType, RequireFlow, Known, Agrees;
    FreshAgrees(c.f, k, b.locals, s.name);
    ExpressionAgrees(c.p, c.f, k, c.sigs, b.locals, s.value);
    AcceptedAgrees(c.p, c.f, k, s.value, s.valueType, s.information,
                   TypeExpression(c.sigs, c.p.informationFlow, EffectSet(c.f.effects), b.locals, s.value));
    if s.name !in b.locals {
      ScopedAfterLet(c.f, k, b.locals);
    }
  }

  lemma ReturnAgrees(c: Setting, k: nat, b: BodyState)
    requires c.Valid() && k < |c.f.body| && Reached(c, k, b) && c.f.body[k].ReturnStatement?
    ensures CheckReturn(c.scope(), b.locals, c.f.body[k].result) == 0 <==> StatementRule(c.p, c.f, k)
  {
    hide Scoped, TypeExpression, IsAccepted, RequireType, RequireFlow, Known, Agrees;
    if c.f.body[k].result.Some? {
      var e := c.f.body[k].result.value;
      ExpressionAgrees(c.p, c.f, k, c.sigs, b.locals, e);
      AcceptedAgrees(c.p, c.f, k, e, c.f.returnType, c.f.returnInformation,
                     TypeExpression(c.sigs, c.p.informationFlow, EffectSet(c.f.effects), b.locals, e));
    }
  }

  lemma RequestAgrees(c: Setting, k: nat, b: BodyState)
    requires c.Valid() && k < |c.f.body| && Reached(c, k, b) && c.f.body[k].RequestStatement?
    ensures CheckRequest(c.scope(), c.f.body[k], b).errors == 0 <==> StatementRule(c.p, c.f, k)
  {
    var s := c.f.body[k];
    ProfilesAgree(c.p);
    SinkAgrees(c.p, c.f, k, c.sigs, b.locals, s.arguments, s.information);
    if LinearProfile(c.p) {
      SlotAgrees(c, k, b, s.effect, s.authority);
    }
    hide Scoped, Known, Enters, SinkArguments, SlotRule, KeepsAuthority, LinearProfile;
  }

  lemma ExpressionStatementAgrees(c: Setting, k: nat, b: BodyState)
    requires c.Valid() && k < |c.f.body| && Reached(c, k, b) && c.f.body[k].ExpressionStatement?
    ensures TypeExpression(c.sigs, c.p.informationFlow, EffectSet(c.f.effects), b.locals, c.f.body[k].expression).errors == 0 <==>
            StatementRule(c.p, c.f, k)
  {
    ExpressionAgrees(c.p, c.f, k, c.sigs, b.locals, c.f.body[k].expression);
    hide Scoped, Known, HasValue, TypeExpression;
  }

  lemma NextStatement(f: Function<i64>, k: nat, slot: string)
    requires k < |f.body|
    ensures Used(f, k + 1, slot) <==> Used(f, k, slot) || (f.body[k].RequestStatement? && f.body[k].authority == Some(slot))
    ensures ReturnedBefore(f, k + 1) <==> ReturnedBefore(f, k) || f.body[k].ReturnStatement?
  {
  }

  /** One statement: nothing is reported exactly if it is in order, and then the checker has reached the next one. */
  lemma StepAgrees(c: Setting, k: nat, b: BodyState)
    requires c.Valid() && k < |c.f.body| && Reached(c, k, b)
    ensures CheckStatement(c.scope(), c.f.body[k], b).errors == 0 <==> StepRule(c, k)
    ensures CheckStatement(c.scope(), c.f.body[k], b).errors == 0 ==> Reached(c, k + 1, CheckStatement(c.scope(), c.f.body[k], b))
  {
    hide StatementRule, Scoped, TypeExpression, SinkArguments, Used, ReturnedBefore, CheckReturn, RequireType, RequireFlow, Known;
    var s := c.f.body[k];
    forall slot ensures Used(c.f, k + 1, slot) <==> Used(c.f, k, slot) || (s.RequestStatement? && s.authority == Some(slot)) {
      NextStatement(c.f, k, slot);
    }
    NextStatement(c.f, k, "");
    if !s.LetStatement? {
      ScopedAfterOther(c.f, k, b.locals);
    }
    if !b.returned {
      match s
      case LetStatement(_, _, _, _) => LetAgrees(c, k, b);
      case ReturnStatement(_) => ReturnAgrees(c, k, b);
      case RequestStatement(_, _, _, _) => RequestAgrees(c, k, b);
      case ExpressionStatement(_) => ExpressionStatementAgrees(c, k, b);
    }
  }

  lemma {:induction false} ReportsStay(scope: Scope, body: seq<Statement<i64>>, b: BodyState)
    ensures CheckStatements(scope, body, b).errors >= b.errors
    decreases |body|
  {
    hide TypeExpression, SinkArguments, CheckReturn, RequireType, RequireFlow;
    if body != [] {
      ReportsStay(scope, body[1..], CheckStatement(scope, body[0], b));
    }
  }

  /** The statements from k on: nothing is reported exactly if all of them are in order. */
  lemma {:induction false} RunAgrees(c: Setting, k: nat, b: BodyState)
    requires c.Valid() && k <= |c.f.body| && Reached(c, k, b)
    ensures var end := CheckStatements(c.scope(), c.f.body[k..], b);
            && (end.errors == 0 <==> forall j :: k <= j < |c.f.body| ==> StepRule(c, j))
            && (end.errors == 0 ==> Reached(c, |c.f.body|, end))
    decreases |c.f.body| - k
  {
    hide StepRule, Reached, CheckStatement;
    var body := c.f.body;
    if k < |body| {
      var next := CheckStatement(c.scope(), body[k], b);
      StepAgrees(c, k, b);
      ReportsStay(c.scope(), body[k + 1..], next);
      assert body[k..][0] == body[k] && body[k..][1..] == body[k + 1..];
      if next.errors == 0 {
        RunAgrees(c, k + 1, next);
      }
    } else {
      NoReports(c, k, b);
    }
  }

  lemma NoReports(c: Setting, k: nat, b: BodyState)
    requires k <= |c.f.body| && Reached(c, k, b)
    ensures b.errors == 0
  {
  }

  // ---------- functions ----------

  lemma {:induction false} EffectsDeclared(items: seq<Authority>, effects: seq<string>)
    ensures UndeclaredEffects(items, EffectSet(effects)) == 0 <==> forall i :: 0 <= i < |items| ==> items[i].effect in effects
    decreases |items|
  {
    if items != [] {
      EffectsDeclared(items[1..], effects);
      assert forall i :: 0 < i < |items| ==> items[i] == items[1..][i - 1];
      assert forall i :: 0 <= i < |items| - 1 ==> items[1..][i] == items[i + 1];
    }
  }

  lemma {:induction false} NoUnitParameters(parameters: seq<Parameter>)
    ensures UnitParameters(parameters) == 0 <==> forall i :: 0 <= i < |parameters| ==> parameters[i].valueType != Unit
    decreases |parameters|
  {
    if parameters != [] {
      NoUnitParameters(parameters[1..]);
      assert forall i :: 0 < i < |parameters| ==> parameters[i] == parameters[1..][i - 1];
      assert forall i :: 0 <= i < |parameters| - 1 ==> parameters[1..][i] == parameters[i + 1];
    }
  }

  lemma {:induction false} ParametersLabelled(flow: bool, parameters: seq<Parameter>)
    ensures ParameterShape(flow, parameters) == 0 <==> forall i :: 0 <= i < |parameters| ==> parameters[i].information.Some? == flow
    decreases |parameters|
  {
    if parameters != [] {
      ParametersLabelled(flow, parameters[1..]);
      assert forall i :: 0 < i < |parameters| ==> parameters[i] == parameters[1..][i - 1];
      assert forall i :: 0 <= i < |parameters| - 1 ==> parameters[1..][i] == parameters[i + 1];
    }
  }

  predicate StatementLabelled(flow: bool, s: Statement<i64>) {
    s.LetStatement? || s.RequestStatement? ==> s.information.Some? == flow
  }

  lemma {:induction false} BodyLabelled(flow: bool, body: seq<Statement<i64>>)
    ensures BodyShape(flow, body) == 0 <==> forall k :: 0 <= k < |body| ==> StatementLabelled(flow, body[k])
    decreases |body|
  {
    if body != [] {
      BodyLabelled(flow, body[1..]);
      assert forall k :: 0 < k < |body| ==> body[k] == body[1..][k - 1];
      assert forall k :: 0 <= k < |body| - 1 ==> body[1..][k] == body[k + 1];
    }
  }

  lemma ShapeAgrees(flow: bool, f: Function<i64>)
    ensures InformationShape(flow, f) == 0 <==> LabelledEverywhere(flow, f)
  {
    ParametersLabelled(flow, f.parameters);
    BodyLabelled(flow, f.body);
    hide ParameterShape, BodyShape;
    assert LabelledEverywhere(flow, f) ==> forall k :: 0 <= k < |f.body| ==> StatementLabelled(flow, f.body[k]);
  }

  lemma HeaderAgrees(linear: bool, f: Function<i64>)
    requires linear ==> f.authorities.Some?
    ensures HeaderErrors(linear, f) == 0 <==>
            && (forall i :: 0 <= i < |f.parameters| ==> f.parameters[i].valueType != Unit)
            && (forall i, j :: 0 <= i < j < |f.parameters| ==> f.parameters[i].name != f.parameters[j].name)
            && (linear ==>
                  && (forall i, j :: 0 <= i < j < |f.authorities.value| ==> f.authorities.value[i].name != f.authorities.value[j].name)
                  && (forall i :: 0 <= i < |f.authorities.value| ==> f.authorities.value[i].effect in f.effects))
  {
    var slots := DeclaredSlots(linear, f);
    RepeatsZero(AuthorityNames(slots));
    RepeatsZero(ParameterNames(f.parameters));
    EffectsDeclared(slots, f.effects);
    NoUnitParameters(f.parameters);
    hide Repeats, UndeclaredEffects, UnitParameters;
    assert Distinct(ParameterNames(f.parameters)) <==>
           forall i, j :: 0 <= i < j < |f.parameters| ==> f.parameters[i].name != f.parameters[j].name;
    assert Distinct(AuthorityNames(slots)) <==> forall i, j :: 0 <= i < j < |slots| ==> slots[i].name != slots[j].name;
  }

  lemma LastReturns(f: Function<i64>)
    requires f.body != [] && !ReturnedBefore(f, |f.body| - 1)
    ensures ReturnedBefore(f, |f.body|) <==> ReturnsLast(f)
  {
    NextStatement(f, |f.body| - 1, "");
  }

  /** At the end of a body that is in order: it has returned if its last statement returns, and what is left is unused. */
  lemma EndAgrees(c: Setting, end: BodyState)
    requires c.Valid() && c.f.body != [] && Reached(c, |c.f.body|, end)
    requires forall k :: 0 <= k < |c.f.body| ==> StepRule(c, k)
    ensures end.returned <==> ReturnsLast(c.f)
    ensures LinearProfile(c.p) ==>
              (|end.available| == 0 <==>
               forall i :: 0 <= i < |c.f.authorities.value| ==> Used(c.f, |c.f.body|, c.f.authorities.value[i].name))
  {
    hide Scoped, StatementRule, Known;
    var n := |c.f.body|;
    assert StepRule(c, n - 1);
    LastReturns(c.f);
    if LinearProfile(c.p) {
      EndSlots(c, end);
    }
  }

  lemma EndSlots(c: Setting, end: BodyState)
    requires c.Valid() && Reached(c, |c.f.body|, end) && LinearProfile(c.p)
    ensures |end.available| == 0 <==>
            forall i :: 0 <= i < |c.f.authorities.value| ==> Used(c.f, |c.f.body|, c.f.authorities.value[i].name)
  {
    hide Scoped, Known, Used;
    var slots := c.f.authorities.value;
    forall name ensures name in c.scope().slots <==> exists i :: 0 <= i < |slots| && slots[i].name == name {
      SlotsLookup(slots, name, "");
    }
    if |end.available| == 0 {
      assert end.available == {};
    } else {
      var name :| name in end.available;
    }
  }

  lemma SettingIsValid(p: Program, f: Function<i64>, sigs: Signatures)
    requires Known(p, sigs) && (LinearProfile(p) ==> f.authorities.Some?) && HeaderErrors(LinearProfile(p), f) == 0
    ensures Setting(p, f, sigs).Valid()
  {
    HeaderAgrees(LinearProfile(p), f);
    hide HeaderErrors, LinearProfile, Known;
  }

  /** The body of a function whose header is in order. */
  lemma BodyAgrees(p: Program, f: Function<i64>, sigs: Signatures)
    requires Known(p, sigs) && (LinearProfile(p) ==> f.authorities.Some?) && HeaderErrors(LinearProfile(p), f) == 0 && f.body != []
    ensures CheckFunction(sigs, p.informationFlow, LinearProfile(p), f) == 0 <==>
            && (forall k :: 0 <= k < |f.body| ==> StatementRule(p, f, k))
            && ReturnsLast(f)
            && (LinearProfile(p) ==> forall i :: 0 <= i < |f.authorities.value| ==> Used(f, |f.body|, f.authorities.value[i].name))
  {
    var c := Setting(p, f, sigs);
    var start := InitialBody(LinearProfile(p), f);
    SettingIsValid(p, f, sigs);
    StartReached(c);
    assert f.body[0..] == f.body;
    RunAgrees(c, 0, start);
    var end := CheckStatements(c.scope(), f.body, start);
    hide StatementRule, Scoped, Known, CheckStatements, HeaderErrors, LinearProfile, Used;
    if end.errors == 0 {
      EndAgrees(c, end);
    }
    hide StepRule, Reached, ReturnsLast;
    StepsInOrder(c);
  }

  /** Statements that are in order can be reached if the function returns at its end only. */
  lemma StepsInOrder(c: Setting)
    ensures (forall k :: 0 <= k < |c.f.body| ==> StepRule(c, k)) ==> forall k :: 0 <= k < |c.f.body| ==> StatementRule(c.p, c.f, k)
    ensures ReturnsLast(c.f) && (forall k :: 0 <= k < |c.f.body| ==> StatementRule(c.p, c.f, k)) ==>
              forall k :: 0 <= k < |c.f.body| ==> StepRule(c, k)
  {
    hide StatementRule;
    if forall k :: 0 <= k < |c.f.body| ==> StepRule(c, k) {
      forall k | 0 <= k < |c.f.body| ensures StatementRule(c.p, c.f, k) {
        assert StepRule(c, k);
      }
    }
  }

  lemma StartReached(c: Setting)
    requires c.Valid() && HeaderErrors(LinearProfile(c.p), c.f) == 0
    ensures Reached(c, 0, InitialBody(LinearProfile(c.p), c.f))
  {
    HeaderAgrees(LinearProfile(c.p), c.f);
    ParametersScoped(c.f);
    hide Scoped, Known, HeaderErrors, LinearProfile;
  }

  lemma FunctionAgrees(p: Program, f: Function<i64>, sigs: Signatures)
    requires Known(p, sigs)
    ensures FunctionRule(p, f) <==>
            && InformationShape(p.informationFlow, f) == 0 && |f.parameters| <= CHECK_MAX_PARAMETERS && Repeats(f.effects) == 0
            && CheckFunction(sigs, p.informationFlow, LinearProfile(p), f) == 0
  {
    hide Known, HeaderErrors, LinearProfile, KeepsAuthority, InformationShape, LabelledEverywhere, CheckFunction, Repeats, Used, ReturnsLast,
         StatementRule;
    ProfilesAgree(p);
    ShapeAgrees(p.informationFlow, f);
    RepeatsZero(f.effects);
    HeaderFirst(sigs, p.informationFlow, LinearProfile(p), f);
    RulesAgree(p, f);
    if (LinearProfile(p) ==> f.authorities.Some?) && HeaderErrors(LinearProfile(p), f) == 0 && f.body != [] {
      BodyAgrees(p, f, sigs);
    }
  }

  /** The rules of a function, sorted by where the checker looks at them. */
  lemma RulesAgree(p: Program, f: Function<i64>)
    ensures FunctionRule(p, f) <==>
            && |f.parameters| <= CHECK_MAX_PARAMETERS
            && (forall i, j :: 0 <= i < j < |f.effects| ==> f.effects[i] != f.effects[j])
            && LabelledEverywhere(p.informationFlow, f)
            && (LinearProfile(p) ==> f.authorities.Some?) && HeaderErrors(LinearProfile(p), f) == 0 && f.body != []
            && ReturnsLast(f)
            && (LinearProfile(p) ==> forall i :: 0 <= i < |f.authorities.value| ==> Used(f, |f.body|, f.authorities.value[i].name))
            && forall k :: 0 <= k < |f.body| ==> StatementRule(p, f, k)
  {
    hide StatementRule, HeaderErrors, LinearProfile, KeepsAuthority, LabelledEverywhere, SlotsRule, ReturnsLast, Used;
    ProfilesAgree(p);
    if LinearProfile(p) ==> f.authorities.Some? {
      HeaderAgrees(LinearProfile(p), f);
    }
    SlotsInParts(f);
    EndsWithReturn(f);
  }

  lemma EndsWithReturn(f: Function<i64>)
    ensures ReturnsLast(f) ==> f.body != []
  {
  }

  lemma SlotsInParts(f: Function<i64>)
    ensures SlotsRule(f) <==>
            && f.authorities.Some?
            && (forall i, j :: 0 <= i < j < |f.authorities.value| ==> f.authorities.value[i].name != f.authorities.value[j].name)
            && (forall i :: 0 <= i < |f.authorities.value| ==> f.authorities.value[i].effect in f.effects)
            && forall i :: 0 <= i < |f.authorities.value| ==> Used(f, |f.body|, f.authorities.value[i].name)
  {
  }

  lemma HeaderFirst(sigs: Signatures, flow: bool, linear: bool, f: Function<i64>)
    ensures CheckFunction(sigs, flow, linear, f) == 0 ==>
              (linear ==> f.authorities.Some?) && HeaderErrors(linear, f) == 0 && f.body != []
  {
    hide HeaderErrors, CheckStatements;
  }

  // ---------- modules ----------

  lemma {:induction false} StatementsAgree(functions: seq<Function<i64>>)
    ensures StatementCount(functions) == Statements(functions)
  {
    if functions != [] {
      var n := |functions| - 1;
      StatementsAgree(functions[..n]);
      StatementsLast(functions);
    }
  }

  lemma {:induction false} StatementsLast(functions: seq<Function<i64>>)
    requires functions != []
    ensures Statements(functions) == Statements(functions[..|functions| - 1]) + |functions[|functions| - 1].body|
  {
    var n := |functions| - 1;
    if n > 0 {
      StatementsLast(functions[1..]);
      assert functions[1..][..n - 1] == functions[..n][1..];
    }
  }

  lemma SignaturesKnown(p: Program)
    requires Distinct(FunctionNames(p.functions))
    ensures Known(p, SignaturesOf(p.functions))
  {
    forall i | 0 <= i < |p.functions|
      ensures p.functions[i].name in SignaturesOf(p.functions)
      ensures SignaturesOf(p.functions)[p.functions[i].name] == SignatureOf(p.functions[i])
    {
      SignatureLookup(p.functions, i);
    }
    forall name | name in SignaturesOf(p.functions) ensures exists i :: 0 <= i < |p.functions| && p.functions[i].name == name {
      SignatureNames(p.functions, name);
    }
  }

  lemma EntryAgrees(p: Program, sigs: Signatures)
    requires Known(p, sigs)
    ensures EntryErrors(sigs) == 0 <==>
            exists i :: 0 <= i < |p.functions| && p.functions[i].name == "main" && p.functions[i].parameters == []
  {
    if "main" in sigs {
      var i :| 0 <= i < |p.functions| && p.functions[i].name == "main";
      assert |sigs["main"].parameters| == |p.functions[i].parameters|;
    }
  }

  /** Without recursion aside: the checker reports nothing exactly if the module is in order. */
  lemma ModuleAgrees(p: Program)
    ensures StaticErrors(p) == 0 <==> ModuleRule(p)
  {
    hide StaticErrors, FunctionRule, DeclarationFree, EntryErrors, Known, SignaturesOf, StatementCount, Statements;
    NoErrors(p);
    StatementsAgree(p.functions);
    var sigs := SignaturesOf(p.functions);
    NamesDistinct(p.functions);
    if Distinct(FunctionNames(p.functions)) {
      SignaturesKnown(p);
      EntryAgrees(p, sigs);
      forall i | 0 <= i < |p.functions| ensures DeclarationFree(p, i) <==> FunctionRule(p, p.functions[i]) {
        DeclarationAgrees(p, i);
      }
    }
  }

  lemma NamesDistinct(functions: seq<Function<i64>>)
    ensures Distinct(FunctionNames(functions)) <==> forall i, j :: 0 <= i < j < |functions| ==> functions[i].name != functions[j].name
  {
  }

  lemma DeclarationAgrees(p: Program, i: nat)
    requires i < |p.functions| && Known(p, SignaturesOf(p.functions))
    ensures DeclarationFree(p, i) <==> FunctionRule(p, p.functions[i])
  {
    hide FunctionRule, Known, SignaturesOf, InformationShape, Repeats, CheckFunction, LinearProfile;
    FunctionAgrees(p, p.functions[i], SignaturesOf(p.functions));
  }

  // ---------- recursion ----------

  lemma {:induction false} CalleesAreMentioned(sigs: Signatures, e: Expression<i64>, name: string)
    ensures name in CalleesOf(sigs, e) <==> name in sigs && Mentions(e, name)
    decreases e, 1
  {
    match e
    case Unary(_, operand) => CalleesAreMentioned(sigs, operand, name);
    case Binary(_, left, right) =>
      CalleesAreMentioned(sigs, left, name);
      CalleesAreMentioned(sigs, right, name);
    case Call(_, arguments) => AllCalleesAreMentioned(sigs, arguments, name);
    case _ =>
  }

  lemma {:induction false} AllCalleesAreMentioned(sigs: Signatures, es: seq<Expression<i64>>, name: string)
    ensures name in CalleesOfAll(sigs, es) <==> name in sigs && exists i :: 0 <= i < |es| && Mentions(es[i], name)
    decreases es, 0
  {
    if es != [] {
      CalleesAreMentioned(sigs, es[0], name);
      AllCalleesAreMentioned(sigs, es[1..], name);
      hide CalleesOf, Mentions;
      assert forall i :: 0 < i < |es| ==> es[i] == es[1..][i - 1];
      assert forall i :: 0 <= i < |es| - 1 ==> es[1..][i] == es[i + 1];
    }
  }

  lemma StatementCallees(sigs: Signatures, s: Statement<i64>, name: string)
    ensures name in CalleesOfStatement(sigs, s) <==> name in sigs && StatementMentions(s, name)
  {
    match s
    case LetStatement(_, _, _, value) => CalleesAreMentioned(sigs, value, name);
    case ReturnStatement(None) =>
    case ReturnStatement(Some(e)) => CalleesAreMentioned(sigs, e, name);
    case RequestStatement(_, _, _, arguments) => AllCalleesAreMentioned(sigs, arguments, name);
    case ExpressionStatement(e) => CalleesAreMentioned(sigs, e, name);
  }

  lemma {:induction false} BodyCallees(sigs: Signatures, body: seq<Statement<i64>>, name: string)
    ensures name in CalleesOfBody(sigs, body) <==> name in sigs && exists k :: 0 <= k < |body| && StatementMentions(body[k], name)
    decreases |body|
  {
    if body != [] {
      StatementCallees(sigs, body[0], name);
      BodyCallees(sigs, body[1..], name);
      hide CalleesOfStatement, StatementMentions;
      assert forall k :: 0 < k < |body| ==> body[k] == body[1..][k - 1];
      assert forall k :: 0 <= k < |body| - 1 ==> body[1..][k] == body[k + 1];
    }
  }

  lemma {:induction false} CallersAreFunctions(sigs: Signatures, functions: seq<Function<i64>>, name: string)
    ensures name in CallsByName(sigs, functions) ==> name in FunctionIndexes(functions)
  {
    if functions != [] {
      CallersAreFunctions(sigs, functions[..|functions| - 1], name);
    }
  }

  lemma CallsAgree(p: Program, a: nat, b: nat)
    requires Distinct(FunctionNames(p.functions)) && a < |p.functions| && b < |p.functions|
    ensures Edge(CallsByName(SignaturesOf(p.functions), p.functions), p.functions[a].name, p.functions[b].name) <==> Calls(p, a, b)
  {
    var sigs := SignaturesOf(p.functions);
    CallsLookup(sigs, p.functions, a);
    SignatureLookup(p.functions, b);
    BodyCallees(sigs, p.functions[a].body, p.functions[b].name);
  }

  function IndexesAlong(p: Program, names: seq<string>): (q: seq<nat>)
    ensures |q| == |names|
    ensures forall i :: 0 <= i < |q| ==> q[i] == if names[i] in FunctionIndexes(p.functions) then FunctionIndexes(p.functions)[names[i]] else 0
  {
    seq(|names|, i requires 0 <= i < |names| => if names[i] in FunctionIndexes(p.functions) then FunctionIndexes(p.functions)[names[i]] else 0)
  }

  /** A cycle of names is a circle of functions. */
  lemma CycleIsCircle(p: Program, names: seq<string>)
    requires Distinct(FunctionNames(p.functions)) && IsCycle(CallsByName(SignaturesOf(p.functions), p.functions), names)
    ensures CallCircle(p, IndexesAlong(p, names))
  {
    var g, q := CallsByName(SignaturesOf(p.functions), p.functions), IndexesAlong(p, names);
    forall i | 0 <= i < |names| - 1 ensures names[i] in FunctionIndexes(p.functions) {
      assert Edge(g, names[i], names[i + 1]);
      CallersAreFunctions(SignaturesOf(p.functions), p.functions, names[i]);
    }
    assert names[|names| - 1] == names[0];
    hide Calls, CallsByName, SignaturesOf;
    forall i | 0 <= i < |q| - 1 ensures Calls(p, q[i], q[i + 1]) {
      assert Edge(g, names[i], names[i + 1]);
      CallsAgree(p, q[i], q[i + 1]);
    }
  }

  /** A circle of functions is a cycle of names. */
  lemma CircleIsCycle(p: Program, q: seq<nat>)
    requires Distinct(FunctionNames(p.functions)) && CallCircle(p, q)
    ensures IsCycle(CallsByName(SignaturesOf(p.functions), p.functions), NamesAlong(p, q))
  {
    hide CallsByName, SignaturesOf;
    var names := NamesAlong(p, q);
    forall i | 0 <= i < |names| - 1
      ensures Edge(CallsByName(SignaturesOf(p.functions), p.functions), names[i], names[i + 1])
    {
      assert Calls(p, q[i], q[i + 1]);
      CallsAgree(p, q[i], q[i + 1]);
    }
  }

  /**
   * The checker accepts exactly the modules that the rules allow and in which no functions call each
   * other in a circle.
   */
  lemma CheckMeetsRules(p: Program)
    ensures CheckAccepts(p) <==> ModuleRule(p) && NoRecursion(p)
  {
    ModuleAgrees(p);
    if ModuleRule(p) {
      NamesDistinct(p.functions);
      hide StaticErrors, CallsByName, SignaturesOf, FunctionRule, CallCircle, IsCycle;
      var g := CallsByName(SignaturesOf(p.functions), p.functions);
      if NoRecursion(p) {
        forall names ensures !IsCycle(g, names) {
          if IsCycle(g, names) {
            CycleIsCircle(p, names);
          }
        }
      }
      if Acyclic(g) {
        forall q ensures !CallCircle(p, q) {
          if CallCircle(p, q) {
            CircleIsCycle(p, q);
          }
        }
      }
    }
  }
}
