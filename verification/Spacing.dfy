// Printed programs are well spaced, so that scanning their text gives back the
// tokens they were printed from.
module Spacing {
  import opened Prelude
  import opened Ast
  import opened Verifier
  import opened CanonicalShape
  import opened Tokens
  import opened Layout
  import opened Grammar
  import opened Printer
  import opened ExpressionRoundTrip

  // ---------- programs that have a source text ----------

  predicate PrintableLabel(information: Option<Label>) {
    information.Some? && information.value.Secret? ==> IsName(information.value.tenant) && IsName(information.value.purpose)
  }

  predicate PrintableExpression(e: Expression<i64>)
    decreases e, 1
  {
    match e
    case Integer(n) => n >= 0
    case Boolean(_) => true
    case Text(text) => AllDenotable(text)
    case Variable(name) => IsName(name)
    case Unary(_, operand) => PrintableExpression(operand)
    case Binary(_, left, right) => PrintableExpression(left) && PrintableExpression(right)
    case Call(callee, arguments) => IsName(callee) && PrintableExpressions(arguments)
  }

  predicate PrintableExpressions(es: seq<Expression<i64>>)
    decreases es, 0
  {
    es == [] || (PrintableExpression(es[0]) && PrintableExpressions(es[1..]))
  }

  predicate PrintableStatement(s: Statement<i64>) {
    match s
    case LetStatement(name, _, information, value) =>
      IsName(name) && PrintableLabel(information) && PrintableExpression(value)
    case ReturnStatement(None) => true
    case ReturnStatement(Some(e)) => PrintableExpression(e)
    case RequestStatement(effect, authority, information, arguments) =>
      IsName(effect) && (authority.Some? ==> IsName(authority.value)) && PrintableLabel(information)
      && PrintableExpressions(arguments)
    case ExpressionStatement(e) => PrintableExpression(e)
  }

  predicate PrintableParameter(p: Parameter) {
    IsName(p.name) && PrintableLabel(p.information)
  }

  predicate PrintableAuthority(a: Authority) {
    IsName(a.name) && IsName(a.effect)
  }

  predicate PrintableFunction(f: Function<i64>) {
    && IsName(f.name)
    && (forall i :: 0 <= i < |f.parameters| ==> PrintableParameter(f.parameters[i]))
    && PrintableLabel(f.returnInformation)
    && (forall i :: 0 <= i < |f.effects| ==> IsName(f.effects[i]))
    && (f.authorities.Some? ==> forall i :: 0 <= i < |f.authorities.value| ==> PrintableAuthority(f.authorities.value[i]))
    && (forall i :: 0 <= i < |f.body| ==> PrintableStatement(f.body[i]))
  }

  /** Every name is a name, every literal can be written, and there is at least one function. */
  predicate Printable(p: Program) {
    && IsName(p.moduleName)
    && p.functions != []
    && forall i :: 0 <= i < |p.functions| ==> PrintableFunction(p.functions[i])
  }

  // ---------- a printable program is named ----------

  lemma {:induction false} PrintableIsNamed(e: Expression<i64>)
    requires PrintableExpression(e)
    ensures ExpressionNamed(e)
    decreases e, 1
  {
    match e
    case Unary(_, operand) => PrintableIsNamed(operand);
    case Binary(_, left, right) =>
      PrintableIsNamed(left);
      PrintableIsNamed(right);
    case Call(_, arguments) => PrintablesAreNamed(arguments);
    case _ =>
  }

  lemma {:induction false} PrintablesAreNamed(es: seq<Expression<i64>>)
    requires PrintableExpressions(es)
    ensures ExpressionsNamed(es)
    decreases es, 0
  {
    if es != [] {
      PrintableIsNamed(es[0]);
      PrintablesAreNamed(es[1..]);
    }
  }

  lemma StatementIsNamed(s: Statement<i64>)
    requires PrintableStatement(s)
    ensures StatementNames(s)
  {
    match s
    case LetStatement(_, _, _, e) => PrintableIsNamed(e);
    case ReturnStatement(None) =>
    case ReturnStatement(Some(e)) => PrintableIsNamed(e);
    case RequestStatement(_, _, _, arguments) => PrintablesAreNamed(arguments);
    case ExpressionStatement(e) => PrintableIsNamed(e);
  }

  lemma FunctionIsNamed(f: Function<i64>)
    requires PrintableFunction(f)
    ensures FunctionNamed(f)
  {
    forall k | 0 <= k < |f.body| ensures StatementNames(f.body[k]) {
      StatementIsNamed(f.body[k]);
    }
  }

  /** Programs that have a source text have identifiers for names. */
  lemma PrintableNames(p: Program)
    requires Printable(p)
    ensures Named(p)
  {
    forall j | 0 <= j < |p.functions| ensures FunctionNamed(p.functions[j]) {
      FunctionIsNamed(p.functions[j]);
    }
  }

  // ---------- joining ----------

  /** A piece that may follow anything. */
  predicate Detached(p: Piece) {
    p.blank != [] || (!IsWordy(p.token) && !Extends(p.token))
  }

  lemma JoinDetached(a: seq<Piece>, b: seq<Piece>)
    requires WellSpaced(a) && WellSpaced(b) && (b != [] ==> Detached(b[0]))
    ensures WellSpaced(a + b)
  {
    WellSpacedAppend(a, b);
  }

  lemma JoinAfterSymbol(a: seq<Piece>, b: seq<Piece>)
    requires WellSpaced(a) && WellSpaced(b)
    requires a != [] && !IsWordy(a[|a| - 1].token) && (b != [] ==> !Extends(b[0].token))
    ensures WellSpaced(a + b)
  {
    WellSpacedAppend(a, b);
  }

  lemma JoinOne(a: seq<Piece>, p: Piece)
    requires WellSpaced(a) && PieceOk(p) && Detached(p)
    ensures WellSpaced(a + [p])
  {
    WellSpacedAppend(a, [p]);
  }

  lemma Separated(a: seq<Piece>, p: Piece, b: seq<Piece>)
    requires WellSpaced(a) && WellSpaced(b) && PieceOk(p) && Detached(p) && (b != [] ==> Detached(b[0]))
    ensures WellSpaced(a + [p] + b)
  {
    JoinOne(a, p);
    JoinDetached(a + [p], b);
  }

  lemma Enclosed(a: seq<Piece>, b: seq<Piece>, p: Piece)
    requires WellSpaced(a) && WellSpaced(b) && PieceOk(p) && Detached(p)
    requires a != [] && !IsWordy(a[|a| - 1].token) && (b != [] ==> !Extends(b[0].token))
    ensures WellSpaced(a + b + [p])
  {
    JoinAfterSymbol(a, b);
    JoinOne(a + b, p);
  }

  lemma NothingSpaced()
    ensures WellSpaced([])
  {
  }

  lemma Single(a: Piece)
    requires PieceOk(a)
    ensures WellSpaced([a])
  {
  }

  lemma Quad(a: Piece, b: Piece, c: Piece, d: Piece)
    requires PieceOk(a) && PieceOk(b) && PieceOk(c) && PieceOk(d)
    requires MayFollow(a.token, b) && MayFollow(b.token, c) && MayFollow(c.token, d)
    ensures WellSpaced([a, b, c, d])
  {
  }

  lemma Pair(a: Piece, b: Piece)
    requires PieceOk(a) && PieceOk(b) && MayFollow(a.token, b)
    ensures WellSpaced([a, b])
  {
  }

  lemma Triple(a: Piece, b: Piece, c: Piece)
    requires PieceOk(a) && PieceOk(b) && PieceOk(c) && MayFollow(a.token, b) && MayFollow(b.token, c)
    ensures WellSpaced([a, b, c])
  {
  }

  // ---------- expressions ----------

  lemma {:induction false} ExpressionSpaced(e: Expression<i64>, parent: nat, lead: string)
    requires PrintableExpression(e) && IsBlank(lead)
    ensures WellSpaced(ExpressionPieces(e, parent, lead))
    decreases e, 3
  {
    hide WellSpaced, BarePieces;
    if Precedence(e) < parent {
      BareSpaced(e, "");
      ExpressionBegins(e, 0, "");
      Single(Piece(lead, LeftParen));
      Enclosed([Piece(lead, LeftParen)], BarePieces(e, ""), Close(RightParen));
    } else {
      BareSpaced(e, lead);
    }
  }

  lemma {:induction false} BareSpaced(e: Expression<i64>, lead: string)
    requires PrintableExpression(e) && IsBlank(lead)
    ensures WellSpaced(BarePieces(e, lead))
    decreases e, 2, 1
  {
    if e.Unary? {
      UnarySpaced(e, lead);
    } else if e.Binary? {
      BinarySpaced(e, lead);
    } else if e.Call? {
      CallSpaced(e, lead);
    } else {
      assert BarePieces(e, lead) == [Piece(lead, LeafToken(e))];
    }
  }

  lemma {:induction false} UnarySpaced(e: Expression<i64>, lead: string)
    requires e.Unary? && PrintableExpression(e) && IsBlank(lead)
    ensures WellSpaced(BarePieces(e, lead))
    decreases e, 2, 0
  {
    var operand := ExpressionPieces(e.operand, UNARY_LEVEL, "");
    ExpressionSpaced(e.operand, UNARY_LEVEL, "");
    ExpressionBegins(e.operand, UNARY_LEVEL, "");
    JoinAfterSymbol([Piece(lead, UnaryToken(e.unop))], operand);
  }

  lemma OperatorDetached(op: BinaryOperator)
    ensures PieceOk(Spaced(OperatorToken(op))) && Detached(Spaced(OperatorToken(op))) && IsBlank(" ")
  {
  }

  lemma {:induction false} BinarySpaced(e: Expression<i64>, lead: string)
    requires e.Binary? && PrintableExpression(e) && IsBlank(lead)
    ensures WellSpaced(BarePieces(e, lead))
    decreases e, 2, 0
  {
    var level := OperatorLevel(e.binop);
    var left, right := ExpressionPieces(e.left, level, lead), ExpressionPieces(e.right, level + 1, " ");
    ExpressionSpaced(e.left, level, lead);
    ExpressionSpaced(e.right, level + 1, " ");
    OperatorDetached(e.binop);
    Separated(left, Spaced(OperatorToken(e.binop)), right);
  }

  lemma {:induction false} CallSpaced(e: Expression<i64>, lead: string)
    requires e.Call? && PrintableExpression(e) && IsBlank(lead)
    ensures WellSpaced(BarePieces(e, lead))
    decreases e, 2, 0
  {
    var name, arguments := Piece(lead, Identifier(e.callee)), ArgumentPieces(e.arguments, "");
    ArgumentsSpaced(e.arguments, "");
    Pair(name, Close(LeftParen));
    Enclosed([name, Close(LeftParen)], arguments, Close(RightParen));
  }

  lemma {:induction false} ArgumentsSpaced(es: seq<Expression<i64>>, lead: string)
    requires PrintableExpressions(es) && IsBlank(lead)
    ensures WellSpaced(ArgumentPieces(es, lead))
    ensures es != [] ==> ArgumentPieces(es, lead) != [] && !Extends(ArgumentPieces(es, lead)[0].token)
    ensures es != [] ==> ArgumentPieces(es, lead)[0].blank == lead
    decreases es, 1
  {
    hide WellSpaced, ExpressionPieces;
    if es == [] {
      NothingSpaced();
    } else {
      ExpressionSpaced(es[0], 0, lead);
      ExpressionBegins(es[0], 0, lead);
      if |es| > 1 {
        ArgumentsSpaced(es[1..], " ");
        Separated(ExpressionPieces(es[0], 0, lead), Close(Comma), ArgumentPieces(es[1..], " "));
      }
    }
  }

  // ---------- declarations ----------

  lemma FlowIsName()
    ensures IsName("flow")
  {
    assert "flow"[1] == 'l';
  }

  lemma ClassesAreNames()
    ensures IsName("public") && IsName("secret")
  {
    assert "public"[0] == 'p' && "secret"[0] == 's' && "secret"[1] == 'e';
  }

  lemma FieldsAreNames()
    ensures IsName("tenant") && IsName("purpose")
  {
    assert "tenant"[1] == 'e' && "purpose"[0] == 'p';
  }

  lemma ClausesAreNames()
    ensures IsName("authorities") && IsName("using")
  {
    assert "authorities"[0] == 'a' && "using"[1] == 's';
  }

  lemma PublicSpaced()
    ensures WellSpaced(LabelPieces(Some(Public)))
  {
    FlowIsName();
    ClassesAreNames();
    hide WellSpaced, IsName;
    Pair(Spaced(Identifier("flow")), Spaced(LeftBracket));
    Pair(Close(Identifier("public")), Close(RightBracket));
    JoinAfterSymbol([Spaced(Identifier("flow")), Spaced(LeftBracket)], [Close(Identifier("public")), Close(RightBracket)]);
    assert LabelPieces(Some(Public)) ==
           [Spaced(Identifier("flow")), Spaced(LeftBracket)] + [Close(Identifier("public")), Close(RightBracket)];
  }

  lemma SecretSplits(tenant: string, purpose: string)
    ensures LabelPieces(Some(Secret(tenant, purpose))) ==
            [Spaced(Identifier("flow")), Spaced(LeftBracket)] + [Close(Identifier("secret")), Close(Comma)]
            + [Spaced(Identifier("tenant")), Close(Colon)] + [Close(Identifier(tenant)), Close(Comma)]
            + [Spaced(Identifier("purpose")), Close(Colon)] + [Close(Identifier(purpose)), Close(RightBracket)]
  {
  }

  lemma NamePair(blank: string, name: string, symbol: Token)
    requires IsName(name) && IsBlank(blank) && (symbol.Comma? || symbol.Colon? || symbol.RightBracket?)
    ensures IsPair([Piece(blank, Identifier(name)), Close(symbol)])
  {
    Pair(Piece(blank, Identifier(name)), Close(symbol));
  }

  lemma SecretShape(flow: string, secret: string, owner: string, tenant: string, use: string, purpose: string)
    requires IsName(flow) && IsName(secret) && IsName(owner) && IsName(tenant) && IsName(use) && IsName(purpose)
    ensures WellSpaced([Spaced(Identifier(flow)), Spaced(LeftBracket)] + [Close(Identifier(secret)), Close(Comma)]
                       + [Spaced(Identifier(owner)), Close(Colon)] + [Close(Identifier(tenant)), Close(Comma)]
                       + [Spaced(Identifier(use)), Close(Colon)] + [Close(Identifier(purpose)), Close(RightBracket)])
  {
    hide WellSpaced, IsName;
    Pair(Spaced(Identifier(flow)), Spaced(LeftBracket));
    NamePair("", secret, Comma);
    NamePair(" ", owner, Colon);
    NamePair("", tenant, Comma);
    NamePair(" ", use, Colon);
    NamePair("", purpose, RightBracket);
    SixPairs([Spaced(Identifier(flow)), Spaced(LeftBracket)], [Close(Identifier(secret)), Close(Comma)],
             [Spaced(Identifier(owner)), Close(Colon)], [Close(Identifier(tenant)), Close(Comma)],
             [Spaced(Identifier(use)), Close(Colon)], [Close(Identifier(purpose)), Close(RightBracket)]);
  }

  lemma SecretSpaced(tenant: string, purpose: string)
    requires IsName(tenant) && IsName(purpose)
    ensures WellSpaced(LabelPieces(Some(Secret(tenant, purpose))))
  {
    FlowIsName();
    ClassesAreNames();
    FieldsAreNames();
    SecretShape("flow", "secret", "tenant", tenant, "purpose", purpose);
    SecretSplits(tenant, purpose);
  }

  predicate IsPair(ps: seq<Piece>) {
    |ps| == 2 && WellSpaced(ps) && !IsWordy(ps[1].token) && !Extends(ps[0].token)
  }

  lemma SixPairs(a: seq<Piece>, b: seq<Piece>, c: seq<Piece>, d: seq<Piece>, e: seq<Piece>, f: seq<Piece>)
    requires IsPair(a) && IsPair(b) && IsPair(c) && IsPair(d) && IsPair(e) && IsPair(f)
    ensures WellSpaced(a + b + c + d + e + f)
  {
    JoinAfterSymbol(a, b);
    JoinAfterSymbol(a + b, c);
    JoinAfterSymbol(a + b + c, d);
    JoinAfterSymbol(a + b + c + d, e);
    JoinAfterSymbol(a + b + c + d + e, f);
  }

  lemma LabelSpaced(information: Option<Label>)
    requires PrintableLabel(information)
    ensures WellSpaced(LabelPieces(information))
    ensures LabelPieces(information) != [] ==> Detached(LabelPieces(information)[0])
  {
    if information.Some? {
      if information.value.Public? {
        PublicSpaced();
      } else {
        SecretSpaced(information.value.tenant, information.value.purpose);
      }
    }
  }

  lemma ParameterSpaced(p: Parameter, lead: string)
    requires PrintableParameter(p) && IsBlank(lead)
    ensures WellSpaced(ParameterPieces(p, lead))
  {
    LabelSpaced(p.information);
    JoinDetached([Piece(lead, Identifier(p.name)), Close(Colon), Spaced(TypeToken(p.valueType))], LabelPieces(p.information));
  }

  lemma {:induction false} ParameterListSpaced(ps: seq<Parameter>, lead: string)
    requires (forall i :: 0 <= i < |ps| ==> PrintableParameter(ps[i])) && IsBlank(lead)
    ensures WellSpaced(ParameterListPieces(ps, lead))
    ensures ps != [] ==> ParameterListPieces(ps, lead) != [] && ParameterListPieces(ps, lead)[0] == Piece(lead, Identifier(ps[0].name))
    decreases |ps|
  {
    hide WellSpaced, PrintableParameter;
    if ps == [] {
      NothingSpaced();
    } else {
      ParameterSpaced(ps[0], lead);
      if |ps| > 1 {
        ParameterListSpaced(ps[1..], " ");
        Separated(ParameterPieces(ps[0], lead), Close(Comma), ParameterListPieces(ps[1..], " "));
      }
    }
  }

  lemma {:induction false} NameListSpaced(names: seq<string>, lead: string)
    requires (forall i :: 0 <= i < |names| ==> IsName(names[i])) && IsBlank(lead)
    ensures WellSpaced(NameListPieces(names, lead))
    ensures names != [] ==> NameListPieces(names, lead) != [] && NameListPieces(names, lead)[0] == Piece(lead, Identifier(names[0]))
    decreases |names|
  {
    if |names| > 1 {
      NameListSpaced(names[1..], " ");
      JoinDetached([Piece(lead, Identifier(names[0])), Close(Comma)], NameListPieces(names[1..], " "));
    }
  }

  lemma AuthoritySpaced(a: Authority, lead: string)
    requires PrintableAuthority(a) && IsBlank(lead)
    ensures WellSpaced(AuthorityPieces(a, lead))
  {
    Triple(Piece(lead, Identifier(a.name)), Close(Colon), Spaced(Identifier(a.effect)));
  }

  lemma {:induction false} AuthorityListSpaced(items: seq<Authority>, lead: string)
    requires (forall i :: 0 <= i < |items| ==> PrintableAuthority(items[i])) && IsBlank(lead)
    ensures WellSpaced(AuthorityListPieces(items, lead))
    ensures items != [] ==>
              AuthorityListPieces(items, lead) != [] && AuthorityListPieces(items, lead)[0] == Piece(lead, Identifier(items[0].name))
    decreases |items|
  {
    hide WellSpaced, PrintableAuthority;
    if items == [] {
      NothingSpaced();
    } else {
      AuthoritySpaced(items[0], lead);
      if |items| > 1 {
        AuthorityListSpaced(items[1..], " ");
        Separated(AuthorityPieces(items[0], lead), Close(Comma), AuthorityListPieces(items[1..], " "));
      }
    }
  }

  lemma AuthoritiesSpaced(authorities: Option<seq<Authority>>)
    requires authorities.Some? ==> forall i :: 0 <= i < |authorities.value| ==> PrintableAuthority(authorities.value[i])
    ensures WellSpaced(AuthoritiesPieces(authorities))
    ensures AuthoritiesPieces(authorities) != [] ==> Detached(AuthoritiesPieces(authorities)[0])
  {
    if authorities.Some? {
      var items := authorities.value;
      ClausesAreNames();
      var head := [Spaced(Identifier("authorities")), Spaced(LeftBracket)];
      Pair(head[0], head[1]);
      AuthorityListSpaced(items, "");
      JoinAfterSymbol(head, AuthorityListPieces(items, ""));
      JoinOne(head + AuthorityListPieces(items, ""), Close(RightBracket));
    }
  }

  // ---------- statements ----------

  lemma LetSpaced(s: Statement<i64>, lead: string)
    requires s.LetStatement? && PrintableStatement(s) && IsBlank(lead)
    ensures WellSpaced(LetPieces(s, lead))
  {
    hide WellSpaced, LabelPieces, ExpressionPieces, IsName;
    var head := [Piece(lead, KwLet), Spaced(Identifier(s.name)), Close(Colon), Spaced(TypeToken(s.valueType))];
    Quad(Piece(lead, KwLet), Spaced(Identifier(s.name)), Close(Colon), Spaced(TypeToken(s.valueType)));
    LabelSpaced(s.information);
    ExpressionSpaced(s.value, 0, " ");
    JoinDetached(head, LabelPieces(s.information));
    Separated(head + LabelPieces(s.information), Spaced(Assign), ExpressionPieces(s.value, 0, " "));
    JoinOne(head + LabelPieces(s.information) + [Spaced(Assign)] + ExpressionPieces(s.value, 0, " "), Close(Semicolon));
  }

  lemma UsingSpaced(authority: Option<string>)
    requires authority.Some? ==> IsName(authority.value)
    ensures WellSpaced(UsingPieces(authority))
    ensures UsingPieces(authority) != [] ==> Detached(UsingPieces(authority)[0])
  {
    if authority.Some? {
      ClausesAreNames();
      Pair(Spaced(Identifier("using")), Spaced(Identifier(authority.value)));
    }
  }

  function RequestCall(s: Statement<i64>, lead: string): seq<Piece>
    requires s.RequestStatement?
  {
    [Piece(lead, KwRequest), Spaced(Identifier(s.effect)), Close(LeftParen)] + ArgumentPieces(s.arguments, "") + [Close(RightParen)]
  }

  lemma RequestCallSpaced(s: Statement<i64>, lead: string)
    requires s.RequestStatement? && PrintableStatement(s) && IsBlank(lead)
    ensures WellSpaced(RequestCall(s, lead))
  {
    var head := [Piece(lead, KwRequest), Spaced(Identifier(s.effect)), Close(LeftParen)];
    Triple(head[0], head[1], head[2]);
    ArgumentsSpaced(s.arguments, "");
    JoinAfterSymbol(head, ArgumentPieces(s.arguments, ""));
    JoinOne(head + ArgumentPieces(s.arguments, ""), Close(RightParen));
  }

  lemma RequestSpaced(s: Statement<i64>, lead: string)
    requires s.RequestStatement? && PrintableStatement(s) && IsBlank(lead)
    ensures WellSpaced(RequestPieces(s, lead))
  {
    var call := RequestCall(s, lead);
    RequestCallSpaced(s, lead);
    UsingSpaced(s.authority);
    LabelSpaced(s.information);
    JoinDetached(call, UsingPieces(s.authority));
    JoinDetached(call + UsingPieces(s.authority), LabelPieces(s.information));
    JoinOne(call + UsingPieces(s.authority) + LabelPieces(s.information), Close(Semicolon));
  }

  lemma StatementSpaced(s: Statement<i64>, lead: string)
    requires PrintableStatement(s) && IsBlank(lead)
    ensures WellSpaced(StatementPieces(s, lead))
    ensures StatementPieces(s, lead) != [] && StatementPieces(s, lead)[0].blank == lead
  {
    match s
    case LetStatement(_, _, _, _) => LetSpaced(s, lead);
    case ReturnStatement(None) =>
    case ReturnStatement(Some(e)) =>
      ExpressionSpaced(e, 0, " ");
      JoinDetached([Piece(lead, KwReturn)], ExpressionPieces(e, 0, " "));
      JoinOne([Piece(lead, KwReturn)] + ExpressionPieces(e, 0, " "), Close(Semicolon));
    case RequestStatement(_, _, _, _) => RequestSpaced(s, lead);
    case ExpressionStatement(e) =>
      ExpressionSpaced(e, 0, lead);
      JoinOne(ExpressionPieces(e, 0, lead), Close(Semicolon));
  }

  lemma BlankLiterals()
    ensures IsBlank("\n  ") && IsBlank("\n\n") && IsBlank("\n") && IsBlank(" ") && IsBlank("")
  {
  }

  lemma {:induction false} BodySpaced(body: seq<Statement<i64>>)
    requires forall i :: 0 <= i < |body| ==> PrintableStatement(body[i])
    ensures WellSpaced(BodyPieces(body))
    ensures body != [] ==> BodyPieces(body) != [] && BodyPieces(body)[0].blank == "\n  "
  {
    if body != [] {
      BlankLiterals();
      StatementSpaced(body[0], "\n  ");
      BodySpaced(body[1..]);
      JoinDetached(StatementPieces(body[0], "\n  "), BodyPieces(body[1..]));
    }
  }

  // ---------- functions and programs ----------

  lemma SignatureSpaced(f: Function<i64>)
    requires PrintableFunction(f)
    ensures WellSpaced(SignaturePieces(f)) && SignaturePieces(f)[0].blank == "\n\n"
  {
    hide WellSpaced, LabelPieces, PrintableParameter, PrintableStatement, PrintableAuthority;
    var head := [Piece("\n\n", KwFn), Spaced(Identifier(f.name)), Close(LeftParen)];
    var list := ParameterListPieces(f.parameters, "");
    var middle := [Close(RightParen), Spaced(Arrow), Spaced(TypeToken(f.returnType))];
    BlankLiterals();
    Triple(Piece("\n\n", KwFn), Spaced(Identifier(f.name)), Close(LeftParen));
    Triple(Close(RightParen), Spaced(Arrow), Spaced(TypeToken(f.returnType)));
    ParameterListSpaced(f.parameters, "");
    LabelSpaced(f.returnInformation);
    JoinAfterSymbol(head, list);
    JoinDetached(head + list, middle);
    JoinDetached(head + list + middle, LabelPieces(f.returnInformation));
  }

  lemma RowsSpaced(f: Function<i64>)
    requires PrintableFunction(f)
    ensures WellSpaced(RowsPieces(f)) && Detached(RowsPieces(f)[0])
  {
    hide WellSpaced;
    var head := [Spaced(KwEffects), Spaced(LeftBracket)];
    var list := NameListPieces(f.effects, "");
    Pair(Spaced(KwEffects), Spaced(LeftBracket));
    NameListSpaced(f.effects, "");
    AuthoritiesSpaced(f.authorities);
    JoinAfterSymbol(head, list);
    JoinOne(head + list, Close(RightBracket));
    JoinDetached(head + list + [Close(RightBracket)], AuthoritiesPieces(f.authorities));
  }

  lemma FunctionSpaced(f: Function<i64>)
    requires PrintableFunction(f)
    ensures WellSpaced(FunctionPieces(f)) && FunctionPieces(f) != [] && FunctionPieces(f)[0].blank == "\n\n"
  {
    hide WellSpaced, PrintableParameter, PrintableStatement, PrintableAuthority, RowsPieces;
    BlankLiterals();
    SignatureSpaced(f);
    RowsSpaced(f);
    BodySpaced(f.body);
    JoinDetached(SignaturePieces(f), RowsPieces(f));
    Separated(SignaturePieces(f) + RowsPieces(f), Spaced(LeftBrace), BodyPieces(f.body));
    JoinOne(SignaturePieces(f) + RowsPieces(f) + [Spaced(LeftBrace)] + BodyPieces(f.body), Piece("\n", RightBrace));
  }

  lemma {:induction false} FunctionsSpaced(fs: seq<Function<i64>>)
    requires forall i :: 0 <= i < |fs| ==> PrintableFunction(fs[i])
    ensures WellSpaced(FunctionsPieces(fs))
    ensures fs != [] ==> FunctionsPieces(fs) != [] && FunctionsPieces(fs)[0].blank == "\n\n"
  {
    if fs != [] {
      FunctionSpaced(fs[0]);
      FunctionsSpaced(fs[1..]);
      JoinDetached(FunctionPieces(fs[0]), FunctionsPieces(fs[1..]));
    }
  }

  lemma HeaderSpaced(p: Program)
    requires IsName(p.moduleName)
    ensures WellSpaced(HeaderPieces(p))
  {
    var head := [Close(KwModule), Spaced(Identifier(p.moduleName))];
    var profile := if p.informationFlow then [Spaced(Identifier("flow"))] else [];
    FlowIsName();
    Pair(head[0], head[1]);
    JoinDetached(head, profile);
    JoinOne(head + profile, Close(Semicolon));
  }

  /** Scanning the canonical text of a program gives exactly the tokens of its pieces. */
  lemma ScanFormatted(p: Program)
    requires Printable(p)
    ensures Scan(Format(p)) == Some(TokensIn(ProgramPieces(p)))
  {
    HeaderSpaced(p);
    FunctionsSpaced(p.functions);
    JoinDetached(HeaderPieces(p), FunctionsPieces(p.functions));
    BlankLiterals();
    ScanRender(ProgramPieces(p), "\n");
  }
}
