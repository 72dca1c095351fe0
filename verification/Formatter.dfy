// The formatter as it runs: text appended to an output, proved to be the
// rendering of the canonical layout.
module Formatter {
  import opened Prelude
  import opened Ast
  import opened Tokens
  import opened Layout
  import opened Grammar
  import opened Printer
  import opened SyntaxRoundTrip
  import Parser

  // ---------- renderings, part by part ----------

  lemma {:induction false} LeadComesFirst(ps: seq<Piece>, lead: string)
    requires ps != [] && ps[0].blank == lead
    ensures Render(ps) == lead + Render([Close(ps[0].token)] + ps[1..])
  {
    var qs := [Close(ps[0].token)] + ps[1..];
    assert qs[1..] == ps[1..];
    assert lead + Spell(ps[0].token) + Render(ps[1..]) == lead + ("" + Spell(ps[0].token) + Render(ps[1..]));
  }

  lemma {:induction false} ExpressionLead(e: Expression<i64>, parent: nat, lead: string)
    ensures ExpressionPieces(e, parent, "") ==
            [Close(ExpressionPieces(e, parent, lead)[0].token)] + ExpressionPieces(e, parent, lead)[1..]
    decreases e
  {
    if Precedence(e) >= parent && e.Binary? {
      var level := OperatorLevel(e.binop);
      ExpressionLead(e.left, level, lead);
      var tail := [Spaced(OperatorToken(e.binop))] + ExpressionPieces(e.right, level + 1, " ");
      BinaryPieces(e, lead);
      BinaryPieces(e, "");
      var left := ExpressionPieces(e.left, level, lead);
      assert left + tail == [left[0]] + (left[1..] + tail);
      assert ([Close(left[0].token)] + left[1..]) + tail == [Close(left[0].token)] + (left[1..] + tail);
    }
  }

  lemma BinaryPieces(e: Expression<i64>, lead: string)
    requires e.Binary?
    ensures BarePieces(e, lead) ==
            ExpressionPieces(e.left, OperatorLevel(e.binop), lead)
            + ([Spaced(OperatorToken(e.binop))] + ExpressionPieces(e.right, OperatorLevel(e.binop) + 1, " "))
  {
  }

  function ExpressionText(e: Expression<i64>, parent: nat): string {
    Render(ExpressionPieces(e, parent, ""))
  }

  lemma LedExpression(e: Expression<i64>, parent: nat, lead: string)
    ensures Render(ExpressionPieces(e, parent, lead)) == lead + ExpressionText(e, parent)
  {
    ExpressionLead(e, parent, lead);
    LeadComesFirst(ExpressionPieces(e, parent, lead), lead);
  }

  lemma RenderOne(p: Piece)
    ensures Render([p]) == p.blank + Spell(p.token)
  {
    assert [p][1..] == [];
    assert p.blank + Spell(p.token) + Render([]) == p.blank + Spell(p.token);
  }

  lemma Render3(a: seq<Piece>, b: seq<Piece>, c: seq<Piece>)
    ensures Render(a + b + c) == Render(a) + Render(b) + Render(c)
  {
    RenderAppend(a + b, c);
    RenderAppend(a, b);
  }

  lemma ParenthesizedText(e: Expression<i64>, parent: nat)
    requires Precedence(e) < parent
    ensures ExpressionText(e, parent) == "(" + ExpressionText(e, 0) + ")"
  {
    hide Render, BarePieces;
    Render3([Close(LeftParen)], BarePieces(e, ""), [Close(RightParen)]);
    RenderOne(Close(LeftParen));
    RenderOne(Close(RightParen));
  }

  lemma UnaryText(e: Expression<i64>)
    requires e.Unary?
    ensures ExpressionText(e, 0) == (if e.unop.Minus? then "-" else "!") + ExpressionText(e.operand, UNARY_LEVEL)
  {
    assert BarePieces(e, "") == [Close(UnaryToken(e.unop))] + ExpressionPieces(e.operand, UNARY_LEVEL, "");
    RenderAppend([Close(UnaryToken(e.unop))], ExpressionPieces(e.operand, UNARY_LEVEL, ""));
    RenderOne(Close(UnaryToken(e.unop)));
  }

  lemma BinaryText(e: Expression<i64>)
    requires e.Binary?
    ensures var level := OperatorLevel(e.binop);
            ExpressionText(e, 0) ==
            ExpressionText(e.left, level) + (" " + Spell(OperatorToken(e.binop)) + " ") + ExpressionText(e.right, level + 1)
  {
    var level := OperatorLevel(e.binop);
    var op, right := Spaced(OperatorToken(e.binop)), ExpressionPieces(e.right, level + 1, " ");
    BinaryPieces(e, "");
    RenderAppend(ExpressionPieces(e.left, level, ""), [op] + right);
    RenderAppend([op], right);
    RenderOne(op);
    LedExpression(e.right, level + 1, " ");
    Regroup(ExpressionText(e.left, level), " " + Spell(op.token), " ", ExpressionText(e.right, level + 1));
  }

  lemma Regroup(a: string, b: string, c: string, d: string)
    ensures a + (b + (c + d)) == a + (b + c) + d
  {
  }

  function ArgumentsText(es: seq<Expression<i64>>): string {
    Render(ArgumentPieces(es, ""))
  }

  lemma CallText(e: Expression<i64>)
    requires e.Call?
    ensures ExpressionText(e, 0) == e.callee + "(" + ArgumentsText(e.arguments) + ")"
  {
    var head := [Close(Identifier(e.callee)), Close(LeftParen)];
    assert BarePieces(e, "") == head + ArgumentPieces(e.arguments, "") + [Close(RightParen)];
    Render3(head, ArgumentPieces(e.arguments, ""), [Close(RightParen)]);
    assert head == [head[0]] + [head[1]];
    RenderAppend([head[0]], [head[1]]);
    RenderOne(head[0]);
    RenderOne(head[1]);
    RenderOne(Close(RightParen));
  }

  lemma LeafText(e: Expression<i64>)
    requires !e.Unary? && !e.Binary? && !e.Call?
    ensures ExpressionText(e, 0) == Spell(LeafToken(e))
  {
    RenderOne(Close(LeafToken(e)));
    assert BarePieces(e, "") == [Close(LeafToken(e))];
  }

  /** Arguments after the first k, with the separators in front of them. */
  function ArgumentTail(es: seq<Expression<i64>>): string {
    if es == [] then "" else ", " + ExpressionText(es[0], 0) + ArgumentTail(es[1..])
  }

  lemma {:induction false} LedArguments(es: seq<Expression<i64>>, lead: string)
    requires es != []
    ensures Render(ArgumentPieces(es, lead)) == lead + ExpressionText(es[0], 0) + ArgumentTail(es[1..])
    decreases |es|
  {
    LedExpression(es[0], 0, lead);
    if |es| == 1 {
      assert ArgumentTail(es[1..]) == "";
      assert lead + ExpressionText(es[0], 0) + "" == lead + ExpressionText(es[0], 0);
    } else {
      SeparatedArguments(es, lead);
      LedArguments(es[1..], " ");
      CommaSpace(lead + ExpressionText(es[0], 0), ExpressionText(es[1], 0), ArgumentTail(es[1..][1..]));
    }
  }

  lemma SeparatedArguments(es: seq<Expression<i64>>, lead: string)
    requires |es| > 1
    ensures Render(ArgumentPieces(es, lead)) ==
            lead + ExpressionText(es[0], 0) + "," + Render(ArgumentPieces(es[1..], " "))
  {
    hide Render, ExpressionPieces, ExpressionText;
    LedExpression(es[0], 0, lead);
    Render3(ExpressionPieces(es[0], 0, lead), [Close(Comma)], ArgumentPieces(es[1..], " "));
    RenderOne(Close(Comma));
  }

  lemma CommaSpace(a: string, b: string, c: string)
    ensures a + "," + (" " + b + c) == a + (", " + b + c)
  {
    assert "," + (" " + b + c) == ", " + b + c;
  }

  // ---------- lists, labels, statements, functions ----------

  function Tail(texts: seq<string>): string {
    if texts == [] then "" else ", " + texts[0] + Tail(texts[1..])
  }

  /** Texts separated by commas. */
  function Join(texts: seq<string>): string {
    if texts == [] then "" else texts[0] + Tail(texts[1..])
  }

  lemma {:induction false} TailAppend(texts: seq<string>, t: string)
    ensures Tail(texts + [t]) == Tail(texts) + (", " + t)
  {
    if texts == [] {
      assert (texts + [t])[1..] == [];
      assert ", " + t + "" == "" + (", " + t);
    } else {
      assert (texts + [t])[1..] == texts[1..] + [t];
      TailAppend(texts[1..], t);
      Regroup3(", " + texts[0], Tail(texts[1..]), ", " + t, "");
      assert ", " + texts[0] + (Tail(texts[1..]) + (", " + t)) == ", " + texts[0] + Tail(texts[1..]) + (", " + t);
    }
  }

  lemma JoinStep(texts: seq<string>, k: nat, before: string)
    requires k < |texts|
    ensures before + Join(texts[..k + 1]) == (if k > 0 then before + Join(texts[..k]) + ", " else before + Join(texts[..k])) + texts[k]
  {
    var prefix := texts[..k];
    assert texts[..k + 1] == prefix + [texts[k]];
    if k == 0 {
      assert prefix == [];
      assert (prefix + [texts[k]])[1..] == [];
      assert before + "" == before && texts[k] + "" == texts[k];
    } else {
      assert (prefix + [texts[k]])[1..] == prefix[1..] + [texts[k]];
      TailAppend(prefix[1..], texts[k]);
      JoinRegroups(before, prefix[0], Tail(prefix[1..]), texts[k]);
    }
  }

  lemma JoinRegroups(a: string, b: string, c: string, d: string)
    ensures a + (b + (c + (", " + d))) == a + (b + c) + ", " + d
  {
  }

  lemma JoinFirst(t: string, more: seq<string>)
    requires more != []
    ensures Join([t] + more) == t + ", " + Join(more)
  {
    assert ([t] + more)[1..] == more;
    assert t + (", " + more[0] + Tail(more[1..])) == t + ", " + (more[0] + Tail(more[1..]));
  }

  function LabelText(information: Option<Label>): string {
    Render(LabelPieces(information))
  }

  lemma RenderTwo(a: Piece, b: Piece)
    ensures Render([a, b]) == a.blank + Spell(a.token) + (b.blank + Spell(b.token))
  {
    assert [a, b] == [a] + [b];
    RenderAppend([a], [b]);
    RenderOne(a);
    RenderOne(b);
  }

  lemma RenderPairs(a: seq<Piece>, b: seq<Piece>, c: seq<Piece>, x: string, y: string, z: string)
    requires Render(a) == x && Render(b) == y && Render(c) == z
    ensures Render(a + b + c) == x + y + z
  {
    Render3(a, b, c);
  }

  lemma SecretOpening()
    ensures Render([Spaced(Identifier("flow")), Spaced(LeftBracket)] + [Close(Identifier("secret")), Close(Comma)]
                   + [Spaced(Identifier("tenant")), Close(Colon)]) == " flow [secret, tenant:"
  {
    OpeningPairs();
    RenderPairs([Spaced(Identifier("flow")), Spaced(LeftBracket)], [Close(Identifier("secret")), Close(Comma)],
                [Spaced(Identifier("tenant")), Close(Colon)], " flow [", "secret,", " tenant:");
    OpeningWords();
  }

  lemma OpeningWords()
    ensures " flow [" + "secret," + " tenant:" == " flow [secret, tenant:"
  {
    assert " flow [" + "secret," == " flow [secret,";
    assert " flow [secret," + " tenant:" == " flow [secret, tenant:";
  }

  lemma OpeningPairs()
    ensures Render([Spaced(Identifier("flow")), Spaced(LeftBracket)]) == " flow ["
    ensures Render([Close(Identifier("secret")), Close(Comma)]) == "secret,"
    ensures Render([Spaced(Identifier("tenant")), Close(Colon)]) == " tenant:"
  {
    RenderTwo(Spaced(Identifier("flow")), Spaced(LeftBracket));
    RenderTwo(Close(Identifier("secret")), Close(Comma));
    RenderTwo(Spaced(Identifier("tenant")), Close(Colon));
  }

  lemma SecretMiddle(tenant: string, purpose: string)
    ensures Render([Close(Identifier(tenant)), Close(Comma)] + [Spaced(Identifier("purpose")), Close(Colon)]
                   + [Close(Identifier(purpose)), Close(RightBracket)]) == tenant + ", purpose:" + purpose + "]"
  {
    RenderTwo(Close(Identifier(tenant)), Close(Comma));
    RenderTwo(Spaced(Identifier("purpose")), Close(Colon));
    RenderTwo(Close(Identifier(purpose)), Close(RightBracket));
    Render3([Close(Identifier(tenant)), Close(Comma)], [Spaced(Identifier("purpose")), Close(Colon)],
            [Close(Identifier(purpose)), Close(RightBracket)]);
    PurposeRegroups(tenant, purpose);
  }

  lemma PurposeRegroups(tenant: string, purpose: string)
    ensures "" + tenant + ("" + ",") + (" " + "purpose" + ("" + ":")) + ("" + purpose + ("" + "]")) == tenant + ", purpose:" + purpose + "]"
  {
    assert ("" + ",") + (" " + "purpose" + ("" + ":")) == ", purpose:";
    Regroup3(tenant, ",", " " + "purpose" + ":", "");
    assert "" + tenant + ("" + ",") + (" " + "purpose" + ("" + ":")) == tenant + ", purpose:";
    assert "" + purpose + ("" + "]") == purpose + "]";
    Regroup2(tenant + ", purpose:", purpose, "]");
  }

  lemma LabelTextIs(information: Option<Label>)
    ensures LabelText(information) ==
            match information
            case None => ""
            case Some(Public) => " flow [public]"
            case Some(Secret(tenant, purpose)) => " flow [secret, tenant:" + tenant + ", purpose:" + purpose + "]"
  {
    if information.Some? {
      if information.value.Public? {
        PublicText();
      } else {
        SecretText(information.value.tenant, information.value.purpose);
      }
    }
  }

  lemma PublicPairs()
    ensures Render([Spaced(Identifier("flow")), Spaced(LeftBracket)]) == " flow ["
    ensures Render([Close(Identifier("public")), Close(RightBracket)]) == "public]"
  {
    RenderTwo(Spaced(Identifier("flow")), Spaced(LeftBracket));
    RenderTwo(Close(Identifier("public")), Close(RightBracket));
  }

  lemma PublicText()
    ensures LabelText(Some(Public)) == " flow [public]"
  {
    PublicPairs();
    RenderAppend([Spaced(Identifier("flow")), Spaced(LeftBracket)], [Close(Identifier("public")), Close(RightBracket)]);
    assert LabelPieces(Some(Public)) ==
           [Spaced(Identifier("flow")), Spaced(LeftBracket)] + [Close(Identifier("public")), Close(RightBracket)];
    assert " flow [" + "public]" == " flow [public]";
  }

  lemma SecretText(tenant: string, purpose: string)
    ensures LabelText(Some(Secret(tenant, purpose))) == " flow [secret, tenant:" + tenant + ", purpose:" + purpose + "]"
  {
    var a := [Spaced(Identifier("flow")), Spaced(LeftBracket)] + [Close(Identifier("secret")), Close(Comma)]
             + [Spaced(Identifier("tenant")), Close(Colon)];
    var b := [Close(Identifier(tenant)), Close(Comma)] + [Spaced(Identifier("purpose")), Close(Colon)]
             + [Close(Identifier(purpose)), Close(RightBracket)];
    SecretHalves(tenant, purpose);
    RenderAppend(a, b);
    SecretOpening();
    SecretMiddle(tenant, purpose);
    Regroup4(" flow [secret, tenant:", tenant, ", purpose:", purpose, "]");
  }

  lemma SecretHalves(tenant: string, purpose: string)
    ensures LabelPieces(Some(Secret(tenant, purpose))) ==
            ([Spaced(Identifier("flow")), Spaced(LeftBracket)] + [Close(Identifier("secret")), Close(Comma)]
             + [Spaced(Identifier("tenant")), Close(Colon)])
            + ([Close(Identifier(tenant)), Close(Comma)] + [Spaced(Identifier("purpose")), Close(Colon)]
               + [Close(Identifier(purpose)), Close(RightBracket)])
  {
  }

  /** The text of a statement on its line. */
  function StatementText(s: Statement<i64>): string {
    match s
    case LetStatement(name, ty, information, value) =>
      "let " + name + ": " + Spell(TypeToken(ty)) + LabelText(information) + " = " + ExpressionText(value, 0) + ";"
    case ReturnStatement(None) => "return" + ";"
    case ReturnStatement(Some(e)) => "return" + " " + ExpressionText(e, 0) + ";"
    case RequestStatement(effect, authority, information, arguments) =>
      "request " + effect + "(" + ArgumentsText(arguments) + ")" + UsingText(authority) + LabelText(information) + ";"
    case ExpressionStatement(e) => ExpressionText(e, 0) + ";"
  }

  lemma LedStatement(s: Statement<i64>, lead: string)
    ensures Render(StatementPieces(s, lead)) == lead + StatementText(s)
  {
    match s
    case LetStatement(_, _, _, _) => LetText(s, lead);
    case ReturnStatement(result) => ReturnText(result, lead);
    case RequestStatement(_, _, _, _) => RequestText(s, lead);
    case ExpressionStatement(e) => ExpressionStatementText(e, lead);
  }

  /** Name, colon, type. */
  lemma TypedName(name: string, ty: Type)
    ensures Render([Close(Identifier(name)), Close(Colon)] + [Spaced(TypeToken(ty))]) == name + ": " + Spell(TypeToken(ty))
  {
    RenderAppend([Close(Identifier(name)), Close(Colon)], [Spaced(TypeToken(ty))]);
    RenderTwo(Close(Identifier(name)), Close(Colon));
    RenderOne(Spaced(TypeToken(ty)));
    assert "" + name + ("" + ":") + (" " + Spell(TypeToken(ty))) == name + ": " + Spell(TypeToken(ty));
  }

  lemma LetHead(name: string, ty: Type, lead: string)
    ensures Render([Piece(lead, KwLet), Spaced(Identifier(name)), Close(Colon), Spaced(TypeToken(ty))]) ==
            lead + ("let " + name + ": " + Spell(TypeToken(ty)))
  {
    var head := [Piece(lead, KwLet), Spaced(Identifier(name)), Close(Colon), Spaced(TypeToken(ty))];
    assert head == [Piece(lead, KwLet), Spaced(Identifier(name))] + [Close(Colon), Spaced(TypeToken(ty))];
    RenderAppend([Piece(lead, KwLet), Spaced(Identifier(name))], [Close(Colon), Spaced(TypeToken(ty))]);
    RenderTwo(Piece(lead, KwLet), Spaced(Identifier(name)));
    RenderTwo(Close(Colon), Spaced(TypeToken(ty)));
    LetRegroups(lead, name, Spell(TypeToken(ty)));
  }

  lemma LetRegroups(lead: string, name: string, ty: string)
    ensures lead + "let" + (" " + name) + ("" + ":" + (" " + ty)) == lead + ("let " + name + ": " + ty)
  {
    assert "let" + (" " + name) == "let " + name;
    assert "" + ":" + (" " + ty) == ": " + ty;
    Regroup2("let " + name, ": ", ty);
    Regroup2(lead, "let", " " + name);
    Regroup2(lead, "let " + name, ": " + ty);
  }

  lemma LetText(s: Statement<i64>, lead: string)
    requires s.LetStatement?
    ensures Render(LetPieces(s, lead)) == lead + StatementText(s)
  {
    hide Render, LabelPieces, ExpressionPieces, ExpressionText;
    var head := [Piece(lead, KwLet), Spaced(Identifier(s.name)), Close(Colon), Spaced(TypeToken(s.valueType))];
    Render3(head + LabelPieces(s.information) + [Spaced(Assign)], ExpressionPieces(s.value, 0, " "), [Close(Semicolon)]);
    Render3(head, LabelPieces(s.information), [Spaced(Assign)]);
    LetHead(s.name, s.valueType, lead);
    RenderOne(Spaced(Assign));
    RenderOne(Close(Semicolon));
    LedExpression(s.value, 0, " ");
    EqualsRegroups(Render(head) + LabelText(s.information), ExpressionText(s.value, 0));
    Regroup5(lead, "let " + s.name + ": " + Spell(TypeToken(s.valueType)), LabelText(s.information), " = ", ExpressionText(s.value, 0), ";");
  }

  lemma EqualsRegroups(a: string, e: string)
    ensures a + (" " + "=") + (" " + e) + ("" + ";") == a + " = " + e + ";"
  {
    assert (" " + "=") + (" " + e) == " = " + e;
    Regroup2(a, " " + "=", " " + e);
    Regroup2(a, " = ", e);
  }

  lemma ReturnText(result: Option<Expression<i64>>, lead: string)
    ensures Render(StatementPieces(ReturnStatement(result), lead)) == lead + StatementText(ReturnStatement(result))
  {
    hide Render, ExpressionPieces, ExpressionText;
    match result
    case None =>
      RenderTwo(Piece(lead, KwReturn), Close(Semicolon));
      Regroup2(lead, "return", ";");
    case Some(e) =>
      Render3([Piece(lead, KwReturn)], ExpressionPieces(e, 0, " "), [Close(Semicolon)]);
      RenderOne(Piece(lead, KwReturn));
      RenderOne(Close(Semicolon));
      LedExpression(e, 0, " ");
      ReturnRegroups(lead, ExpressionText(e, 0));
  }

  lemma ReturnRegroups(lead: string, e: string)
    ensures lead + "return" + (" " + e) + ("" + ";") == lead + ("return" + " " + e + ";")
  {
    Regroup2("return", " ", e);
    Regroup3(lead, "return", " " + e, ";");
  }

  lemma ExpressionStatementText(e: Expression<i64>, lead: string)
    ensures Render(StatementPieces(ExpressionStatement(e), lead)) == lead + StatementText(ExpressionStatement(e))
  {
    hide Render, ExpressionPieces, ExpressionText;
    RenderAppend(ExpressionPieces(e, 0, lead), [Close(Semicolon)]);
    RenderOne(Close(Semicolon));
    LedExpression(e, 0, lead);
    Regroup2(lead, ExpressionText(e, 0), ";");
  }

  function UsingText(authority: Option<string>): string {
    Render(UsingPieces(authority))
  }

  lemma UsingTextIs(authority: Option<string>)
    ensures UsingText(authority) == match authority
                                    case None => ""
                                    case Some(name) => " using " + name
  {
    if authority.Some? {
      RenderTwo(Spaced(Identifier("using")), Spaced(Identifier(authority.value)));
      assert " " + "using" + (" " + authority.value) == " using " + authority.value;
    }
  }

  lemma RequestCallText(effect: string, arguments: seq<Expression<i64>>, lead: string)
    ensures Render([Piece(lead, KwRequest), Spaced(Identifier(effect)), Close(LeftParen)] + ArgumentPieces(arguments, "") + [Close(RightParen)]) ==
            lead + ("request " + effect + "(") + ArgumentsText(arguments) + ")"
  {
    Render3([Piece(lead, KwRequest), Spaced(Identifier(effect)), Close(LeftParen)], ArgumentPieces(arguments, ""), [Close(RightParen)]);
    RequestHead(effect, lead);
    RenderOne(Close(RightParen));
  }

  lemma RequestText(s: Statement<i64>, lead: string)
    requires s.RequestStatement?
    ensures Render(RequestPieces(s, lead)) == lead + StatementText(s)
  {
    hide Render, ArgumentPieces, UsingPieces, LabelPieces;
    var call := [Piece(lead, KwRequest), Spaced(Identifier(s.effect)), Close(LeftParen)] + ArgumentPieces(s.arguments, "") + [Close(RightParen)];
    RenderAppend(call + UsingPieces(s.authority) + LabelPieces(s.information), [Close(Semicolon)]);
    Render3(call, UsingPieces(s.authority), LabelPieces(s.information));
    RequestCallText(s.effect, s.arguments, lead);
    RenderOne(Close(Semicolon));
    Regroup6(lead, "request " + s.effect + "(", ArgumentsText(s.arguments), ")", UsingText(s.authority), LabelText(s.information), ";");
  }

  lemma RequestHead(effect: string, lead: string)
    ensures Render([Piece(lead, KwRequest), Spaced(Identifier(effect)), Close(LeftParen)]) == lead + ("request " + effect + "(")
  {
    var head := [Piece(lead, KwRequest), Spaced(Identifier(effect)), Close(LeftParen)];
    assert head == [Piece(lead, KwRequest), Spaced(Identifier(effect))] + [Close(LeftParen)];
    RenderAppend([Piece(lead, KwRequest), Spaced(Identifier(effect))], [Close(LeftParen)]);
    RenderTwo(Piece(lead, KwRequest), Spaced(Identifier(effect)));
    RenderOne(Close(LeftParen));
    assert "request" + (" " + effect) == "request " + effect;
    Regroup2(lead, "request", " " + effect);
    Regroup2(lead, "request " + effect, "(");
  }

  function ParameterText(p: Parameter): string {
    Render(ParameterPieces(p, ""))
  }

  lemma ParameterTextIs(p: Parameter)
    ensures ParameterText(p) == p.name + ": " + Spell(TypeToken(p.valueType)) + LabelText(p.information)
  {
    var head := [Close(Identifier(p.name)), Close(Colon), Spaced(TypeToken(p.valueType))];
    RenderAppend(head, LabelPieces(p.information));
    assert head == [Close(Identifier(p.name)), Close(Colon)] + [Spaced(TypeToken(p.valueType))];
    TypedName(p.name, p.valueType);
  }

  function ParameterTexts(ps: seq<Parameter>): (r: seq<string>)
    ensures |r| == |ps| && forall i :: 0 <= i < |ps| ==> r[i] == ParameterText(ps[i])
  {
    if ps == [] then [] else [ParameterText(ps[0])] + ParameterTexts(ps[1..])
  }

  lemma LedParameter(p: Parameter, lead: string)
    ensures Render(ParameterPieces(p, lead)) == lead + ParameterText(p)
  {
    var ps := ParameterPieces(p, lead);
    LeadComesFirst(ps, lead);
    assert ParameterPieces(p, "") == [Close(ps[0].token)] + ps[1..];
  }

  lemma ItemText(a: string, b: string, c: string)
    ensures a + b + ("" + ",") + (" " + c) == a + (b + ", " + c)
  {
    assert ("" + ",") + (" " + c) == ", " + c;
  }

  lemma JoinOne(texts: seq<string>, lead: string)
    requires |texts| == 1
    ensures lead + Join(texts) == lead + texts[0]
  {
    assert texts[1..] == [];
    assert texts[0] + "" == texts[0];
  }

  /** The layout of a list, from the layout of its first item and of the others. */
  lemma ListText(first: seq<Piece>, others: seq<Piece>, lead: string, text: string, more: seq<string>)
    requires Render(first) == lead + text && Render(others) == " " + Join(more) && more != []
    ensures Render(first + [Close(Comma)] + others) == lead + Join([text] + more)
  {
    hide Render, Join;
    Render3(first, [Close(Comma)], others);
    RenderOne(Close(Comma));
    JoinFirst(text, more);
    ItemText(lead, text, Join(more));
  }

  lemma {:induction false} ParameterListText(ps: seq<Parameter>, lead: string)
    requires ps != []
    ensures Render(ParameterListPieces(ps, lead)) == lead + Join(ParameterTexts(ps))
    decreases |ps|
  {
    LedParameter(ps[0], lead);
    if |ps| == 1 {
      JoinOne(ParameterTexts(ps), lead);
    } else {
      ParameterListText(ps[1..], " ");
      ListText(ParameterPieces(ps[0], lead), ParameterListPieces(ps[1..], " "), lead, ParameterText(ps[0]), ParameterTexts(ps[1..]));
    }
  }

  lemma NamePieceText(name: string, lead: string)
    ensures Render([Piece(lead, Identifier(name))]) == lead + name
  {
    RenderOne(Piece(lead, Identifier(name)));
  }

  lemma {:induction false} NameListText(names: seq<string>, lead: string)
    requires names != []
    ensures Render(NameListPieces(names, lead)) == lead + Join(names)
    decreases |names|
  {
    NamePieceText(names[0], lead);
    if |names| == 1 {
      JoinOne(names, lead);
    } else {
      NameListText(names[1..], " ");
      ListText([Piece(lead, Identifier(names[0]))], NameListPieces(names[1..], " "), lead, names[0], names[1..]);
      NameListSplits(names, lead);
    }
  }

  lemma NameListSplits(names: seq<string>, lead: string)
    requires |names| > 1
    ensures NameListPieces(names, lead) == [Piece(lead, Identifier(names[0]))] + [Close(Comma)] + NameListPieces(names[1..], " ")
    ensures names == [names[0]] + names[1..]
  {
  }

  function AuthorityTexts(items: seq<Authority>): (r: seq<string>)
    ensures |r| == |items| && forall i :: 0 <= i < |items| ==> r[i] == items[i].name + ": " + items[i].effect
  {
    if items == [] then [] else [items[0].name + ": " + items[0].effect] + AuthorityTexts(items[1..])
  }

  lemma LedAuthority(a: Authority, lead: string)
    ensures Render(AuthorityPieces(a, lead)) == lead + (a.name + ": " + a.effect)
  {
    var first, second, third := Piece(lead, Identifier(a.name)), Close(Colon), Spaced(Identifier(a.effect));
    assert AuthorityPieces(a, lead) == [first, second] + [third];
    RenderAppend([first, second], [third]);
    RenderTwo(first, second);
    RenderOne(third);
    assert "" + ":" + (" " + a.effect) == ": " + a.effect;
    assert lead + a.name + ("" + ":") + (" " + a.effect) == lead + (a.name + ": " + a.effect);
  }

  lemma {:induction false} AuthorityListText(items: seq<Authority>, lead: string)
    requires items != []
    ensures Render(AuthorityListPieces(items, lead)) == lead + Join(AuthorityTexts(items))
    decreases |items|
  {
    LedAuthority(items[0], lead);
    if |items| == 1 {
      JoinOne(AuthorityTexts(items), lead);
    } else {
      AuthorityListText(items[1..], " ");
      ListText(AuthorityPieces(items[0], lead), AuthorityListPieces(items[1..], " "), lead,
               items[0].name + ": " + items[0].effect, AuthorityTexts(items[1..]));
    }
  }

  lemma AuthoritiesTextIs(authorities: Option<seq<Authority>>)
    ensures Render(AuthoritiesPieces(authorities)) ==
            match authorities
            case None => ""
            case Some(items) => " authorities [" + Join(AuthorityTexts(items)) + "]"
  {
    if authorities.Some? {
      var items := authorities.value;
      Render3([Spaced(Identifier("authorities")), Spaced(LeftBracket)], AuthorityListPieces(items, ""), [Close(RightBracket)]);
      SlotsHead();
      RenderOne(Close(RightBracket));
      SlotsTextIs(items);
    }
  }

  lemma SlotsHead()
    ensures Render([Spaced(Identifier("authorities")), Spaced(LeftBracket)]) == " authorities ["
  {
    RenderTwo(Spaced(Identifier("authorities")), Spaced(LeftBracket));
  }

  lemma SlotsTextIs(items: seq<Authority>)
    ensures Render(AuthorityListPieces(items, "")) == Join(AuthorityTexts(items))
  {
    if items != [] {
      AuthorityListText(items, "");
      assert "" + Join(AuthorityTexts(items)) == Join(AuthorityTexts(items));
    }
  }

  lemma SignatureTextIs(f: Function<i64>)
    ensures Render(SignaturePieces(f)) ==
            "\n\n" + ("fn " + f.name + "(") + Join(ParameterTexts(f.parameters)) + (") -> " + Spell(TypeToken(f.returnType)))
            + LabelText(f.returnInformation)
  {
    var head := [Piece("\n\n", KwFn), Spaced(Identifier(f.name)), Close(LeftParen)];
    var middle := [Close(RightParen), Spaced(Arrow), Spaced(TypeToken(f.returnType))];
    RenderAppend(head + ParameterListPieces(f.parameters, "") + middle, LabelPieces(f.returnInformation));
    Render3(head, ParameterListPieces(f.parameters, ""), middle);
    FunctionHead(f.name);
    ReturnHead(f.returnType);
    if f.parameters != [] {
      ParameterListText(f.parameters, "");
      assert "" + Join(ParameterTexts(f.parameters)) == Join(ParameterTexts(f.parameters));
    }
  }

  lemma FunctionHead(name: string)
    ensures Render([Piece("\n\n", KwFn), Spaced(Identifier(name)), Close(LeftParen)]) == "\n\n" + ("fn " + name + "(")
  {
    var a, b, c := Piece("\n\n", KwFn), Spaced(Identifier(name)), Close(LeftParen);
    assert [a, b, c] == [a, b] + [c];
    RenderAppend([a, b], [c]);
    RenderTwo(a, b);
    RenderOne(c);
    assert "fn" + (" " + name) == "fn " + name;
    assert "\n\n" + "fn" + (" " + name) + "(" == "\n\n" + ("fn " + name + "(");
  }

  lemma ReturnHead(ty: Type)
    ensures Render([Close(RightParen), Spaced(Arrow), Spaced(TypeToken(ty))]) == ") -> " + Spell(TypeToken(ty))
  {
    var a, b, c := Close(RightParen), Spaced(Arrow), Spaced(TypeToken(ty));
    assert [a, b, c] == [a, b] + [c];
    RenderAppend([a, b], [c]);
    RenderTwo(a, b);
    RenderOne(c);
    assert "" + ")" + (" " + "->") == ") ->";
    assert ") ->" + (" " + Spell(TypeToken(ty))) == ") -> " + Spell(TypeToken(ty));
  }

  lemma EffectsTextIs(effects: seq<string>)
    ensures Render(NameListPieces(effects, "")) == Join(effects)
  {
    if effects != [] {
      NameListText(effects, "");
      assert "" + Join(effects) == Join(effects);
    }
  }

  lemma RowsTextIs(f: Function<i64>)
    ensures Render(RowsPieces(f)) == " effects [" + Join(f.effects) + "]" + Render(AuthoritiesPieces(f.authorities))
  {
    hide Render, Join;
    var head := [Spaced(KwEffects), Spaced(LeftBracket)];
    RenderAppend(head + NameListPieces(f.effects, "") + [Close(RightBracket)], AuthoritiesPieces(f.authorities));
    Render3(head, NameListPieces(f.effects, ""), [Close(RightBracket)]);
    EffectsHead();
    RenderOne(Close(RightBracket));
    EffectsTextIs(f.effects);
  }

  lemma EffectsHead()
    ensures Render([Spaced(KwEffects), Spaced(LeftBracket)]) == " effects ["
  {
    RenderTwo(Spaced(KwEffects), Spaced(LeftBracket));
  }

  lemma {:induction false} BodyAppend(a: seq<Statement<i64>>, b: seq<Statement<i64>>)
    ensures BodyPieces(a + b) == BodyPieces(a) + BodyPieces(b)
  {
    if a == [] {
      assert a + b == b;
    } else {
      assert (a + b)[1..] == a[1..] + b;
      BodyAppend(a[1..], b);
    }
  }

  lemma BodyOne(s: Statement<i64>)
    ensures BodyPieces([s]) == StatementPieces(s, "\n  ")
  {
    assert [s][1..] == [];
  }

  lemma BodyStep(body: seq<Statement<i64>>, k: nat, before: string)
    requires k < |body|
    ensures before + Render(BodyPieces(body[..k + 1])) + "\n" ==
            before + Render(BodyPieces(body[..k])) + "\n" + "  " + StatementText(body[k]) + "\n"
  {
    assert body[..k + 1] == body[..k] + [body[k]];
    BodyAppend(body[..k], [body[k]]);
    BodyOne(body[k]);
    RenderAppend(BodyPieces(body[..k]), StatementPieces(body[k], "\n  "));
    LedStatement(body[k], "\n  ");
    LineRegroups(before, Render(BodyPieces(body[..k])), StatementText(body[k]));
  }

  lemma LineRegroups(a: string, b: string, c: string)
    ensures a + (b + ("\n  " + c)) + "\n" == a + b + "\n" + "  " + c + "\n"
  {
    assert "\n  " + c == "\n" + "  " + c;
  }

  lemma FunctionTextIs(f: Function<i64>, before: string)
    ensures before + Render(FunctionPieces(f)) ==
            before + Render(SignaturePieces(f)) + Render(RowsPieces(f)) + " {" + Render(BodyPieces(f.body)) + "\n}"
  {
    hide Render, SignaturePieces, RowsPieces, BodyPieces;
    var head := SignaturePieces(f) + RowsPieces(f);
    Render3(head + [Spaced(LeftBrace)], BodyPieces(f.body), [Piece("\n", RightBrace)]);
    Render3(SignaturePieces(f), RowsPieces(f), [Spaced(LeftBrace)]);
    RenderOne(Spaced(LeftBrace));
    RenderOne(Piece("\n", RightBrace));
    assert " " + "{" == " {" && "\n" + "}" == "\n}";
    Regroup5(before, Render(SignaturePieces(f)), Render(RowsPieces(f)), " {", Render(BodyPieces(f.body)), "\n}");
  }

  lemma EndsFunction(a: string)
    ensures a + "\n" + "}\n" == a + "\n}" + "\n"
  {
  }

  lemma {:induction false} FunctionsAppend(a: seq<Function<i64>>, b: seq<Function<i64>>)
    ensures FunctionsPieces(a + b) == FunctionsPieces(a) + FunctionsPieces(b)
  {
    if a == [] {
      assert a + b == b;
    } else {
      assert (a + b)[1..] == a[1..] + b;
      FunctionsAppend(a[1..], b);
    }
  }

  lemma FunctionsOne(f: Function<i64>)
    ensures FunctionsPieces([f]) == FunctionPieces(f)
  {
    assert [f][1..] == [];
  }

  lemma FunctionsStep(fs: seq<Function<i64>>, k: nat, header: string)
    requires k < |fs|
    ensures header + Render(FunctionsPieces(fs[..k + 1])) + "\n" ==
            header + Render(FunctionsPieces(fs[..k])) + Render(FunctionPieces(fs[k])) + "\n"
  {
    assert fs[..k + 1] == fs[..k] + [fs[k]];
    FunctionsAppend(fs[..k], [fs[k]]);
    FunctionsOne(fs[k]);
    RenderAppend(FunctionsPieces(fs[..k]), FunctionPieces(fs[k]));
    Regroup2(header, Render(FunctionsPieces(fs[..k])), Render(FunctionPieces(fs[k])));
  }

  lemma HeaderTextIs(p: Program)
    ensures Render(HeaderPieces(p)) + "\n" == "module " + p.moduleName + (if p.informationFlow then " flow" else "") + ";\n"
  {
    var head := [Close(KwModule), Spaced(Identifier(p.moduleName))];
    var profile := if p.informationFlow then [Spaced(Identifier("flow"))] else [];
    Render3(head, profile, [Close(Semicolon)]);
    RenderTwo(head[0], head[1]);
    RenderOne(Close(Semicolon));
    if p.informationFlow {
      RenderOne(Spaced(Identifier("flow")));
    }
    assert "" + "module" + (" " + p.moduleName) == "module " + p.moduleName;
  }

  // ---------- the formatter ----------

  class Formatter {
    var output: string

    constructor ()
      ensures output == ""
    {
      output := "";
    }

    method Push(text: string)
      modifies this
      ensures output == old(output) + text
    {
      output := output + text;
    }

    method FormatText(value: string)
      modifies this
      ensures output == old(output) + Spell(TextToken(value))
    {
      output := output + ['\"'];
      ghost var start := output;
      assert value[0..] == value;
      for k := 0 to |value|
        invariant start + EscapeAll(value) == output + EscapeAll(value[k..])
      {
        EscapeStep(value, k, output);
        match value[k] {
          case '\n' => output := output + "\\n";
          case '\r' => output := output + "\\r";
          case '\t' => output := output + "\\t";
          case '\\' => output := output + "\\\\";
          case '\"' => output := output + "\\\"";
          case c => output := output + [c];
        }
      }
      assert output + [] == output;
      output := output + ['\"'];
      QuoteRegroups(old(output), EscapeAll(value));
    }

    method FormatExpression(e: Expression<i64>, parent: nat)
      modifies this
      ensures output == old(output) + ExpressionText(e, parent)
      decreases e, 1
    {
      var own := Precedence(e);
      var parenthesize := own < parent;
      if parenthesize {
        Push("(");
      }
      FormatBare(e, own);
      if parenthesize {
        Push(")");
        ParenthesizedText(e, parent);
        Regroup3(old(output), "(", ExpressionText(e, 0), ")");
      }
    }

    method FormatBare(e: Expression<i64>, own: nat)
      requires own == Precedence(e)
      modifies this
      ensures output == old(output) + ExpressionText(e, 0)
      decreases e, 0
    {
      match e
      case Integer(n) =>
        LeafText(e);
        Push(ToDecimal(n));
      case Boolean(b) =>
        LeafText(e);
        Push(if b then "true" else "false");
      case Text(text) =>
        LeafText(e);
        FormatText(text);
      case Variable(name) =>
        LeafText(e);
        Push(name);
      case Unary(op, operand) =>
        UnaryText(e);
        Push(if op.Minus? then "-" else "!");
        FormatExpression(operand, own);
        Regroup2(old(output), if op.Minus? then "-" else "!", ExpressionText(operand, own));
      case Binary(op, left, right) =>
        BinaryText(e);
        var symbol := " " + Spell(OperatorToken(op)) + " ";
        FormatExpression(left, own);
        Push(symbol);
        FormatExpression(right, own + 1);
        Regroup3(old(output), ExpressionText(left, own), symbol, ExpressionText(right, own + 1));
      case Call(callee, arguments) =>
        CallText(e);
        Push(callee);
        Push("(");
        FormatArguments(arguments);
        Push(")");
        Regroup4(old(output), callee, "(", ArgumentsText(arguments), ")");
    }

    method FormatArguments(es: seq<Expression<i64>>)
      modifies this
      ensures output == old(output) + ArgumentsText(es)
      decreases es, 2
    {
      if es == [] {
        assert ArgumentsText(es) == "";
        return;
      }
      ArgumentsStart(es, output);
      FormatExpression(es[0], 0);
      for k := 1 to |es|
        invariant output + ArgumentTail(es[k..]) == old(output) + ArgumentsText(es)
      {
        ArgumentStep(es, k, output);
        Push(", ");
        FormatExpression(es[k], 0);
      }
      assert output + ArgumentTail(es[|es|..]) == output;
    }

    method FormatInformationLabel(information: Option<Label>)
      modifies this
      ensures output == old(output) + LabelText(information)
    {
      LabelTextIs(information);
      match information
      case None => assert output + "" == output;
      case Some(Public) => Push(" flow [public]");
      case Some(Secret(tenant, purpose)) =>
        Push(" flow [secret, tenant:" + tenant + ", purpose:" + purpose + "]");
    }

    method FormatStatement(s: Statement<i64>)
      modifies this
      ensures output == old(output) + StatementText(s)
    {
      match s
      case LetStatement(name, ty, information, value) =>
        Push("let " + name + ": " + Spell(TypeToken(ty)));
        FormatInformationLabel(information);
        Push(" = ");
        FormatExpression(value, 0);
        Push(";");
        Regroup5(old(output), "let " + name + ": " + Spell(TypeToken(ty)), LabelText(information), " = ", ExpressionText(value, 0), ";");
      case ReturnStatement(None) =>
        Push("return");
        Push(";");
        Regroup2(old(output), "return", ";");
      case ReturnStatement(Some(value)) =>
        Push("return");
        Push(" ");
        FormatExpression(value, 0);
        Push(";");
        Regroup4(old(output), "return", " ", ExpressionText(value, 0), ";");
      case RequestStatement(effect, authority, information, arguments) =>
        Push("request " + effect + "(");
        FormatArguments(arguments);
        Push(")");
        FormatUsing(authority);
        FormatInformationLabel(information);
        Push(";");
        Regroup6(old(output), "request " + effect + "(", ArgumentsText(arguments), ")", UsingText(authority), LabelText(information), ";");
      case ExpressionStatement(e) =>
        FormatExpression(e, 0);
        Push(";");
        Regroup2(old(output), ExpressionText(e, 0), ";");
    }

    method FormatUsing(authority: Option<string>)
      modifies this
      ensures output == old(output) + UsingText(authority)
    {
      UsingTextIs(authority);
      if authority.Some? {
        Push(" using " + authority.value);
      } else {
        assert output + "" == output;
      }
    }

    method FormatParameter(p: Parameter)
      modifies this
      ensures output == old(output) + ParameterText(p)
    {
      ParameterTextIs(p);
      Push(p.name + ": " + Spell(TypeToken(p.valueType)));
      FormatInformationLabel(p.information);
      Regroup2(old(output), p.name + ": " + Spell(TypeToken(p.valueType)), LabelText(p.information));
    }

    method FormatParameters(ps: seq<Parameter>)
      modifies this
      ensures output == old(output) + Join(ParameterTexts(ps))
    {
      ghost var texts := ParameterTexts(ps);
      assert output + "" == output;
      for k := 0 to |ps|
        invariant output == old(output) + Join(texts[..k])
      {
        JoinStep(texts, k, old(output));
        if k > 0 {
          Push(", ");
        }
        FormatParameter(ps[k]);
      }
      assert texts[..|texts|] == texts;
    }

    method FormatEffects(effects: seq<string>)
      modifies this
      ensures output == old(output) + Join(effects)
    {
      assert output + "" == output;
      for k := 0 to |effects|
        invariant output == old(output) + Join(effects[..k])
      {
        JoinStep(effects, k, old(output));
        if k > 0 {
          Push(", ");
        }
        Push(effects[k]);
      }
      assert effects[..|effects|] == effects;
    }

    method FormatAuthorities(items: seq<Authority>)
      modifies this
      ensures output == old(output) + Join(AuthorityTexts(items))
    {
      ghost var texts := AuthorityTexts(items);
      assert output + "" == output;
      for k := 0 to |items|
        invariant output == old(output) + Join(texts[..k])
      {
        JoinStep(texts, k, old(output));
        if k > 0 {
          Push(", ");
        }
        Push(items[k].name + ": " + items[k].effect);
      }
      assert texts[..|texts|] == texts;
    }

    method FormatAuthorityClause(authorities: Option<seq<Authority>>)
      modifies this
      ensures output == old(output) + Render(AuthoritiesPieces(authorities))
    {
      AuthoritiesTextIs(authorities);
      if authorities.Some? {
        Push(" authorities [");
        FormatAuthorities(authorities.value);
        Push("]");
        Regroup3(old(output), " authorities [", Join(AuthorityTexts(authorities.value)), "]");
      } else {
        assert output + "" == output;
      }
    }

    /** Everything of a function up to its opening brace; two line breaks come before it in the layout. */
    method FormatHead(f: Function<i64>, ghost before: string)
      requires output == before + "\n\n"
      modifies this
      ensures output == before + Render(SignaturePieces(f)) + Render(RowsPieces(f))
    {
      SignatureTextIs(f);
      RowsTextIs(f);
      Push("fn " + f.name + "(");
      FormatParameters(f.parameters);
      Push(") -> " + Spell(TypeToken(f.returnType)));
      FormatInformationLabel(f.returnInformation);
      Regroup5(before, "\n\n", "fn " + f.name + "(", Join(ParameterTexts(f.parameters)), ") -> " + Spell(TypeToken(f.returnType)),
               LabelText(f.returnInformation));
      ghost var signature := output;
      Push(" effects [");
      FormatEffects(f.effects);
      Push("]");
      FormatAuthorityClause(f.authorities);
      Regroup4(signature, " effects [", Join(f.effects), "]", Render(AuthoritiesPieces(f.authorities)));
    }

    /** A function, given the line breaks before it; it ends with a line break of its own. */
    method FormatFunction(f: Function<i64>, ghost before: string)
      requires output == before + "\n\n"
      modifies this
      ensures output == before + Render(FunctionPieces(f)) + "\n"
    {
      FormatHead(f, before);
      ghost var head := output;
      Push(" {\n");
      assert head + " {" + "" + "\n" == head + " {\n";
      assert BodyPieces(f.body[..0]) == [];
      for k := 0 to |f.body|
        invariant output == head + " {" + Render(BodyPieces(f.body[..k])) + "\n"
      {
        BodyStep(f.body, k, head + " {");
        Push("  ");
        FormatStatement(f.body[k]);
        Push("\n");
      }
      assert f.body[..|f.body|] == f.body;
      Push("}\n");
      FunctionTextIs(f, before);
      EndsFunction(head + " {" + Render(BodyPieces(f.body)));
    }

    method FormatProgram(p: Program)
      requires output == ""
      modifies this
      ensures output == Format(p)
    {
      HeaderTextIs(p);
      var profile := if p.informationFlow then " flow" else "";
      Push("module " + p.moduleName + profile + ";\n");
      ghost var header := Render(HeaderPieces(p));
      assert output == header + "" + "\n" && FunctionsPieces(p.functions[..0]) == [];
      for k := 0 to |p.functions|
        invariant output == header + Render(FunctionsPieces(p.functions[..k])) + "\n"
      {
        ghost var before := header + Render(FunctionsPieces(p.functions[..k]));
        Push("\n");
        FormatFunction(p.functions[k], before);
        FunctionsStep(p.functions, k, header);
      }
      assert p.functions[..|p.functions|] == p.functions;
      RenderAppend(HeaderPieces(p), FunctionsPieces(p.functions));
    }
  }

  /** Parse and format a source text. */
  method FormatText(source: string) returns (r: Option<string>)
    ensures r == FormatSource(source)
  {
    var p := Parser.Parse(source);
    if p.None? {
      return None;
    }
    var formatter := new Formatter();
    formatter.FormatProgram(p.value);
    r := Some(formatter.output);
  }

  lemma EscapeStep(value: string, k: nat, output: string)
    requires k < |value|
    ensures output + EscapeAll(value[k..]) == output + Escape(value[k]) + EscapeAll(value[k + 1..])
  {
    assert value[k..][1..] == value[k + 1..];
  }

  lemma ArgumentsStart(es: seq<Expression<i64>>, output: string)
    requires es != []
    ensures output + ExpressionText(es[0], 0) + ArgumentTail(es[1..]) == output + ArgumentsText(es)
  {
    LedArguments(es, "");
    var first := ExpressionText(es[0], 0);
    assert "" + first == first;
    Regroup2(output, first, ArgumentTail(es[1..]));
  }

  lemma ArgumentStep(es: seq<Expression<i64>>, k: nat, output: string)
    requires k < |es|
    ensures output + ArgumentTail(es[k..]) == output + ", " + ExpressionText(es[k], 0) + ArgumentTail(es[k + 1..])
  {
    assert es[k..][1..] == es[k + 1..];
    Regroup3(output, ", ", ExpressionText(es[k], 0), ArgumentTail(es[k + 1..]));
  }

  lemma QuoteRegroups(before: string, inner: string)
    ensures before + ['\"'] + inner + ['\"'] == before + (['\"'] + inner + ['\"'])
  {
  }

  lemma Regroup2(a: string, b: string, c: string)
    ensures a + b + c == a + (b + c)
  {
  }

  lemma Regroup3(a: string, b: string, c: string, d: string)
    ensures a + b + c + d == a + (b + c + d)
  {
  }

  lemma Regroup5(a: string, b: string, c: string, d: string, e: string, f: string)
    ensures a + b + c + d + e + f == a + (b + c + d + e + f)
  {
    Regroup4(a, b, c, d, e);
    Regroup2(a, b + c + d + e, f);
  }

  lemma Regroup6(a: string, b: string, c: string, d: string, e: string, f: string, g: string)
    ensures a + b + c + d + e + f + g == a + (b + c + d + e + f + g)
  {
    Regroup5(a, b, c, d, e, f);
    Regroup2(a, b + c + d + e + f, g);
  }

  lemma Regroup4(a: string, b: string, c: string, d: string, e: string)
    ensures a + b + c + d + e == a + (b + c + d + e)
  {
    Regroup3(a, b, c, d);
    Regroup2(a, b + c + d, e);
  }
}
