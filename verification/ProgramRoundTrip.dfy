// Printing and parsing whole programs: every construct is read back from the
// tokens it is printed as.
module ProgramRoundTrip {
  import opened Prelude
  import opened Ast
  import opened Tokens
  import opened Layout
  import opened Grammar
  import opened Printer
  import opened ExpressionRoundTrip

  // ---------- sequence bookkeeping ----------

  lemma Front1(a: Token, rest: seq<Token>)
    ensures Head([a] + rest) == a && ([a] + rest)[1..] == rest
  {
  }

  lemma Front2(a: Token, b: Token, rest: seq<Token>)
    ensures var ts := [a, b] + rest;
            Head(ts) == a && ts[0] == a && Head(ts[1..]) == b && ts[1..] == [b] + rest && ts[1] == b && ts[2..] == rest
  {
  }

  lemma Front3(a: Token, b: Token, c: Token, rest: seq<Token>)
    ensures var ts := [a, b, c] + rest;
            && Head(ts) == a && ts[0] == a && Head(ts[1..]) == b && ts[1] == b && Head(ts[2..]) == c && ts[2] == c
            && ts[1..] == [b, c] + rest && ts[3..] == rest && |ts| >= 3
  {
  }

  lemma FirstAndRest<T>(s: seq<T>)
    requires s != []
    ensures s == [s[0]] + s[1..]
  {
  }

  lemma Flat2<T>(a: seq<T>, b: seq<T>, rest: seq<T>)
    ensures a + b + rest == a + (b + rest)
  {
  }

  lemma Chain2(a: seq<Piece>, b: seq<Piece>, rest: seq<Token>)
    ensures TokensIn(a + b) + rest == TokensIn(a) + (TokensIn(b) + rest)
  {
    TokensAppend(a, b);
    Flat2(TokensIn(a), TokensIn(b), rest);
  }

  lemma Chain3(a: seq<Piece>, b: seq<Piece>, c: seq<Piece>, rest: seq<Token>)
    ensures TokensIn(a + b + c) + rest == TokensIn(a) + (TokensIn(b) + (TokensIn(c) + rest))
  {
    Chain2(a + b, c, rest);
    Chain2(a, b, TokensIn(c) + rest);
  }

  lemma Chain4(a: seq<Piece>, b: seq<Piece>, c: seq<Piece>, d: seq<Piece>, rest: seq<Token>)
    ensures TokensIn(a + b + c + d) + rest == TokensIn(a) + (TokensIn(b) + (TokensIn(c) + (TokensIn(d) + rest)))
  {
    Chain2(a + b + c, d, rest);
    Chain3(a, b, c, TokensIn(d) + rest);
  }

  lemma Chain5(a: seq<Piece>, b: seq<Piece>, c: seq<Piece>, d: seq<Piece>, e: seq<Piece>, rest: seq<Token>)
    ensures TokensIn(a + b + c + d + e) + rest ==
            TokensIn(a) + (TokensIn(b) + (TokensIn(c) + (TokensIn(d) + (TokensIn(e) + rest))))
  {
    Chain2(a + b + c + d, e, rest);
    Chain4(a, b, c, d, TokensIn(e) + rest);
  }

  /** An item, a comma, and the items after it. */
  lemma ChainItem(first: seq<Piece>, more: seq<Piece>, rest: seq<Token>)
    ensures TokensIn(first + [Close(Comma)] + more) + rest == TokensIn(first) + ([Comma] + (TokensIn(more) + rest))
  {
    Chain3(first, [Close(Comma)], more, rest);
    One(Close(Comma));
  }

  lemma One(a: Piece)
    ensures TokensIn([a]) == [a.token]
  {
  }

  lemma Two(a: Piece, b: Piece)
    ensures TokensIn([a, b]) == [a.token, b.token]
  {
  }

  lemma Three(a: Piece, b: Piece, c: Piece)
    ensures TokensIn([a, b, c]) == [a.token, b.token, c.token]
  {
  }

  /** A full expression, up to a token that cannot continue it. */
  lemma ReadsExpression(e: Expression<i64>, lead: string, rest: seq<Token>)
    requires TokenLevel(Head(rest)) == 0 && Head(rest) != LeftParen
    ensures ParseLevel(1, ExpressionTokens(e, 0, lead) + rest) == Parsed(e, rest)
  {
    assert ExpressionPieces(e, 0, lead) == ExpressionPieces(e, 1, lead);
    ReadsBack(e, 1, lead, rest);
    NothingFollows(1, e, rest);
  }

  // ---------- types, labels, declarations ----------

  lemma ReadsType(ty: Type, rest: seq<Token>)
    ensures ParseType([TypeToken(ty)] + rest) == Parsed(ty, rest)
  {
    assert ([TypeToken(ty)] + rest)[1..] == rest;
  }

  lemma SecretTokens(tenant: string, purpose: string, rest: seq<Token>)
    ensures var ts := TokensIn(LabelPieces(Some(Secret(tenant, purpose)))) + rest;
            && |ts| == 12 + |rest| && ts[0] == Identifier("flow") && ts[2] == Identifier("secret")
            && ts[1..6] == [LeftBracket, Identifier("secret"), Comma, Identifier("tenant"), Colon]
            && ts[6] == Identifier(tenant) && ts[7..10] == [Comma, Identifier("purpose"), Colon]
            && ts[10] == Identifier(purpose) && ts[11] == RightBracket && ts[12..] == rest
  {
    SecretFront(tenant, purpose);
    SecretMiddle(tenant, purpose);
    SecretBack(tenant, purpose);
    var t := TokensIn(LabelPieces(Some(Secret(tenant, purpose))));
    hide LabelPieces;
    FiveAt(t, 1, rest);
    ThreeAt(t, 7, rest);
  }

  lemma SecretFront(tenant: string, purpose: string)
    ensures var t := TokensIn(LabelPieces(Some(Secret(tenant, purpose))));
            && |t| == 12 && t[0] == Identifier("flow") && t[1] == LeftBracket && t[2] == Identifier("secret") && t[3] == Comma
  {
  }

  lemma SecretMiddle(tenant: string, purpose: string)
    ensures var t := TokensIn(LabelPieces(Some(Secret(tenant, purpose))));
            && |t| == 12 && t[4] == Identifier("tenant") && t[5] == Colon && t[6] == Identifier(tenant) && t[7] == Comma
  {
  }

  lemma SecretBack(tenant: string, purpose: string)
    ensures var t := TokensIn(LabelPieces(Some(Secret(tenant, purpose))));
            && |t| == 12 && t[8] == Identifier("purpose") && t[9] == Colon && t[10] == Identifier(purpose) && t[11] == RightBracket
  {
  }

  lemma FiveAt(t: seq<Token>, k: nat, rest: seq<Token>)
    requires k + 5 <= |t|
    ensures (t + rest)[k..k + 5] == [t[k], t[k + 1], t[k + 2], t[k + 3], t[k + 4]]
  {
  }

  lemma ThreeAt(t: seq<Token>, k: nat, rest: seq<Token>)
    requires k + 3 <= |t|
    ensures (t + rest)[k..k + 3] == [t[k], t[k + 1], t[k + 2]]
  {
  }

  lemma ReadsLabel(information: Option<Label>, rest: seq<Token>)
    requires Head(rest) != Identifier("flow")
    ensures ParseLabel(TokensIn(LabelPieces(information)) + rest) == Parsed(information, rest)
  {
    match information
    case None =>
      assert TokensIn(LabelPieces(information)) + rest == rest;
    case Some(Public) =>
      ReadsPublic(rest);
    case Some(Secret(tenant, purpose)) =>
      ReadsSecret(tenant, purpose, rest);
  }

  lemma ReadsPublic(rest: seq<Token>)
    ensures ParseLabel(TokensIn(LabelPieces(Some(Public))) + rest) == Parsed(Some(Public), rest)
  {
    var ts := TokensIn(LabelPieces(Some(Public))) + rest;
    assert ts[4..] == rest;
    assert ts[1..4] == [LeftBracket, Identifier("public"), RightBracket];
  }

  lemma ReadsSecret(tenant: string, purpose: string, rest: seq<Token>)
    ensures ParseLabel(TokensIn(LabelPieces(Some(Secret(tenant, purpose)))) + rest) == Parsed(Some(Secret(tenant, purpose)), rest)
  {
    var ts := TokensIn(LabelPieces(Some(Secret(tenant, purpose)))) + rest;
    SecretTokens(tenant, purpose, rest);
    hide LabelPieces;
    assert ts[1..][1] == Identifier("secret") && "public"[0] != "secret"[0];
  }

  lemma ReadsParameter(p: Parameter, lead: string, rest: seq<Token>)
    requires Head(rest) != Identifier("flow")
    ensures ParseParameter(TokensIn(ParameterPieces(p, lead)) + rest) == Parsed(p, rest)
  {
    ParameterTokens(p, lead, rest);
    ReadsLabel(p.information, rest);
    ParameterStep(p, TokensIn(LabelPieces(p.information)) + rest, rest);
  }

  lemma ParameterTokens(p: Parameter, lead: string, rest: seq<Token>)
    ensures TokensIn(ParameterPieces(p, lead)) + rest ==
            [Identifier(p.name), Colon] + ([TypeToken(p.valueType)] + (TokensIn(LabelPieces(p.information)) + rest))
  {
    var name, colon, ty := Piece(lead, Identifier(p.name)), Close(Colon), Spaced(TypeToken(p.valueType));
    Chain2([name, colon, ty], LabelPieces(p.information), rest);
    Three(name, colon, ty);
    Front3Splits(Identifier(p.name), Colon, TypeToken(p.valueType), TokensIn(LabelPieces(p.information)) + rest);
  }

  /** A parameter, part by part. */
  lemma ParameterStep(p: Parameter, r1: seq<Token>, rest: seq<Token>)
    requires ParseLabel(r1) == Parsed(p.information, rest)
    ensures ParseParameter([Identifier(p.name), Colon] + ([TypeToken(p.valueType)] + r1)) == Parsed(p, rest)
  {
    Front2(Identifier(p.name), Colon, [TypeToken(p.valueType)] + r1);
    ReadsType(p.valueType, r1);
  }

  lemma ParameterListStep(first: seq<Token>, p: Parameter, more: seq<Token>, tail: seq<Parameter>, rest: seq<Token>)
    requires ParseParameter(first + ([Comma] + more)) == Parsed(p, [Comma] + more)
    requires ParseParameterList(more) == Parsed(tail, rest)
    ensures ParseParameterList(first + ([Comma] + more)) == Parsed([p] + tail, rest)
  {
    Front1(Comma, more);
  }

  lemma ParameterListTokens(ps: seq<Parameter>, lead: string, rest: seq<Token>)
    requires |ps| > 1
    ensures TokensIn(ParameterListPieces(ps, lead)) + rest ==
            TokensIn(ParameterPieces(ps[0], lead)) + ([Comma] + (TokensIn(ParameterListPieces(ps[1..], " ")) + rest))
  {
    ChainItem(ParameterPieces(ps[0], lead), ParameterListPieces(ps[1..], " "), rest);
  }

  lemma {:induction false} ReadsParameterList(ps: seq<Parameter>, lead: string, rest: seq<Token>)
    requires ps != [] && Head(rest) == RightParen
    ensures ParseParameterList(TokensIn(ParameterListPieces(ps, lead)) + rest) == Parsed(ps, rest)
    decreases |ps|
  {
    if |ps| == 1 {
      ReadsParameter(ps[0], lead, rest);
      assert ps == [ps[0]];
    } else {
      var more := TokensIn(ParameterListPieces(ps[1..], " ")) + rest;
      ParameterListTokens(ps, lead, rest);
      ReadsParameter(ps[0], lead, [Comma] + more);
      ReadsParameterList(ps[1..], " ", rest);
      ParameterListStep(TokensIn(ParameterPieces(ps[0], lead)), ps[0], more, ps[1..], rest);
      FirstAndRest(ps);
    }
  }

  lemma ReadsParameters(ps: seq<Parameter>, rest: seq<Token>)
    ensures ParseParameters([LeftParen] + (TokensIn(ParameterListPieces(ps, "")) + ([RightParen] + rest))) == Parsed(ps, rest)
  {
    var list := TokensIn(ParameterListPieces(ps, ""));
    Front1(RightParen, rest);
    Front1(LeftParen, list + ([RightParen] + rest));
    if ps == [] {
      NothingBefore(list, [RightParen] + rest);
      Front2(LeftParen, RightParen, rest);
      Front2Splits(LeftParen, RightParen, rest);
    } else {
      ReadsParameterList(ps, "", [RightParen] + rest);
      ParameterListBegins(ps, [RightParen] + rest);
    }
  }

  lemma Front2Splits(a: Token, b: Token, rest: seq<Token>)
    ensures [a, b] + rest == [a] + ([b] + rest)
  {
  }

  lemma Front3Splits(a: Token, b: Token, c: Token, rest: seq<Token>)
    ensures [a, b, c] + rest == [a, b] + ([c] + rest)
  {
  }

  lemma ParameterListBegins(ps: seq<Parameter>, rest: seq<Token>)
    requires ps != []
    ensures Head(TokensIn(ParameterListPieces(ps, "")) + rest) == Identifier(ps[0].name)
  {
    assert TokensIn(ParameterListPieces(ps, ""))[0] == Identifier(ps[0].name);
  }

  lemma {:induction false} ReadsNameList(names: seq<string>, lead: string, rest: seq<Token>)
    requires names != [] && Head(rest) == RightBracket
    ensures ParseNameList(TokensIn(NameListPieces(names, lead)) + rest) == Parsed(names, rest)
    decreases |names|
  {
    var first := Piece(lead, Identifier(names[0]));
    if |names| == 1 {
      One(first);
      Front1(Identifier(names[0]), rest);
      assert names == [names[0]];
    } else {
      var more := NameListPieces(names[1..], " ");
      Chain2([first, Close(Comma)], more, rest);
      Two(first, Close(Comma));
      Front2(Identifier(names[0]), Comma, TokensIn(more) + rest);
      ReadsNameList(names[1..], " ", rest);
      FirstAndRest(names);
    }
  }

  lemma ReadsEffects(effects: seq<string>, rest: seq<Token>)
    ensures ParseEffects([LeftBracket] + (TokensIn(NameListPieces(effects, "")) + ([RightBracket] + rest))) == Parsed(effects, rest)
  {
    var list := TokensIn(NameListPieces(effects, ""));
    Front1(RightBracket, rest);
    Front1(LeftBracket, list + ([RightBracket] + rest));
    if effects == [] {
      NothingBefore(list, [RightBracket] + rest);
      Front2(LeftBracket, RightBracket, rest);
      Front2Splits(LeftBracket, RightBracket, rest);
    } else {
      ReadsNameList(effects, "", [RightBracket] + rest);
      assert list[0] == Identifier(effects[0]);
    }
  }

  lemma AuthorityListStep(first: Authority, more: seq<Token>, tail: seq<Authority>, rest: seq<Token>)
    requires ParseAuthorityList(more) == Parsed(tail, rest)
    ensures ParseAuthorityList([Identifier(first.name), Colon, Identifier(first.effect)] + ([Comma] + more)) ==
            Parsed([first] + tail, rest)
  {
    var ts := [Identifier(first.name), Colon, Identifier(first.effect)] + ([Comma] + more);
    Front3(Identifier(first.name), Colon, Identifier(first.effect), [Comma] + more);
    Front1(Comma, more);
    assert ts[4..] == ts[3..][1..];
  }

  lemma AuthorityListTokens(items: seq<Authority>, lead: string, rest: seq<Token>)
    requires |items| > 1
    ensures TokensIn(AuthorityListPieces(items, lead)) + rest ==
            TokensIn(AuthorityPieces(items[0], lead)) + ([Comma] + (TokensIn(AuthorityListPieces(items[1..], " ")) + rest))
  {
    ChainItem(AuthorityPieces(items[0], lead), AuthorityListPieces(items[1..], " "), rest);
  }

  lemma ReadsOneAuthority(a: Authority, lead: string, rest: seq<Token>)
    requires Head(rest) == RightBracket
    ensures ParseAuthorityList(TokensIn(AuthorityPieces(a, lead)) + rest) == Parsed([a], rest)
  {
    Three(Piece(lead, Identifier(a.name)), Close(Colon), Spaced(Identifier(a.effect)));
    Front3(Identifier(a.name), Colon, Identifier(a.effect), rest);
  }

  lemma {:induction false} ReadsAuthorityList(items: seq<Authority>, lead: string, rest: seq<Token>)
    requires items != [] && Head(rest) == RightBracket
    ensures ParseAuthorityList(TokensIn(AuthorityListPieces(items, lead)) + rest) == Parsed(items, rest)
    decreases |items|
  {
    if |items| == 1 {
      ReadsOneAuthority(items[0], lead, rest);
      assert items == [items[0]];
    } else {
      var more := TokensIn(AuthorityListPieces(items[1..], " ")) + rest;
      AuthorityListTokens(items, lead, rest);
      Three(Piece(lead, Identifier(items[0].name)), Close(Colon), Spaced(Identifier(items[0].effect)));
      ReadsAuthorityList(items[1..], " ", rest);
      AuthorityListStep(items[0], more, items[1..], rest);
      FirstAndRest(items);
    }
  }

  lemma ReadsAuthorities(authorities: Option<seq<Authority>>, rest: seq<Token>)
    requires Head(rest) != Identifier("authorities")
    ensures ParseAuthorities(TokensIn(AuthoritiesPieces(authorities)) + rest) == Parsed(authorities, rest)
  {
    if authorities.None? {
      assert TokensIn(AuthoritiesPieces(authorities)) + rest == rest;
    } else {
      ReadsSlots(authorities.value, rest);
    }
  }

  lemma ReadsSlots(items: seq<Authority>, rest: seq<Token>)
    ensures ParseAuthorities(TokensIn(AuthoritiesPieces(Some(items))) + rest) == Parsed(Some(items), rest)
  {
    var list := TokensIn(AuthorityListPieces(items, ""));
    SlotsTokens(items, rest);
    Front1(RightBracket, rest);
    if items == [] {
      NothingBefore(list, [RightBracket] + rest);
      EmptySlotsStep(rest);
    } else {
      ReadsAuthorityList(items, "", [RightBracket] + rest);
      AuthorityListBegins(items, [RightBracket] + rest);
      SlotsStep(items, list + ([RightBracket] + rest), rest);
    }
  }

  lemma SlotsTokens(items: seq<Authority>, rest: seq<Token>)
    ensures TokensIn(AuthoritiesPieces(Some(items))) + rest ==
            [Identifier("authorities"), LeftBracket] + (TokensIn(AuthorityListPieces(items, "")) + ([RightBracket] + rest))
  {
    var word := Identifier("authorities");
    Chain3([Spaced(word), Spaced(LeftBracket)], AuthorityListPieces(items, ""), [Close(RightBracket)], rest);
    Two(Spaced(word), Spaced(LeftBracket));
    One(Close(RightBracket));
  }

  lemma EmptySlotsStep(rest: seq<Token>)
    ensures ParseAuthorities([Identifier("authorities"), LeftBracket] + ([RightBracket] + rest)) == Parsed(Some([]), rest)
  {
    var word := Identifier("authorities");
    Front3(word, LeftBracket, RightBracket, rest);
    Front3Splits(word, LeftBracket, RightBracket, rest);
    Front2(word, LeftBracket, [RightBracket] + rest);
  }

  lemma SlotsStep(items: seq<Authority>, list: seq<Token>, rest: seq<Token>)
    requires ParseAuthorityList(list) == Parsed(items, [RightBracket] + rest) && Head(list) != RightBracket
    ensures ParseAuthorities([Identifier("authorities"), LeftBracket] + list) == Parsed(Some(items), rest)
  {
    Front2(Identifier("authorities"), LeftBracket, list);
    Front1(RightBracket, rest);
  }

  lemma NothingBefore(none: seq<Token>, rest: seq<Token>)
    requires none == []
    ensures none + rest == rest
  {
  }

  lemma AuthorityListBegins(items: seq<Authority>, rest: seq<Token>)
    requires items != []
    ensures Head(TokensIn(AuthorityListPieces(items, "")) + rest) == Identifier(items[0].name)
  {
    assert TokensIn(AuthorityListPieces(items, ""))[0] == Identifier(items[0].name);
  }

  // ---------- statements ----------

  /** A let statement, part by part. */
  lemma LetStep(name: string, ty: Type, information: Option<Label>, value: Expression<i64>, r1: seq<Token>, r2: seq<Token>, rest: seq<Token>)
    requires ParseLabel(r1) == Parsed(information, [Assign] + r2)
    requires ParseLevel(1, r2) == Parsed(value, [Semicolon] + rest)
    ensures ParseLet([KwLet, Identifier(name), Colon] + ([TypeToken(ty)] + r1)) ==
            Parsed(LetStatement(name, ty, information, value), rest)
  {
    Front3(KwLet, Identifier(name), Colon, [TypeToken(ty)] + r1);
    ReadsType(ty, r1);
    Front1(Assign, r2);
    Front1(Semicolon, rest);
  }

  lemma LetTokens(s: Statement<i64>, lead: string, rest: seq<Token>)
    requires s.LetStatement?
    ensures TokensIn(LetPieces(s, lead)) + rest ==
            [KwLet, Identifier(s.name), Colon] +
            ([TypeToken(s.valueType)] +
             (TokensIn(LabelPieces(s.information)) + ([Assign] + (ExpressionTokens(s.value, 0, " ") + ([Semicolon] + rest)))))
  {
    var head := [Piece(lead, KwLet), Spaced(Identifier(s.name)), Close(Colon), Spaced(TypeToken(s.valueType))];
    Chain5(head, LabelPieces(s.information), [Spaced(Assign)], ExpressionPieces(s.value, 0, " "), [Close(Semicolon)], rest);
    One(Spaced(Assign));
    One(Close(Semicolon));
    assert head == head[..3] + [head[3]] && head[..3] == [head[0], head[1], head[2]];
    Three(head[0], head[1], head[2]);
    One(head[3]);
    Chain2(head[..3], [head[3]],
           TokensIn(LabelPieces(s.information)) + ([Assign] + (ExpressionTokens(s.value, 0, " ") + ([Semicolon] + rest))));
  }

  lemma ReadsLet(s: Statement<i64>, lead: string, rest: seq<Token>)
    requires s.LetStatement?
    ensures ParseLet(TokensIn(LetPieces(s, lead)) + rest) == Parsed(s, rest)
  {
    var r2 := ExpressionTokens(s.value, 0, " ") + ([Semicolon] + rest);
    Front1(Semicolon, rest);
    Front1(Assign, r2);
    ReadsExpression(s.value, " ", [Semicolon] + rest);
    ReadsLabel(s.information, [Assign] + r2);
    LetTokens(s, lead, rest);
    LetStep(s.name, s.valueType, s.information, s.value, TokensIn(LabelPieces(s.information)) + ([Assign] + r2), r2, rest);
  }

  lemma ReadsReturn(result: Option<Expression<i64>>, lead: string, rest: seq<Token>)
    ensures ParseReturn(TokensIn(StatementPieces(ReturnStatement(result), lead)) + rest) == Parsed(ReturnStatement(result), rest)
  {
    match result
    case None =>
      Two(Piece(lead, KwReturn), Close(Semicolon));
      Front2(KwReturn, Semicolon, rest);
    case Some(e) =>
      ReturnTokens(e, lead, rest);
      ReturnStep(e, rest);
  }

  lemma ReturnTokens(e: Expression<i64>, lead: string, rest: seq<Token>)
    ensures TokensIn(StatementPieces(ReturnStatement(Some(e)), lead)) + rest ==
            [KwReturn] + (ExpressionTokens(e, 0, " ") + ([Semicolon] + rest))
  {
    Chain3([Piece(lead, KwReturn)], ExpressionPieces(e, 0, " "), [Close(Semicolon)], rest);
    One(Piece(lead, KwReturn));
    One(Close(Semicolon));
  }

  lemma ReturnStep(e: Expression<i64>, rest: seq<Token>)
    ensures ParseReturn([KwReturn] + (ExpressionTokens(e, 0, " ") + ([Semicolon] + rest))) == Parsed(ReturnStatement(Some(e)), rest)
  {
    var after := [Semicolon] + rest;
    var tokens := ExpressionTokens(e, 0, " ");
    Front1(KwReturn, tokens + after);
    Front1(Semicolon, rest);
    ExpressionBegins(e, 0, " ");
    assert Begins(Head(tokens + after));
    ReadsExpression(e, " ", after);
  }

  lemma ReadsUsing(authority: Option<string>, rest: seq<Token>)
    requires Head(rest) != Identifier("using")
    ensures ParseUsing(TokensIn(UsingPieces(authority)) + rest) == Parsed(authority, rest)
  {
    var ts := TokensIn(UsingPieces(authority)) + rest;
    match authority
    case None => assert ts == rest;
    case Some(name) => assert ts[1..][0] == Identifier(name) && ts[2..] == rest;
  }

  lemma LabelIsNotUsing(information: Option<Label>, rest: seq<Token>)
    requires Head(rest) == Semicolon
    ensures Head(TokensIn(LabelPieces(information)) + rest) != Identifier("using")
  {
    var ts := TokensIn(LabelPieces(information)) + rest;
    if information.None? {
      assert ts == rest;
    } else {
      assert ts[0] == Identifier("flow") && "flow"[0] != "using"[0];
    }
  }

  /** A request, part by part. */
  lemma RequestStep(effect: string, arguments: seq<Expression<i64>>, authority: Option<string>, information: Option<Label>,
                    call: seq<Token>, r1: seq<Token>, r2: seq<Token>, rest: seq<Token>)
    requires ParseArguments(call) == Parsed(arguments, r1) && ParseUsing(r1) == Parsed(authority, r2)
    requires ParseLabel(r2) == Parsed(information, [Semicolon] + rest)
    ensures ParseRequest([KwRequest, Identifier(effect)] + call) ==
            Parsed(RequestStatement(effect, authority, information, arguments), rest)
  {
    Front2(KwRequest, Identifier(effect), call);
    Front1(Semicolon, rest);
  }

  lemma RequestTokens(s: Statement<i64>, lead: string, rest: seq<Token>)
    requires s.RequestStatement?
    ensures TokensIn(RequestPieces(s, lead)) + rest ==
            [KwRequest, Identifier(s.effect)] +
            ([LeftParen] + TokensIn(ArgumentPieces(s.arguments, "")) + [RightParen] +
             (TokensIn(UsingPieces(s.authority)) + (TokensIn(LabelPieces(s.information)) + ([Semicolon] + rest))))
  {
    var head := [Piece(lead, KwRequest), Spaced(Identifier(s.effect)), Close(LeftParen)];
    var list := ArgumentPieces(s.arguments, "");
    var tail := TokensIn(UsingPieces(s.authority)) + (TokensIn(LabelPieces(s.information)) + ([Semicolon] + rest));
    Chain3(head + list + [Close(RightParen)] + UsingPieces(s.authority), LabelPieces(s.information), [Close(Semicolon)], rest);
    One(Close(Semicolon));
    Chain4(head, list, [Close(RightParen)], UsingPieces(s.authority), TokensIn(LabelPieces(s.information)) + ([Semicolon] + rest));
    One(Close(RightParen));
    Three(head[0], head[1], head[2]);
    RequestRegroups(KwRequest, Identifier(s.effect), TokensIn(list), tail);
  }

  lemma RequestRegroups(a: Token, b: Token, list: seq<Token>, tail: seq<Token>)
    ensures [a, b, LeftParen] + (list + ([RightParen] + tail)) == [a, b] + ([LeftParen] + list + [RightParen] + tail)
  {
  }

  lemma ReadsRequest(s: Statement<i64>, lead: string, rest: seq<Token>)
    requires s.RequestStatement?
    ensures ParseRequest(TokensIn(RequestPieces(s, lead)) + rest) == Parsed(s, rest)
  {
    var r3 := [Semicolon] + rest;
    var r2 := TokensIn(LabelPieces(s.information)) + r3;
    var r1 := TokensIn(UsingPieces(s.authority)) + r2;
    Front1(Semicolon, rest);
    ReadsArguments(s.arguments, r1);
    LabelIsNotUsing(s.information, r3);
    ReadsUsing(s.authority, r2);
    ReadsLabel(s.information, r3);
    RequestTokens(s, lead, rest);
    RequestStep(s.effect, s.arguments, s.authority, s.information,
                [LeftParen] + TokensIn(ArgumentPieces(s.arguments, "")) + [RightParen] + r1, r1, r2, rest);
  }

  lemma ReadsStatement(s: Statement<i64>, lead: string, rest: seq<Token>)
    ensures ParseStatement(TokensIn(StatementPieces(s, lead)) + rest) == Parsed(s, rest)
    ensures var t := Head(TokensIn(StatementPieces(s, lead)) + rest); t != RightBrace && t != Eof
  {
    hide ParseLet, ParseReturn, ParseRequest, ParseLevel, StatementPieces;
    match s
    case LetStatement(_, _, _, _) =>
      KeywordFirst(s, lead, rest);
      ReadsLet(s, lead, rest);
    case ReturnStatement(result) =>
      KeywordFirst(s, lead, rest);
      ReadsReturn(result, lead, rest);
    case RequestStatement(_, _, _, _) =>
      KeywordFirst(s, lead, rest);
      ReadsRequest(s, lead, rest);
    case ExpressionStatement(e) =>
      ExpressionStatementTokens(e, lead, rest);
      ReadsExpression(e, lead, [Semicolon] + rest);
  }

  lemma KeywordFirst(s: Statement<i64>, lead: string, rest: seq<Token>)
    requires !s.ExpressionStatement?
    ensures Head(TokensIn(StatementPieces(s, lead)) + rest) ==
            if s.LetStatement? then KwLet else if s.ReturnStatement? then KwReturn else KwRequest
    ensures s.LetStatement? ==> StatementPieces(s, lead) == LetPieces(s, lead)
    ensures s.RequestStatement? ==> StatementPieces(s, lead) == RequestPieces(s, lead)
  {
  }

  lemma ExpressionStatementTokens(e: Expression<i64>, lead: string, rest: seq<Token>)
    ensures var ts := TokensIn(StatementPieces(ExpressionStatement(e), lead)) + rest;
            && ts == ExpressionTokens(e, 0, lead) + ([Semicolon] + rest) && Begins(Head(ts))
    ensures Head([Semicolon] + rest) == Semicolon && ([Semicolon] + rest)[1..] == rest
  {
    Chain2(ExpressionPieces(e, 0, lead), [Close(Semicolon)], rest);
    One(Close(Semicolon));
    ExpressionBegins(e, 0, lead);
    Front1(Semicolon, rest);
  }

  lemma {:induction false} ReadsStatements(body: seq<Statement<i64>>, rest: seq<Token>)
    ensures ParseStatements(TokensIn(BodyPieces(body)) + ([RightBrace] + rest)) == Parsed(body, rest)
    decreases |body|
  {
    if body == [] {
      assert TokensIn(BodyPieces(body)) + ([RightBrace] + rest) == [RightBrace] + rest;
      Front1(RightBrace, rest);
    } else {
      var first, more := StatementPieces(body[0], "\n  "), BodyPieces(body[1..]);
      Chain2(first, more, [RightBrace] + rest);
      ReadsStatement(body[0], "\n  ", TokensIn(more) + ([RightBrace] + rest));
      ReadsStatements(body[1..], rest);
      FirstAndRest(body);
    }
  }

  // ---------- functions and programs ----------

  lemma SignatureStep(name: string, parameters: seq<Parameter>, ty: Type, information: Option<Label>,
                      call: seq<Token>, r2: seq<Token>, rest: seq<Token>)
    requires ParseParameters(call) == Parsed(parameters, [Arrow] + ([TypeToken(ty)] + r2))
    requires ParseLabel(r2) == Parsed(information, rest)
    ensures ParseSignature([KwFn, Identifier(name)] + call) == Parsed(Signature(name, parameters, ty, information), rest)
  {
    Front2(KwFn, Identifier(name), call);
    Front1(Arrow, [TypeToken(ty)] + r2);
    ReadsType(ty, r2);
  }

  lemma SignatureTokens(f: Function<i64>, rest: seq<Token>)
    ensures TokensIn(SignaturePieces(f)) + rest ==
            [KwFn, Identifier(f.name)] +
            ([LeftParen] + (TokensIn(ParameterListPieces(f.parameters, "")) + ([RightParen] +
             ([Arrow] + ([TypeToken(f.returnType)] + (TokensIn(LabelPieces(f.returnInformation)) + rest))))))
  {
    var head := [Piece("\n\n", KwFn), Spaced(Identifier(f.name)), Close(LeftParen)];
    var list := ParameterListPieces(f.parameters, "");
    var middle := [Close(RightParen), Spaced(Arrow), Spaced(TypeToken(f.returnType))];
    var tail := TokensIn(LabelPieces(f.returnInformation)) + rest;
    Chain4(head, list, middle, LabelPieces(f.returnInformation), rest);
    Three(head[0], head[1], head[2]);
    Three(middle[0], middle[1], middle[2]);
    assert [RightParen, Arrow, TypeToken(f.returnType)] + tail == [RightParen] + ([Arrow] + ([TypeToken(f.returnType)] + tail));
    Front3Splits(KwFn, Identifier(f.name), LeftParen, TokensIn(list) + ([RightParen, Arrow, TypeToken(f.returnType)] + tail));
  }

  lemma ReadsSignature(f: Function<i64>, rest: seq<Token>)
    requires Head(rest) != Identifier("flow")
    ensures ParseSignature(TokensIn(SignaturePieces(f)) + rest) ==
            Parsed(Signature(f.name, f.parameters, f.returnType, f.returnInformation), rest)
  {
    var r2 := TokensIn(LabelPieces(f.returnInformation)) + rest;
    var r1 := [Arrow] + ([TypeToken(f.returnType)] + r2);
    ReadsParameters(f.parameters, r1);
    ReadsLabel(f.returnInformation, rest);
    SignatureTokens(f, rest);
    SignatureStep(f.name, f.parameters, f.returnType, f.returnInformation,
                  [LeftParen] + (TokensIn(ParameterListPieces(f.parameters, "")) + ([RightParen] + r1)), r2, rest);
  }

  lemma RowsTokens(f: Function<i64>, rest: seq<Token>)
    ensures TokensIn(RowsPieces(f)) + rest ==
            [KwEffects] + ([LeftBracket] + (TokensIn(NameListPieces(f.effects, "")) + ([RightBracket] +
             (TokensIn(AuthoritiesPieces(f.authorities)) + rest))))
  {
    var list := NameListPieces(f.effects, "");
    Chain4([Spaced(KwEffects), Spaced(LeftBracket)], list, [Close(RightBracket)], AuthoritiesPieces(f.authorities), rest);
    Two(Spaced(KwEffects), Spaced(LeftBracket));
    One(Close(RightBracket));
    var tail := TokensIn(list) + ([RightBracket] + (TokensIn(AuthoritiesPieces(f.authorities)) + rest));
    assert [KwEffects, LeftBracket] + tail == [KwEffects] + ([LeftBracket] + tail);
  }

  lemma ReadsRows(f: Function<i64>, rest: seq<Token>)
    requires Head(rest) == LeftBrace
    ensures ParseRows(TokensIn(RowsPieces(f)) + rest) == Parsed(Rows(f.effects, f.authorities), rest)
    ensures Head(TokensIn(RowsPieces(f)) + rest) == KwEffects
  {
    var r1 := TokensIn(AuthoritiesPieces(f.authorities)) + rest;
    var row := [LeftBracket] + (TokensIn(NameListPieces(f.effects, "")) + ([RightBracket] + r1));
    RowsTokens(f, rest);
    Front1(KwEffects, row);
    ReadsEffects(f.effects, r1);
    ReadsAuthorities(f.authorities, rest);
  }

  lemma FunctionTokens(f: Function<i64>, rest: seq<Token>)
    ensures TokensIn(FunctionPieces(f)) + rest ==
            TokensIn(SignaturePieces(f)) + (TokensIn(RowsPieces(f)) +
             ([LeftBrace] + (TokensIn(BodyPieces(f.body)) + ([RightBrace] + rest))))
  {
    Chain5(SignaturePieces(f), RowsPieces(f), [Spaced(LeftBrace)], BodyPieces(f.body), [Piece("\n", RightBrace)], rest);
    One(Spaced(LeftBrace));
    One(Piece("\n", RightBrace));
  }

  lemma ReadsFunction(f: Function<i64>, rest: seq<Token>)
    ensures ParseFunction(TokensIn(FunctionPieces(f)) + rest) == Parsed(f, rest)
    ensures Head(TokensIn(FunctionPieces(f)) + rest) == KwFn
  {
    var body := TokensIn(BodyPieces(f.body)) + ([RightBrace] + rest);
    var r2 := [LeftBrace] + body;
    var r1 := TokensIn(RowsPieces(f)) + r2;
    hide ParseSignature, ParseRows, ParseStatements, FunctionPieces, SignaturePieces, RowsPieces, BodyPieces;
    FunctionTokens(f, rest);
    Front1(LeftBrace, body);
    ReadsRows(f, r2);
    ReadsSignature(f, r1);
    ReadsStatements(f.body, rest);
    SignatureBegins(f, r1);
  }

  lemma SignatureBegins(f: Function<i64>, rest: seq<Token>)
    ensures Head(TokensIn(SignaturePieces(f)) + rest) == KwFn
  {
    assert TokensIn(SignaturePieces(f))[0] == KwFn;
  }

  lemma {:induction false} ReadsFunctions(fs: seq<Function<i64>>)
    ensures ParseFunctions(TokensIn(FunctionsPieces(fs)) + [Eof]) == Parsed(fs, [Eof])
    decreases |fs|
  {
    hide ParseFunction, FunctionPieces;
    if fs == [] {
      NothingBefore(TokensIn(FunctionsPieces(fs)), [Eof]);
    } else {
      Chain2(FunctionPieces(fs[0]), FunctionsPieces(fs[1..]), [Eof]);
      ReadsFunction(fs[0], TokensIn(FunctionsPieces(fs[1..])) + [Eof]);
      ReadsFunctions(fs[1..]);
      FirstAndRest(fs);
    }
  }

  lemma HeaderTokens(p: Program, rest: seq<Token>)
    ensures TokensIn(HeaderPieces(p)) + rest ==
            [KwModule, Identifier(p.moduleName)] +
            (if p.informationFlow then [Identifier("flow")] + ([Semicolon] + rest) else [Semicolon] + rest)
  {
    var profile := if p.informationFlow then [Spaced(Identifier("flow"))] else [];
    Chain3([Close(KwModule), Spaced(Identifier(p.moduleName))], profile, [Close(Semicolon)], rest);
    Two(Close(KwModule), Spaced(Identifier(p.moduleName)));
    One(Close(Semicolon));
    if p.informationFlow {
      One(Spaced(Identifier("flow")));
    } else {
      assert TokensIn(profile) + ([Semicolon] + rest) == [Semicolon] + rest;
    }
  }

  lemma ModuleStep(p: Program, after: seq<Token>)
    requires ParseFunctions(after) == Parsed(p.functions, [Eof]) && p.functions != []
    ensures ParseModule([KwModule, Identifier(p.moduleName)] +
                        (if p.informationFlow then [Identifier("flow")] + ([Semicolon] + after) else [Semicolon] + after)) == Some(p)
  {
    if p.informationFlow {
      FlowModuleStep(p, after);
    } else {
      PlainModuleStep(p, after);
    }
  }

  lemma FlowModuleStep(p: Program, after: seq<Token>)
    requires ParseFunctions(after) == Parsed(p.functions, [Eof]) && p.functions != [] && p.informationFlow
    ensures ParseModule([KwModule, Identifier(p.moduleName)] + ([Identifier("flow")] + ([Semicolon] + after))) == Some(p)
  {
    hide ParseFunctions;
    Front1(Semicolon, after);
    FlowModule(p.moduleName, [Semicolon] + after);
  }

  lemma PlainModuleStep(p: Program, after: seq<Token>)
    requires ParseFunctions(after) == Parsed(p.functions, [Eof]) && p.functions != [] && !p.informationFlow
    ensures ParseModule([KwModule, Identifier(p.moduleName)] + ([Semicolon] + after)) == Some(p)
  {
    hide ParseFunctions;
    Front1(Semicolon, after);
    Front2(KwModule, Identifier(p.moduleName), [Semicolon] + after);
  }

  lemma FlowModule(name: string, rest: seq<Token>)
    ensures var ts := [KwModule, Identifier(name)] + ([Identifier("flow")] + rest);
            && Head(ts) == KwModule && Head(ts[1..]) == Identifier(name) && ts[1] == Identifier(name)
            && Head(ts[2..]) == Identifier("flow") && ts[3..] == rest
  {
    var ts := [KwModule, Identifier(name)] + ([Identifier("flow")] + rest);
    assert ts == [KwModule, Identifier(name), Identifier("flow")] + rest;
  }

  /** Parsing the tokens of a printed program gives the program back. */
  lemma ReadsModule(p: Program)
    requires p.functions != []
    ensures ParseModule(TokensIn(ProgramPieces(p)) + [Eof]) == Some(p)
  {
    var after := TokensIn(FunctionsPieces(p.functions)) + [Eof];
    Chain2(HeaderPieces(p), FunctionsPieces(p.functions), [Eof]);
    HeaderTokens(p, after);
    ReadsFunctions(p.functions);
    ModuleStep(p, after);
  }
}
