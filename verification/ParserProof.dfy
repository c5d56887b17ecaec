/** Parsing undoes printing: exactly the trees with enough parentheses come back. */
module ParserProof {
  import opened Syntax
  import opened Parser
  import opened Values

  lemma TailIsLower(e: Expr)
    ensures Tail(e) <= Level(e) && Tail(e) >= 1
  {
  }

  // --- Tokens of the forms, before other tokens ---

  lemma ParenTokens(a: Expr, rest: seq<Token>)
    ensures Unparse(Paren(a)) + rest == [TokLParen] + (Unparse(a) + ([TokRParen] + rest))
  {
  }

  lemma PrefixTokens(op: UnaryOp, a: Expr, rest: seq<Token>)
    requires !op.IsPostfix()
    ensures Unparse(Unary(op, a)) + rest == [UnaryToken(op)] + (Unparse(a) + rest)
  {
  }

  lemma BinaryTokens(op: BinaryOp, l: Expr, r: Expr, rest: seq<Token>)
    ensures Unparse(Binary(op, l, r)) + rest == Unparse(l) + ([TokOp(op)] + (Unparse(r) + rest))
  {
  }

  lemma ConditionalTokens(c: Expr, a: Expr, b: Expr, rest: seq<Token>)
    ensures Unparse(Conditional(c, a, b)) + rest ==
            Unparse(c) + ([TokQuestion] + (Unparse(a) + ([TokColon] + (Unparse(b) + rest))))
  {
    var colon := [TokColon] + Unparse(b);
    assert colon + rest == [TokColon] + (Unparse(b) + rest);
    assert (Unparse(a) + colon) + rest == Unparse(a) + (colon + rest);
    var choice := [TokQuestion] + (Unparse(a) + colon);
    assert choice + rest == [TokQuestion] + ((Unparse(a) + colon) + rest);
    assert (Unparse(c) + choice) + rest == Unparse(c) + (choice + rest);
  }

  lemma IndexTokens(a: Expr, i: Expr, rest: seq<Token>)
    ensures Unparse(Index(a, i)) + rest == Unparse(a) + ([TokLBracket] + (Unparse(i) + ([TokRBracket] + rest)))
  {
    var index := [TokLBracket] + (Unparse(i) + [TokRBracket]);
    assert index + rest == [TokLBracket] + (Unparse(i) + ([TokRBracket] + rest));
    assert (Unparse(a) + index) + rest == Unparse(a) + (index + rest);
  }

  lemma CallTokens(f: Expr, args: seq<Expr>, rest: seq<Token>)
    ensures Unparse(Call(f, args)) + rest == Unparse(f) + ([TokLParen] + (UnparseArgs(args) + ([TokRParen] + rest)))
  {
    var call := [TokLParen] + (UnparseArgs(args) + [TokRParen]);
    assert call + rest == [TokLParen] + (UnparseArgs(args) + ([TokRParen] + rest));
    assert (Unparse(f) + call) + rest == Unparse(f) + (call + rest);
  }

  lemma {:induction false} ArgsTokens(arg: Expr, args: seq<Expr>, rest: seq<Token>)
    requires args != []
    ensures UnparseArgs([arg] + args) + rest == Unparse(arg) + ([TokOp(OpComma)] + (UnparseArgs(args) + rest))
  {
    assert ([arg] + args)[1..] == args;
    var more := [TokOp(OpComma)] + UnparseArgs(args);
    assert (Unparse(arg) + more) + rest == Unparse(arg) + (more + rest);
  }

  lemma Behind(t: Token, toks: seq<Token>)
    ensures ([t] + toks)[1..] == toks
  {
  }

  // --- Printing, then parsing ---

  /** The tokens of a tree parse to the tree, and the loop goes on behind it. */
  lemma {:induction false} ParsesTree(e: Expr, rest: seq<Token>, prec: nat)
    requires Wrapped(e) && Fits(e, prec) && prec <= UNARY && Prec(rest) <= Tail(e)
    ensures ParseExpr(Unparse(e) + rest, prec) == ParseLoop(e, rest, prec)
    decreases e, 2
  {
    match e
    case Constant(v) => assert ([TokInt(v)] + rest)[1..] == rest;
    case StringLiteral(s) => assert ([TokString(s)] + rest)[1..] == rest;
    case CharLiteral(s) => assert ([TokCharLit(s)] + rest)[1..] == rest;
    case Variable(x) => assert ([TokIdent(x)] + rest)[1..] == rest;
    case Unary(op, a) => if op.IsPostfix() { PostfixParses(e, rest, prec); } else { PrefixParses(e, rest, prec); }
    case Binary(_, _, _) => BinaryParses(e, rest, prec);
    case Paren(a) => ParenParses(e, rest, prec);
    case Conditional(_, _, _) => ConditionalParses(e, rest, prec);
    case Call(_, _) => CallParses(e, rest, prec);
    case Index(_, _) => IndexParses(e, rest, prec);
    case Member(_, _, _) => MemberParses(e, rest, prec);
    case SizeofExpr(a) => SizeofParses(e, rest, prec);
  }

  /** A tree that nothing more can join. */
  lemma {:induction false} ParsesWhole(e: Expr, rest: seq<Token>, prec: nat)
    requires Wrapped(e) && Fits(e, prec) && prec <= UNARY && Prec(rest) <= prec && Prec(rest) <= Tail(e)
    ensures ParseExpr(Unparse(e) + rest, prec) == Ok(e, rest)
    decreases e, 3
  {
    ParsesTree(e, rest, prec);
  }

  lemma {:induction false} PrefixParses(e: Expr, rest: seq<Token>, prec: nat)
    requires e.Unary? && !e.uop.IsPostfix() && Wrapped(e) && Prec(rest) <= Tail(e)
    ensures ParseExpr(Unparse(e) + rest, prec) == ParseLoop(e, rest, prec)
    decreases e, 0
  {
    PrefixTokens(e.uop, e.arg, rest);
    Behind(UnaryToken(e.uop), Unparse(e.arg) + rest);
    ParsesWhole(e.arg, rest, UNARY);
    assert ParsePrefix(Unparse(e) + rest) == Ok(e, rest);
  }

  lemma {:induction false} SizeofParses(e: Expr, rest: seq<Token>, prec: nat)
    requires e.SizeofExpr? && Wrapped(e) && Prec(rest) <= Tail(e)
    ensures ParseExpr(Unparse(e) + rest, prec) == ParseLoop(e, rest, prec)
    decreases e, 0
  {
    assert Unparse(e) + rest == [TokSizeof] + (Unparse(e.operand) + rest);
    assert ([TokSizeof] + (Unparse(e.operand) + rest))[1..] == Unparse(e.operand) + rest;
    ParsesWhole(e.operand, rest, UNARY);
    assert ParsePrefix(Unparse(e) + rest) == Ok(e, rest);
  }

  lemma ExpectFinds(t: Token, rest: seq<Token>)
    ensures Expect([t] + rest, t) == Ok(t, rest)
  {
    assert ([t] + rest)[1..] == rest;
  }

  lemma {:induction false} ParenParses(e: Expr, rest: seq<Token>, prec: nat)
    requires e.Paren? && Wrapped(e)
    ensures ParseExpr(Unparse(e) + rest, prec) == ParseLoop(e, rest, prec)
    decreases e, 0
  {
    var close := [TokRParen] + rest;
    ParenTokens(e.inner, rest);
    Behind(TokLParen, Unparse(e.inner) + close);
    TailIsLower(e.inner);
    ParsesWhole(e.inner, close, LOWEST);
    ExpectFinds(TokRParen, rest);
    assert ParsePrefix(Unparse(e) + rest) == Ok(e, rest);
  }

  /** After its first operand, an infix or postfix form is parsed by the loop. */
  lemma LoopGoesOn(l: Expr, e: Expr, toks: seq<Token>, rest: seq<Token>, prec: nat)
    requires Prec(toks) > prec && ParseInfix(l, toks) == Ok(e, rest)
    ensures ParseLoop(l, toks, prec) == ParseLoop(e, rest, prec)
  {
  }

  lemma {:induction false} PostfixParses(e: Expr, rest: seq<Token>, prec: nat)
    requires e.Unary? && e.uop.IsPostfix() && Wrapped(e) && prec <= UNARY
    ensures ParseExpr(Unparse(e) + rest, prec) == ParseLoop(e, rest, prec)
    decreases e, 0
  {
    var toks := [UnaryToken(e.uop)] + rest;
    assert Unparse(e) + rest == Unparse(e.arg) + toks;
    assert toks[1..] == rest;
    ParsesTree(e.arg, toks, prec);
    LoopGoesOn(e.arg, e, toks, rest, prec);
  }

  lemma {:induction false} BinaryParses(e: Expr, rest: seq<Token>, prec: nat)
    requires e.Binary? && Wrapped(e) && Level(e) > prec && prec <= UNARY && Prec(rest) <= Tail(e)
    ensures ParseExpr(Unparse(e) + rest, prec) == ParseLoop(e, rest, prec)
    decreases e, 0
  {
    var toks := [TokOp(e.op)] + (Unparse(e.right) + rest);
    BinaryTokens(e.op, e.left, e.right, rest);
    Behind(TokOp(e.op), Unparse(e.right) + rest);
    ParsesTree(e.left, toks, prec);
    ParsesWhole(e.right, rest, Tail(e));
    LoopGoesOn(e.left, e, toks, rest, prec);
  }

  lemma {:induction false} ConditionalParses(e: Expr, rest: seq<Token>, prec: nat)
    requires e.Conditional? && Wrapped(e) && TERNARY > prec && Prec(rest) <= Tail(e)
    ensures ParseExpr(Unparse(e) + rest, prec) == ParseLoop(e, rest, prec)
    decreases e, 1
  {
    var colon := [TokColon] + (Unparse(e.elseExpr) + rest);
    var toks := [TokQuestion] + (Unparse(e.thenExpr) + colon);
    ConditionalTokens(e.cond, e.thenExpr, e.elseExpr, rest);
    ParsesTree(e.cond, toks, prec);
    TernaryParses(e, rest);
    LoopGoesOn(e.cond, e, toks, rest, prec);
  }

  lemma {:induction false} TernaryParses(e: Expr, rest: seq<Token>)
    requires e.Conditional? && Wrapped(e) && Prec(rest) <= Tail(e)
    ensures ParseTernary(e.cond, [TokQuestion] + (Unparse(e.thenExpr) + ([TokColon] + (Unparse(e.elseExpr) + rest)))) == Ok(e, rest)
    decreases e, 0
  {
    var colon := [TokColon] + (Unparse(e.elseExpr) + rest);
    Behind(TokQuestion, Unparse(e.thenExpr) + colon);
    TailIsLower(e.thenExpr);
    ParsesWhole(e.thenExpr, colon, LOWEST);
    ExpectFinds(TokColon, Unparse(e.elseExpr) + rest);
    ParsesWhole(e.elseExpr, rest, TERNARY - 1);
  }

  lemma {:induction false} IndexParses(e: Expr, rest: seq<Token>, prec: nat)
    requires e.Index? && Wrapped(e) && prec <= UNARY
    ensures ParseExpr(Unparse(e) + rest, prec) == ParseLoop(e, rest, prec)
    decreases e, 0
  {
    var close := [TokRBracket] + rest;
    var toks := [TokLBracket] + (Unparse(e.index) + close);
    IndexTokens(e.arr, e.index, rest);
    Behind(TokLBracket, Unparse(e.index) + close);
    ParsesTree(e.arr, toks, prec);
    TailIsLower(e.index);
    ParsesWhole(e.index, close, LOWEST);
    ExpectFinds(TokRBracket, rest);
    LoopGoesOn(e.arr, e, toks, rest, prec);
  }

  lemma {:induction false} MemberParses(e: Expr, rest: seq<Token>, prec: nat)
    requires e.Member? && Wrapped(e) && prec <= UNARY
    ensures ParseExpr(Unparse(e) + rest, prec) == ParseLoop(e, rest, prec)
    decreases e, 0
  {
    var toks := [if e.isArrow then TokArrow else TokDot, TokIdent(e.field)] + rest;
    assert Unparse(e) + rest == Unparse(e.target) + toks;
    assert toks[2..] == rest;
    ParsesTree(e.target, toks, prec);
    LoopGoesOn(e.target, e, toks, rest, prec);
  }

  lemma {:induction false} CallParses(e: Expr, rest: seq<Token>, prec: nat)
    requires e.Call? && Wrapped(e) && prec <= UNARY
    ensures ParseExpr(Unparse(e) + rest, prec) == ParseLoop(e, rest, prec)
    decreases e, 0
  {
    var close := [TokRParen] + rest;
    var toks := [TokLParen] + (UnparseArgs(e.args) + close);
    CallTokens(e.func, e.args, rest);
    Behind(TokLParen, UnparseArgs(e.args) + close);
    ParsesTree(e.func, toks, prec);
    ExpectFinds(TokRParen, rest);
    if e.args == [] {
      assert toks[1..] == close && toks[2..] == rest;
    } else {
      ArgsParse(e.args, close);
      ArgsDoNotClose(e.args, close);
    }
    assert ParseInfix(e.func, toks) == Ok(e, rest);
    LoopGoesOn(e.func, e, toks, rest, prec);
  }

  /** No expression starts with a closing parenthesis. */
  lemma {:induction false} FirstToken(e: Expr)
    ensures Unparse(e)[0] != TokRParen
    decreases e
  {
    match e
    case Unary(op, a) => FirstToken(a);
    case Binary(_, l, _) => FirstToken(l);
    case Conditional(c, _, _) => FirstToken(c);
    case Call(f, _) => FirstToken(f);
    case Index(a, _) => FirstToken(a);
    case Member(a, _, _) => FirstToken(a);
    case _ =>
  }

  lemma ArgsDoNotClose(args: seq<Expr>, rest: seq<Token>)
    requires args != []
    ensures Expect(UnparseArgs(args) + rest, TokRParen) == Fail
  {
    FirstToken(args[0]);
    assert (UnparseArgs(args) + rest)[0] == Unparse(args[0])[0];
  }

  lemma {:induction false} ArgsParse(args: seq<Expr>, rest: seq<Token>)
    requires args != [] && forall i | 0 <= i < |args| :: Wrapped(args[i]) && Level(args[i]) > ASSIGN
    requires Prec(rest) == LOWEST
    ensures ParseArgs(UnparseArgs(args) + rest) == Ok(args, rest)
    decreases args, 0
  {
    TailIsLower(args[0]);
    if |args| == 1 {
      ParsesWhole(args[0], rest, ASSIGN);
      assert args == [args[0]] + [];
    } else {
      var more := UnparseArgs(args[1..]) + rest;
      assert args == [args[0]] + args[1..];
      ArgsTokens(args[0], args[1..], rest);
      ParsesWhole(args[0], [TokOp(OpComma)] + more, ASSIGN);
      ExpectFinds(TokOp(OpComma), more);
      ArgsParse(args[1..], rest);
    }
  }

  // --- Parsing, then printing ---

  /** A successful parse is of the tokens of a wrapped tree, which the next token does not join. */
  ghost predicate IsParseOf(r: Parsed<Expr>, toks: seq<Token>, prec: nat) {
    r.Ok? ==> toks == Unparse(r.value) + r.rest && Wrapped(r.value) && Fits(r.value, prec) && Prec(r.rest) <= prec
              && Prec(r.rest) <= Tail(r.value)
  }

  lemma {:induction false} ParseIsSound(toks: seq<Token>, prec: nat)
    requires prec <= UNARY
    ensures IsParseOf(ParseExpr(toks, prec), toks, prec)
    decreases |toks|, 3
  {
    PrefixIsSound(toks);
    match ParsePrefix(toks)
    case Fail =>
    case Ok(left, rest) =>
      LoopIsSound(left, rest, prec);
      Rejoin(toks, left, rest, ParseLoop(left, rest, prec));
  }

  /** The loop continues a wrapped tree. */
  ghost predicate IsContinuation(r: Parsed<Expr>, left: Expr, toks: seq<Token>, prec: nat) {
    r.Ok? ==> Unparse(left) + toks == Unparse(r.value) + r.rest && Wrapped(r.value) && Fits(r.value, prec)
              && Prec(r.rest) <= prec && Prec(r.rest) <= Tail(r.value)
  }

  lemma Rejoin(toks: seq<Token>, left: Expr, rest: seq<Token>, r: Parsed<Expr>)
    requires toks == Unparse(left) + rest
    ensures r.Ok? && Unparse(left) + rest == Unparse(r.value) + r.rest ==> toks == Unparse(r.value) + r.rest
  {
  }

  lemma {:induction false} LoopIsSound(left: Expr, toks: seq<Token>, prec: nat)
    requires Wrapped(left) && Fits(left, prec) && prec <= UNARY && Prec(toks) <= Tail(left)
    ensures IsContinuation(ParseLoop(left, toks, prec), left, toks, prec)
    decreases |toks|, 2
  {
    if prec < Prec(toks) {
      InfixIsSound(left, toks, prec);
      match ParseInfix(left, toks)
      case Fail =>
      case Ok(left', rest) => LoopIsSound(left', rest, prec);
    }
  }

  /** A prefix form or a primary expression. */
  ghost predicate IsPrefixForm(r: Parsed<Expr>, toks: seq<Token>) {
    r.Ok? ==> toks == Unparse(r.value) + r.rest && Wrapped(r.value) && Level(r.value) >= UNARY && Prec(r.rest) <= Tail(r.value)
  }

  lemma {:induction false} PrefixIsSound(toks: seq<Token>)
    ensures IsPrefixForm(ParsePrefix(toks), toks)
    decreases |toks|, 1
  {
    if toks != [] {
      assert toks == [toks[0]] + toks[1..];
      match toks[0] {
        case TokLParen => ParenIsSound(toks);
        case TokSizeof => SizeofIsSound(toks);
        case TokInt(_) => FewTokensFollow(toks[1..]);
        case TokString(_) => FewTokensFollow(toks[1..]);
        case TokCharLit(_) => FewTokensFollow(toks[1..]);
        case TokIdent(_) => FewTokensFollow(toks[1..]);
        case _ => PrefixOpIsSound(toks);
      }
    }
  }

  lemma FewTokensFollow(toks: seq<Token>)
    ensures Prec(toks) <= POSTFIX
  {
  }

  lemma {:induction false} ParenIsSound(toks: seq<Token>)
    requires toks != [] && toks[0] == TokLParen
    ensures IsPrefixForm(ParsePrefix(toks), toks)
    decreases |toks|, 0
  {
    assert toks == [toks[0]] + toks[1..];
    ParseIsSound(toks[1..], LOWEST);
    match ParseExpr(toks[1..], LOWEST)
    case Fail =>
    case Ok(e, rest) =>
      match Expect(rest, TokRParen)
      case Fail =>
      case Ok(_, rest') =>
        ParenTokens(e, rest');
        FewTokensFollow(rest');
  }

  lemma {:induction false} SizeofIsSound(toks: seq<Token>)
    requires toks != [] && toks[0] == TokSizeof
    ensures IsPrefixForm(ParsePrefix(toks), toks)
    decreases |toks|, 0
  {
    assert toks == [toks[0]] + toks[1..];
    ParseIsSound(toks[1..], UNARY);
    match ParseExpr(toks[1..], UNARY)
    case Fail =>
    case Ok(e, rest) =>
      assert toks == [TokSizeof] + (Unparse(e) + rest);
      assert toks == Unparse(SizeofExpr(e)) + rest;
  }

  lemma {:induction false} PrefixOpIsSound(toks: seq<Token>)
    requires toks != []
    ensures IsPrefixForm(PrefixOpParse(toks), toks)
    decreases |toks|, 0
  {
    assert toks == [toks[0]] + toks[1..];
    if PrefixOp(toks[0]).Some? {
      var op := PrefixOp(toks[0]).value;
      assert UnaryToken(op) == toks[0] && !op.IsPostfix();
      ParseIsSound(toks[1..], UNARY);
      match ParseExpr(toks[1..], UNARY) {
        case Fail =>
        case Ok(e, rest) =>
          PrefixTokens(op, e, rest);
      }
    }
  }

  /** What an infix or postfix form makes of the tree before it. */
  ghost predicate IsInfixForm(r: Parsed<Expr>, left: Expr, toks: seq<Token>, prec: nat) {
    r.Ok? ==> Unparse(left) + toks == Unparse(r.value) + r.rest && Wrapped(r.value) && Level(r.value) > prec
              && Prec(r.rest) <= Tail(r.value)
  }

  lemma {:induction false} InfixIsSound(left: Expr, toks: seq<Token>, prec: nat)
    requires Wrapped(left) && prec <= UNARY && prec < Prec(toks) <= Tail(left)
    ensures IsInfixForm(ParseInfix(left, toks), left, toks, prec)
    decreases |toks|, 1
  {
    TailIsLower(left);
    assert toks == [toks[0]] + toks[1..];
    match toks[0] {
      case TokQuestion => TernaryIsSound(left, toks, prec);
      case TokLParen => CallIsSound(left, toks, prec);
      case TokLBracket => IndexIsSound(left, toks, prec);
      case TokOp(_) => BinaryIsSound(left, toks, prec);
      case TokIncrement =>
        FewTokensFollow(toks[1..]);
        assert Unparse(left) + toks == Unparse(Unary(OpPostInc, left)) + toks[1..];
      case TokDecrement =>
        FewTokensFollow(toks[1..]);
        assert Unparse(left) + toks == Unparse(Unary(OpPostDec, left)) + toks[1..];
      case TokDot => MemberIsSound(left, toks, prec);
      case TokArrow => MemberIsSound(left, toks, prec);
    }
  }

  lemma {:induction false} MemberIsSound(left: Expr, toks: seq<Token>, prec: nat)
    requires Wrapped(left) && Level(left) == POSTFIX && prec < POSTFIX && toks != [] && (toks[0] == TokDot || toks[0] == TokArrow)
    ensures IsInfixForm(ParseInfix(left, toks), left, toks, prec)
  {
    if |toks| >= 2 && toks[1].TokIdent? {
      var e := Member(left, toks[1].name, toks[0] == TokArrow);
      assert toks == [toks[0], toks[1]] + toks[2..];
      assert Unparse(left) + toks == Unparse(e) + toks[2..];
      FewTokensFollow(toks[2..]);
    }
  }

  lemma {:induction false} BinaryIsSound(left: Expr, toks: seq<Token>, prec: nat)
    requires Wrapped(left) && prec < Prec(toks) <= Tail(left) && toks[0].TokOp?
    ensures IsInfixForm(ParseInfix(left, toks), left, toks, prec)
    decreases |toks|, 0
  {
    assert toks == [toks[0]] + toks[1..];
    TailIsLower(left);
    var op := toks[0].op;
    var inner := if op.IsAssign() then ASSIGN - 1 else OpPrecedence(op);
    ParseIsSound(toks[1..], inner);
    match ParseExpr(toks[1..], inner)
    case Fail =>
    case Ok(right, rest) =>
      BinaryTokens(op, left, right, rest);
      assert op.IsAssign() ==> Level(left) > ASSIGN;
  }

  lemma {:induction false} IndexIsSound(left: Expr, toks: seq<Token>, prec: nat)
    requires Wrapped(left) && Level(left) == POSTFIX && prec < POSTFIX && toks != [] && toks[0] == TokLBracket
    ensures IsInfixForm(ParseInfix(left, toks), left, toks, prec)
    decreases |toks|, 0
  {
    assert toks == [toks[0]] + toks[1..];
    ParseIsSound(toks[1..], LOWEST);
    match ParseExpr(toks[1..], LOWEST)
    case Fail =>
    case Ok(i, rest) =>
      match Expect(rest, TokRBracket)
      case Fail =>
      case Ok(_, rest') =>
        IndexTokens(left, i, rest');
        FewTokensFollow(rest');
  }

  lemma {:induction false} TernaryIsSound(cond: Expr, toks: seq<Token>, prec: nat)
    requires Wrapped(cond) && prec < TERNARY <= Tail(cond) && toks != [] && toks[0] == TokQuestion
    ensures IsInfixForm(ParseInfix(cond, toks), cond, toks, prec)
    decreases |toks|, 0
  {
    assert toks == [toks[0]] + toks[1..];
    assert Level(cond) > TERNARY;
    ParseIsSound(toks[1..], LOWEST);
    match ParseExpr(toks[1..], LOWEST)
    case Fail =>
    case Ok(a, rest) =>
      match Expect(rest, TokColon)
      case Fail =>
      case Ok(_, rest') =>
        ParseIsSound(rest', TERNARY - 1);
        match ParseExpr(rest', TERNARY - 1)
        case Fail =>
        case Ok(b, rest'') =>
          ConditionalTokens(cond, a, b, rest'');
  }

  lemma {:induction false} CallIsSound(f: Expr, toks: seq<Token>, prec: nat)
    requires Wrapped(f) && Level(f) == POSTFIX && prec < POSTFIX && toks != [] && toks[0] == TokLParen
    ensures IsInfixForm(ParseInfix(f, toks), f, toks, prec)
    decreases |toks|, 0
  {
    assert toks == [toks[0]] + toks[1..];
    if Expect(toks[1..], TokRParen).Ok? {
      NoArguments(f, toks, prec);
    } else {
      ArgsAreSound(toks[1..]);
      ArgumentsEnd(f, toks, prec);
    }
  }

  lemma {:induction false} NoArguments(f: Expr, toks: seq<Token>, prec: nat)
    requires Wrapped(f) && Level(f) == POSTFIX && prec < POSTFIX && toks != [] && toks[0] == TokLParen
    requires Expect(toks[1..], TokRParen).Ok?
    ensures IsInfixForm(ParseInfix(f, toks), f, toks, prec)
  {
    var rest := toks[2..];
    var close := [TokRParen] + rest;
    assert toks == [TokLParen] + close;
    CallTokens(f, [], rest);
    assert UnparseArgs([]) + close == close;
    FewTokensFollow(rest);
    assert ParseInfix(f, toks) == Ok(Call(f, []), rest);
  }

  lemma ArgumentsEnd(f: Expr, toks: seq<Token>, prec: nat)
    requires Wrapped(f) && Level(f) == POSTFIX && prec < POSTFIX && toks != [] && toks == [TokLParen] + toks[1..]
    requires Expect(toks[1..], TokRParen) == Fail && AreArgs(ParseArgs(toks[1..]), toks[1..])
    ensures IsInfixForm(ParseInfix(f, toks), f, toks, prec)
  {
    match ParseArgs(toks[1..])
    case Fail =>
    case Ok(args, rest) =>
      match Expect(rest, TokRParen)
      case Fail =>
      case Ok(_, rest') =>
        CallTokens(f, args, rest');
        FewTokensFollow(rest');
  }

  /** The tokens are those of wrapped arguments, none of them a bare assignment, and a rest. */
  ghost predicate AreArgs(r: Parsed<seq<Expr>>, toks: seq<Token>) {
    r.Ok? ==> r.value != [] && toks == UnparseArgs(r.value) + r.rest
              && forall i | 0 <= i < |r.value| :: Wrapped(r.value[i]) && Level(r.value[i]) > ASSIGN
  }

  lemma {:induction false} ArgsAreSound(toks: seq<Token>)
    ensures AreArgs(ParseArgs(toks), toks)
    decreases |toks|, 4
  {
    ParseIsSound(toks, ASSIGN);
    match ParseExpr(toks, ASSIGN)
    case Fail =>
    case Ok(arg, rest) =>
      match Expect(rest, TokOp(OpComma))
      case Fail =>
      case Ok(_, rest') =>
        ArgsAreSound(rest');
        match ParseArgs(rest')
        case Fail =>
        case Ok(args, rest'') =>
          ArgsTokens(arg, args, rest'');
  }

  // --- The round trip ---

  /** Parsing yields e, and stops before rest, exactly when the tokens are those of e, with enough parentheses,
      and of rest, which does not go on with an operator. */
  lemma ParsesExactly(toks: seq<Token>, e: Expr, rest: seq<Token>)
    ensures ParseExpr(toks, LOWEST) == Ok(e, rest) <==> Wrapped(e) && toks == Unparse(e) + rest && Prec(rest) == LOWEST
  {
    if Wrapped(e) && toks == Unparse(e) + rest && Prec(rest) == LOWEST {
      TailIsLower(e);
      ParsesWhole(e, rest, LOWEST);
    }
    ParseIsSound(toks, LOWEST);
  }

  /** Printing and parsing again gives back exactly the trees with enough parentheses, with no tokens left. */
  lemma RoundTrip(e: Expr)
    ensures ParseExpr(Unparse(e), LOWEST) == Ok(e, []) <==> Wrapped(e)
  {
    assert Unparse(e) + [] == Unparse(e);
    ParsesExactly(Unparse(e), e, []);
  }

  /** Trees with enough parentheses are told apart by their tokens. */
  lemma PrintingIsUnambiguous(a: Expr, b: Expr)
    requires Wrapped(a) && Wrapped(b) && Unparse(a) == Unparse(b)
    ensures a == b
  {
    RoundTrip(a);
    RoundTrip(b);
  }

  /** A bare assignment as the argument of a call is not parsed at all. */
  lemma AssignmentArgumentFails(f: Expr, arg: Expr)
    requires Wrapped(f) && Level(f) == POSTFIX && Wrapped(arg) && arg.Binary? && arg.op.IsAssign()
    ensures ParseExpr(Unparse(Call(f, [arg])), LOWEST) == Fail
  {
    var assign := [TokOp(arg.op)] + (Unparse(arg.right) + [TokRParen]);
    var toks := [TokLParen] + (Unparse(arg.left) + assign);
    BinaryTokens(arg.op, arg.left, arg.right, [TokRParen]);
    assert Unparse(Call(f, [arg])) == Unparse(f) + toks;
    ParsesTree(f, toks, LOWEST);
    AssignmentEndsArgs(f, arg, assign);
  }

  lemma AssignmentEndsArgs(f: Expr, arg: Expr, assign: seq<Token>)
    requires Wrapped(arg) && arg.Binary? && arg.op.IsAssign() && assign != [] && assign[0] == TokOp(arg.op)
    ensures ParseCall(f, [TokLParen] + (Unparse(arg.left) + assign)) == Fail
  {
    var toks := [TokLParen] + (Unparse(arg.left) + assign);
    Behind(TokLParen, Unparse(arg.left) + assign);
    FirstToken(arg.left);
    assert toks[1..][0] == Unparse(arg.left)[0];
    assert Prec(assign) == ASSIGN <= Tail(arg.left);
    ParsesWhole(arg.left, assign, ASSIGN);
    assert Expect(assign, TokOp(OpComma)) == Fail;
    assert [arg.left] + [] == [arg.left];
    assert ParseArgs(toks[1..]) == Ok([arg.left], assign);
  }
}
