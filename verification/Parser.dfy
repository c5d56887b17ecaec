/** The expression parser (pkg/parser/parser.go): precedence climbing over the tokens. */
module Parser {
  import opened Syntax
  import opened Values

  datatype Parsed<T> = Fail | Ok(value: T, rest: seq<Token>)

  // --- What is parsed ---

  function ParseExpr(toks: seq<Token>, prec: nat): (r: Parsed<Expr>)
    ensures r.Ok? ==> |r.rest| < |toks|
    decreases |toks|, 3
  {
    match ParsePrefix(toks)
    case Ok(left, rest) => ParseLoop(left, rest, prec)
    case Fail => Fail
  }

  /** Operators that bind more tightly than prec, one after the other. */
  function ParseLoop(left: Expr, toks: seq<Token>, prec: nat): (r: Parsed<Expr>)
    ensures r.Ok? ==> |r.rest| <= |toks|
    decreases |toks|, 2
  {
    if prec < Prec(toks) then
      match ParseInfix(left, toks)
      case Ok(left', rest) => ParseLoop(left', rest, prec)
      case Fail => Fail
    else
      Ok(left, toks)
  }

  /** The token, and the rest. */
  function Expect(toks: seq<Token>, t: Token): (r: Parsed<Token>)
    ensures r.Ok? ==> toks == [t] + r.rest
  {
    if toks != [] && toks[0] == t then Ok(t, toks[1..]) else Fail
  }

  function PrefixOp(t: Token): Option<UnaryOp> {
    match t
    case TokOp(op) =>
      (match op
       case OpSub => Some(OpNeg)
       case OpAdd => Some(OpPlus)
       case OpBitAnd => Some(OpAddrOf)
       case OpMul => Some(OpDeref)
       case _ => None)
    case TokNot => Some(OpNot)
    case TokTilde => Some(OpBitNot)
    case TokIncrement => Some(OpPreInc)
    case TokDecrement => Some(OpPreDec)
    case _ => None
  }

  function ParsePrefix(toks: seq<Token>): (r: Parsed<Expr>)
    ensures r.Ok? ==> |r.rest| < |toks|
    decreases |toks|, 1
  {
    if toks == [] then Fail
    else
      match toks[0]
      case TokInt(v) => Ok(Constant(v), toks[1..])
      case TokString(s) => Ok(StringLiteral(s), toks[1..])
      case TokCharLit(s) => Ok(CharLiteral(s), toks[1..])
      case TokIdent(x) => Ok(Variable(x), toks[1..])
      case TokLParen =>
        (match ParseExpr(toks[1..], LOWEST)
         case Ok(e, rest) =>
           (match Expect(rest, TokRParen)
            case Ok(_, rest') => Ok(Paren(e), rest')
            case Fail => Fail)
         case Fail => Fail)
      case TokSizeof =>
        (match ParseExpr(toks[1..], UNARY)
         case Ok(e, rest) => Ok(SizeofExpr(e), rest)
         case Fail => Fail)
      case _ => PrefixOpParse(toks)
  }

  function PrefixOpParse(toks: seq<Token>): (r: Parsed<Expr>)
    requires toks != []
    ensures r.Ok? ==> |r.rest| < |toks|
    decreases |toks|, 0
  {
    match PrefixOp(toks[0])
    case None => Fail
    case Some(op) =>
      match ParseExpr(toks[1..], UNARY)
      case Ok(e, rest) => Ok(Unary(op, e), rest)
      case Fail => Fail
  }

  function ParseInfix(left: Expr, toks: seq<Token>): (r: Parsed<Expr>)
    requires Prec(toks) > LOWEST
    ensures r.Ok? ==> |r.rest| < |toks|
    decreases |toks|, 1
  {
    match toks[0]
    case TokQuestion => ParseTernary(left, toks)
    case TokLParen => ParseCall(left, toks)
    case TokLBracket =>
      (match ParseExpr(toks[1..], LOWEST)
       case Ok(i, rest) =>
         (match Expect(rest, TokRBracket)
          case Ok(_, rest') => Ok(Index(left, i), rest')
          case Fail => Fail)
       case Fail => Fail)
    case TokIncrement => Ok(Unary(OpPostInc, left), toks[1..])
    case TokDecrement => Ok(Unary(OpPostDec, left), toks[1..])
    case TokOp(op) =>
      (match ParseExpr(toks[1..], if op.IsAssign() then ASSIGN - 1 else OpPrecedence(op))
       case Ok(right, rest) => Ok(Binary(op, left, right), rest)
       case Fail => Fail)
    case _ => ParseMember(left, toks)
  }

  function ParseMember(left: Expr, toks: seq<Token>): (r: Parsed<Expr>)
    requires toks != []
    ensures r.Ok? ==> |r.rest| < |toks|
  {
    if |toks| >= 2 && toks[1].TokIdent? then Ok(Member(left, toks[1].name, toks[0] == TokArrow), toks[2..]) else Fail
  }

  function ParseTernary(cond: Expr, toks: seq<Token>): (r: Parsed<Expr>)
    requires toks != []
    ensures r.Ok? ==> |r.rest| < |toks|
    decreases |toks|, 0
  {
    match ParseExpr(toks[1..], LOWEST)
    case Fail => Fail
    case Ok(a, rest) =>
      match Expect(rest, TokColon)
      case Fail => Fail
      case Ok(_, rest') =>
        match ParseExpr(rest', TERNARY - 1)
        case Fail => Fail
        case Ok(b, rest'') => Ok(Conditional(cond, a, b), rest'')
  }

  function ParseCall(f: Expr, toks: seq<Token>): (r: Parsed<Expr>)
    requires toks != []
    ensures r.Ok? ==> |r.rest| < |toks|
    decreases |toks|, 0
  {
    if Expect(toks[1..], TokRParen).Ok? then Ok(Call(f, []), toks[2..])
    else
      match ParseArgs(toks[1..])
      case Fail => Fail
      case Ok(args, rest) =>
        match Expect(rest, TokRParen)
        case Fail => Fail
        case Ok(_, rest') => Ok(Call(f, args), rest')
  }

  /** One or more arguments. */
  function ParseArgs(toks: seq<Token>): (r: Parsed<seq<Expr>>)
    ensures r.Ok? ==> |r.rest| < |toks|
    decreases |toks|, 4
  {
    match ParseExpr(toks, ASSIGN)
    case Fail => Fail
    case Ok(arg, rest) => Attach([arg], MoreArgs(rest))
  }

  /** The arguments after a comma, if there is one. */
  function MoreArgs(toks: seq<Token>): (r: Parsed<seq<Expr>>)
    ensures r.Ok? ==> |r.rest| <= |toks|
    decreases |toks|, 5
  {
    match Expect(toks, TokOp(OpComma))
    case Fail => Ok([], toks)
    case Ok(_, rest) => ParseArgs(rest)
  }

  function Attach(args: seq<Expr>, r: Parsed<seq<Expr>>): Parsed<seq<Expr>> {
    match r
    case Fail => Fail
    case Ok(more, rest) => Ok(args + more, rest)
  }

  // --- The parser ---

  /** A parser over the tokens that are left, the current one first. */
  class Parser {
    var toks: seq<Token>
    var errors: seq<string>

    constructor (toks: seq<Token>)
      ensures this.toks == toks && errors == []
    {
      this.toks := toks;
      errors := [];
    }

    /** The tree and the tokens left are those of r; an error was added if and only if there is no tree. */
    twostate predicate Gives(new r: Parsed<Expr>, new e: Option<Expr>)
      reads this
    {
      match r
      case Ok(x, rest) => e == Some(x) && toks == rest && errors == old(errors)
      case Fail => e == None && |errors| > |old(errors)|
    }

    predicate CurTokenIs(t: Token)
      reads this
    {
      toks != [] && toks[0] == t
    }

    method NextToken()
      requires toks != []
      modifies this`toks
      ensures toks == old(toks)[1..]
    {
      toks := toks[1..];
    }

    method AddError(message: string)
      modifies this`errors
      ensures errors == old(errors) + [message]
    {
      errors := errors + [message];
    }

    /** Moves past the token, or adds an error. */
    method Require(t: Token, message: string) returns (ok: bool)
      modifies this
      ensures ok == Expect(old(toks), t).Ok?
      ensures ok ==> toks == old(toks)[1..] && errors == old(errors)
      ensures !ok ==> toks == old(toks) && errors == old(errors) + [message]
    {
      ok := CurTokenIs(t);
      if ok {
        NextToken();
      } else {
        AddError(message);
      }
    }

    method ParseExprPrec(prec: nat) returns (e: Option<Expr>)
      modifies this
      ensures Gives(ParseExpr(old(toks), prec), e)
      decreases |toks|, 3
    {
      e := ParsePrefixForm();
      if e == None {
        return;
      }
      var left := e.value;
      while prec < Prec(toks)
        invariant |toks| < |old(toks)| && errors == old(errors)
        invariant ParseExpr(old(toks), prec) == ParseLoop(left, toks, prec)
        decreases |toks|
      {
        e := ParseInfixForm(left);
        if e == None {
          return;
        }
        left := e.value;
      }
      e := Some(left);
    }

    method ParsePrefixForm() returns (e: Option<Expr>)
      modifies this
      ensures Gives(ParsePrefix(old(toks)), e)
      decreases |toks|, 1
    {
      if toks == [] {
        AddError("expected expression");
        return None;
      }
      match toks[0] {
        case TokInt(v) =>
          NextToken();
          e := Some(Constant(v));
        case TokString(s) =>
          NextToken();
          e := Some(StringLiteral(s));
        case TokCharLit(s) =>
          NextToken();
          e := Some(CharLiteral(s));
        case TokIdent(x) =>
          NextToken();
          e := Some(Variable(x));
        case TokLParen =>
          e := ParseGrouped();
        case TokSizeof =>
          e := ParseSizeof();
        case t =>
          e := ParsePrefixUnary(PrefixOp(t));
      }
    }

    method ParseGrouped() returns (e: Option<Expr>)
      requires CurTokenIs(TokLParen)
      modifies this
      ensures Gives(ParsePrefix(old(toks)), e)
      decreases |toks|, 0
    {
      NextToken();
      var inner := ParseExprPrec(LOWEST);
      if inner == None {
        return None;
      }
      var closed := Require(TokRParen, "expected ')'");
      e := if closed then Some(Paren(inner.value)) else None;
    }

    method ParseSizeof() returns (e: Option<Expr>)
      requires CurTokenIs(TokSizeof)
      modifies this
      ensures Gives(ParsePrefix(old(toks)), e)
      decreases |toks|, 0
    {
      NextToken();
      var operand := ParseExprPrec(UNARY);
      e := if operand == None then None else Some(SizeofExpr(operand.value));
    }

    method ParsePrefixUnary(op: Option<UnaryOp>) returns (e: Option<Expr>)
      requires toks != [] && op == PrefixOp(toks[0])
      modifies this
      ensures Gives(PrefixOpParse(old(toks)), e)
      decreases |toks|, 0
    {
      if op == None {
        AddError("expected expression");
        return None;
      }
      NextToken();
      var operand := ParseExprPrec(UNARY);
      e := if operand == None then None else Some(Unary(op.value, operand.value));
    }

    method ParseInfixForm(left: Expr) returns (e: Option<Expr>)
      requires Prec(toks) > LOWEST
      modifies this
      ensures Gives(ParseInfix(left, old(toks)), e)
      decreases |toks|, 1
    {
      var t := toks[0];
      if t == TokQuestion {
        e := ParseTernaryForm(left);
      } else if t == TokLParen {
        e := ParseCallForm(left);
      } else if t == TokLBracket {
        e := ParseIndexForm(left);
      } else if t == TokDot || t == TokArrow {
        e := ParseMemberForm(left);
      } else if t == TokIncrement {
        NextToken();
        e := Some(Unary(OpPostInc, left));
      } else if t == TokDecrement {
        NextToken();
        e := Some(Unary(OpPostDec, left));
      } else {
        var prec := Prec(toks);
        NextToken();
        if t.op.IsAssign() {
          prec := prec - 1;
        }
        var right := ParseExprPrec(prec);
        e := if right == None then None else Some(Binary(t.op, left, right.value));
      }
    }

    method ParseMemberForm(target: Expr) returns (e: Option<Expr>)
      requires toks != []
      modifies this
      ensures Gives(ParseMember(target, old(toks)), e)
    {
      var isArrow := CurTokenIs(TokArrow);
      NextToken();
      if toks == [] || !toks[0].TokIdent? {
        AddError("expected member name");
        return None;
      }
      e := Some(Member(target, toks[0].name, isArrow));
      NextToken();
    }

    method ParseTernaryForm(cond: Expr) returns (e: Option<Expr>)
      requires toks != []
      modifies this
      ensures Gives(ParseTernary(cond, old(toks)), e)
      decreases |toks|, 0
    {
      NextToken();
      var thenExpr := ParseExprPrec(LOWEST);
      if thenExpr == None {
        return None;
      }
      var found := Require(TokColon, "expected ':' in ternary");
      if !found {
        return None;
      }
      var elseExpr := ParseExprPrec(TERNARY - 1);
      e := if elseExpr == None then None else Some(Conditional(cond, thenExpr.value, elseExpr.value));
    }

    method ParseIndexForm(arr: Expr) returns (e: Option<Expr>)
      requires CurTokenIs(TokLBracket)
      modifies this
      ensures Gives(ParseInfix(arr, old(toks)), e)
      decreases |toks|, 0
    {
      NextToken();
      var index := ParseExprPrec(LOWEST);
      if index == None {
        return None;
      }
      var closed := Require(TokRBracket, "expected ']' in subscript");
      e := if closed then Some(Index(arr, index.value)) else None;
    }

    method ParseCallForm(f: Expr) returns (e: Option<Expr>)
      requires toks != []
      modifies this
      ensures Gives(ParseCall(f, old(toks)), e)
      decreases |toks|, 0
    {
      NextToken();
      var args: seq<Expr> := [];
      if !CurTokenIs(TokRParen) {
        ghost var start := toks;
        var arg := ParseExprPrec(ASSIGN);
        if arg == None {
          return None;
        }
        args := [arg.value];
        while CurTokenIs(TokOp(OpComma))
          invariant |toks| < |start| && errors == old(errors)
          invariant ParseArgs(start) == Attach(args, MoreArgs(toks))
          decreases |toks|
        {
          NextToken();
          arg := ParseExprPrec(ASSIGN);
          if arg == None {
            return None;
          }
          AttachTwice(args, arg.value, MoreArgs(toks));
          args := args + [arg.value];
        }
      }
      assert args + [] == args;
      assert old(toks)[2..] == old(toks)[1..][1..];
      var closed := Require(TokRParen, "expected ')' in call");
      e := if closed then Some(Call(f, args)) else None;
    }
  }

  lemma AttachTwice(args: seq<Expr>, arg: Expr, r: Parsed<seq<Expr>>)
    ensures Attach(args, Attach([arg], r)) == Attach(args + [arg], r)
  {
    if r.Ok? {
      assert args + ([arg] + r.value) == (args + [arg]) + r.value;
    }
  }
}
