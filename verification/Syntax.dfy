/** C expressions, their tokens, and how they are printed (pkg/cabs/printer.go, printExpr), at token level. */
module Syntax {
  datatype UnaryOp =
    | OpNeg | OpPlus | OpNot | OpBitNot | OpPreInc | OpPreDec | OpAddrOf | OpDeref | OpPostInc | OpPostDec
  {
    predicate IsPostfix() { OpPostInc? || OpPostDec? }
  }

  datatype BinaryOp =
    | OpComma
    | OpAssign | OpAddAssign | OpSubAssign | OpMulAssign | OpDivAssign | OpModAssign
    | OpAndAssign | OpOrAssign | OpXorAssign | OpShlAssign | OpShrAssign
    | OpOr | OpAnd | OpBitOr | OpBitXor | OpBitAnd | OpEq | OpNe | OpLt | OpLe | OpGt | OpGe
    | OpShl | OpShr | OpAdd | OpSub | OpMul | OpDiv | OpMod
  {
    predicate IsAssign() {
      OpAssign? || OpAddAssign? || OpSubAssign? || OpMulAssign? || OpDivAssign? || OpModAssign?
      || OpAndAssign? || OpOrAssign? || OpXorAssign? || OpShlAssign? || OpShrAssign?
    }
  }

  datatype Expr =
    | Constant(value: int)
    | StringLiteral(text: string)
    | CharLiteral(text: string)
    | Variable(name: string)
    | Unary(uop: UnaryOp, arg: Expr)
    | Binary(op: BinaryOp, left: Expr, right: Expr)
    | Paren(inner: Expr)
    | Conditional(cond: Expr, thenExpr: Expr, elseExpr: Expr)
    | Call(func: Expr, args: seq<Expr>)
    | Index(arr: Expr, index: Expr)
    | Member(target: Expr, field: string, isArrow: bool)
    | SizeofExpr(operand: Expr)

  /** The binary operators have a token each; +, -, & and * are also prefix operators. */
  datatype Token =
    | TokInt(value: int)
    | TokString(text: string)
    | TokCharLit(text: string)
    | TokIdent(name: string)
    | TokOp(op: BinaryOp)
    | TokNot
    | TokTilde
    | TokIncrement
    | TokDecrement
    | TokSizeof
    | TokLParen
    | TokRParen
    | TokLBracket
    | TokRBracket
    | TokDot
    | TokArrow
    | TokQuestion
    | TokColon
    | TokOther(code: int)

  // --- Precedences ---

  const LOWEST := 0
  const COMMA := 1
  const ASSIGN := 2
  const TERNARY := 3
  const UNARY := 14
  const POSTFIX := 15

  function OpPrecedence(op: BinaryOp): (p: nat)
    ensures 1 <= p <= 13 && p != TERNARY
    ensures p == ASSIGN <==> op.IsAssign()
    ensures p == COMMA <==> op == OpComma
  {
    match op
    case OpComma => 1
    case OpOr => 4
    case OpAnd => 5
    case OpBitOr => 6
    case OpBitXor => 7
    case OpBitAnd => 8
    case OpEq => 9
    case OpNe => 9
    case OpLt => 10
    case OpLe => 10
    case OpGt => 10
    case OpGe => 10
    case OpShl => 11
    case OpShr => 11
    case OpAdd => 12
    case OpSub => 12
    case OpMul => 13
    case OpDiv => 13
    case OpMod => 13
    case _ => 2
  }

  function TokenPrecedence(t: Token): nat {
    match t
    case TokOp(op) => OpPrecedence(op)
    case TokQuestion => TERNARY
    case TokLParen => POSTFIX
    case TokLBracket => POSTFIX
    case TokDot => POSTFIX
    case TokArrow => POSTFIX
    case TokIncrement => POSTFIX
    case TokDecrement => POSTFIX
    case _ => LOWEST
  }

  /** The precedence of the current token; the end of input has the lowest. */
  function Prec(toks: seq<Token>): nat {
    if toks == [] then LOWEST else TokenPrecedence(toks[0])
  }

  // --- Printing ---

  function UnaryToken(op: UnaryOp): Token {
    match op
    case OpNeg => TokOp(OpSub)
    case OpPlus => TokOp(OpAdd)
    case OpNot => TokNot
    case OpBitNot => TokTilde
    case OpPreInc => TokIncrement
    case OpPreDec => TokDecrement
    case OpAddrOf => TokOp(OpBitAnd)
    case OpDeref => TokOp(OpMul)
    case OpPostInc => TokIncrement
    case OpPostDec => TokDecrement
  }

  function Unparse(e: Expr): (toks: seq<Token>)
    ensures toks != []
  {
    match e
    case Constant(v) => [TokInt(v)]
    case StringLiteral(s) => [TokString(s)]
    case CharLiteral(s) => [TokCharLit(s)]
    case Variable(x) => [TokIdent(x)]
    case Unary(op, a) => if op.IsPostfix() then Unparse(a) + [UnaryToken(op)] else [UnaryToken(op)] + Unparse(a)
    case Binary(op, l, r) => Unparse(l) + ([TokOp(op)] + Unparse(r))
    case Paren(a) => [TokLParen] + (Unparse(a) + [TokRParen])
    case Conditional(c, a, b) => Unparse(c) + ([TokQuestion] + (Unparse(a) + ([TokColon] + Unparse(b))))
    case Call(f, args) => Unparse(f) + ([TokLParen] + (UnparseArgs(args) + [TokRParen]))
    case Index(a, i) => Unparse(a) + ([TokLBracket] + (Unparse(i) + [TokRBracket]))
    case Member(a, name, isArrow) => Unparse(a) + [if isArrow then TokArrow else TokDot, TokIdent(name)]
    case SizeofExpr(a) => [TokSizeof] + Unparse(a)
  }

  function UnparseArgs(args: seq<Expr>): seq<Token> {
    if args == [] then []
    else if |args| == 1 then Unparse(args[0])
    else Unparse(args[0]) + ([TokOp(OpComma)] + UnparseArgs(args[1..]))
  }

  // --- Which trees need no more parentheses ---

  /** How tightly the outermost operator binds. */
  function Level(e: Expr): (l: nat)
    ensures 1 <= l <= POSTFIX
  {
    match e
    case Unary(op, _) => if op.IsPostfix() then POSTFIX else UNARY
    case SizeofExpr(_) => UNARY
    case Binary(op, _, _) => OpPrecedence(op)
    case Conditional(_, _, _) => TERNARY
    case _ => POSTFIX
  }

  /** The tightest operator that can follow without becoming part of the last operand. */
  function Tail(e: Expr): nat {
    match e
    case Binary(op, _, _) => if op.IsAssign() then ASSIGN - 1 else OpPrecedence(op)
    case Conditional(_, _, _) => TERNARY - 1
    case _ => Level(e)
  }

  /** The operands bind at least as tightly as their places ask for. */
  predicate Wrapped(e: Expr) {
    match e
    case Unary(op, a) => Wrapped(a) && Level(a) >= if op.IsPostfix() then POSTFIX else UNARY
    case Binary(op, l, r) =>
      && Wrapped(l) && Wrapped(r)
      && (if op.IsAssign() then Level(l) > ASSIGN && Level(r) >= ASSIGN
          else Level(l) >= OpPrecedence(op) && Level(r) > OpPrecedence(op))
    case Paren(a) => Wrapped(a)
    case Conditional(c, a, b) => Wrapped(c) && Wrapped(a) && Wrapped(b) && Level(c) > TERNARY && Level(b) >= TERNARY
    case Call(f, args) =>
      Wrapped(f) && Level(f) == POSTFIX && forall i | 0 <= i < |args| :: Wrapped(args[i]) && Level(args[i]) > ASSIGN
    case Index(a, i) => Wrapped(a) && Level(a) == POSTFIX && Wrapped(i)
    case Member(a, _, _) => Wrapped(a) && Level(a) == POSTFIX
    case SizeofExpr(a) => Wrapped(a) && Level(a) >= UNARY
    case _ => true
  }

  /** What a parse that stops at precedence prec can yield: prefix operators always bind tightly enough. */
  predicate Fits(e: Expr, prec: nat) {
    Level(e) > prec || Level(e) >= UNARY
  }
}
