/** The grammar of expressions in section 6.5 of ISO/IEC 9899:2011, without casts, and that it is what is parsed. */
module Grammar {
  import opened Syntax
  import opened Parser
  import opened ParserProof

  datatype Nonterminal =
    | PrimaryExpression
    | PostfixExpression
    | UnaryExpression
    | MultiplicativeExpression
    | AdditiveExpression
    | ShiftExpression
    | RelationalExpression
    | EqualityExpression
    | AndExpression
    | ExclusiveOrExpression
    | InclusiveOrExpression
    | LogicalAndExpression
    | LogicalOrExpression
    | ConditionalExpression
    | AssignmentExpression
    | Expression
  {
    /** Nonterminals come before those that are defined by them. */
    function Rank(): nat {
      match this
      case PrimaryExpression => 1
      case PostfixExpression => 2
      case UnaryExpression => 3
      case MultiplicativeExpression => 4
      case AdditiveExpression => 5
      case ShiftExpression => 6
      case RelationalExpression => 7
      case EqualityExpression => 8
      case AndExpression => 9
      case ExclusiveOrExpression => 10
      case InclusiveOrExpression => 11
      case LogicalAndExpression => 12
      case LogicalOrExpression => 13
      case ConditionalExpression => 14
      case AssignmentExpression => 15
      case Expression => 16
    }

    /** The nonterminals for operators that associate to the left. */
    predicate IsLayer() {
      4 <= Rank() <= 13 || Expression?
    }

    /** Their operators, and the nonterminal of the right operand, which is also an alternative by itself. */
    function Operators(): set<BinaryOp>
      requires IsLayer()
    {
      match this
      case MultiplicativeExpression => {OpMul, OpDiv, OpMod}
      case AdditiveExpression => {OpAdd, OpSub}
      case ShiftExpression => {OpShl, OpShr}
      case RelationalExpression => {OpLt, OpGt, OpLe, OpGe}
      case EqualityExpression => {OpEq, OpNe}
      case AndExpression => {OpBitAnd}
      case ExclusiveOrExpression => {OpBitXor}
      case InclusiveOrExpression => {OpBitOr}
      case LogicalAndExpression => {OpAnd}
      case LogicalOrExpression => {OpOr}
      case Expression => {OpComma}
    }

    function Operand(): Nonterminal
      requires IsLayer()
    {
      match this
      case MultiplicativeExpression => UnaryExpression
      case AdditiveExpression => MultiplicativeExpression
      case ShiftExpression => AdditiveExpression
      case RelationalExpression => ShiftExpression
      case EqualityExpression => RelationalExpression
      case AndExpression => EqualityExpression
      case ExclusiveOrExpression => AndExpression
      case InclusiveOrExpression => ExclusiveOrExpression
      case LogicalAndExpression => InclusiveOrExpression
      case LogicalOrExpression => LogicalAndExpression
      case Expression => AssignmentExpression
    }
  }

  const ASSIGNMENT_OPERATORS: set<BinaryOp> :=
    {OpAssign, OpMulAssign, OpDivAssign, OpModAssign, OpAddAssign, OpSubAssign, OpShlAssign, OpShrAssign, OpAndAssign, OpXorAssign, OpOrAssign}

  /** The nonterminal of arguments, and of what is assigned to.  By the standard an argument is an assignment expression and
      what is assigned to is a unary expression; the parser takes conditional expressions in both places. */
  function Argument(std: bool): Nonterminal {
    if std then AssignmentExpression else ConditionalExpression
  }

  function Target(std: bool): Nonterminal {
    if std then UnaryExpression else ConditionalExpression
  }

  /** The tokens are a, then t, then b. */
  ghost predicate Splits(toks: seq<Token>, a: seq<Token>, t: Token, b: seq<Token>) {
    toks == a + ([t] + b)
  }

  /** The nonterminal derives the tokens, with the tree e, in the grammar of the standard or in that of the parser. */
  ghost predicate Derives(std: bool, n: Nonterminal, e: Expr, toks: seq<Token>)
    decreases e, n.Rank(), 1
  {
    match n
    case PrimaryExpression => DerivesPrimary(std, e, toks)
    case PostfixExpression => Derives(std, PrimaryExpression, e, toks) || DerivesPostfix(std, e, toks)
    case UnaryExpression => Derives(std, PostfixExpression, e, toks) || DerivesPrefix(std, e, toks)
    case ConditionalExpression => Derives(std, LogicalOrExpression, e, toks) || DerivesChoice(std, e, toks)
    case AssignmentExpression => Derives(std, ConditionalExpression, e, toks) || DerivesAssignment(std, e, toks)
    case _ => Derives(std, n.Operand(), e, toks) || DerivesBinary(std, n, e, toks)
  }

  ghost predicate DerivesPrimary(std: bool, e: Expr, toks: seq<Token>)
    decreases e, 0
  {
    match e
    case Variable(x) => toks == [TokIdent(x)]
    case Constant(v) => toks == [TokInt(v)]
    case CharLiteral(s) => toks == [TokCharLit(s)]
    case StringLiteral(s) => toks == [TokString(s)]
    case Paren(a) => exists b :: toks == [TokLParen] + (b + [TokRParen]) && Derives(std, Expression, a, b)
    case _ => false
  }

  ghost predicate DerivesPostfix(std: bool, e: Expr, toks: seq<Token>)
    decreases e, 0
  {
    match e
    case Index(p, i) =>
      exists a, b :: Splits(toks, a, TokLBracket, b + [TokRBracket]) && Derives(std, PostfixExpression, p, a) && Derives(std, Expression, i, b)
    case Call(p, args) =>
      exists a, b :: Splits(toks, a, TokLParen, b + [TokRParen]) && Derives(std, PostfixExpression, p, a) && DerivesArgs(std, args, b)
    case Member(p, name, isArrow) =>
      exists a :: Splits(toks, a, if isArrow then TokArrow else TokDot, [TokIdent(name)]) && Derives(std, PostfixExpression, p, a)
    case Unary(op, p) =>
      exists a :: Splits(toks, a, if op.OpPostInc? then TokIncrement else TokDecrement, [])
                  && (op.OpPostInc? || op.OpPostDec?) && Derives(std, PostfixExpression, p, a)
    case _ => false
  }

  ghost predicate DerivesArgs(std: bool, args: seq<Expr>, toks: seq<Token>)
    decreases args, 17
  {
    if args == [] then toks == []
    else if |args| == 1 then Derives(std, Argument(std), args[0], toks)
    else
      exists a, b :: Splits(toks, a, TokOp(OpComma), b) && DerivesArgs(std, args[1..], b)
                     && Derives(std, Argument(std), args[0], a)
  }

  ghost predicate DerivesPrefix(std: bool, e: Expr, toks: seq<Token>)
    decreases e, 0
  {
    match e
    case SizeofExpr(a) => exists b :: toks == [TokSizeof] + b && Derives(std, UnaryExpression, a, b)
    case Unary(op, a) =>
      && (op.OpPreInc? || op.OpPreDec? || op.OpAddrOf? || op.OpDeref? || op.OpPlus? || op.OpNeg? || op.OpBitNot? || op.OpNot?)
      && exists b :: Derives(std, UnaryExpression, a, b) && toks == [
           match op
           case OpPreInc => TokIncrement
           case OpPreDec => TokDecrement
           case OpAddrOf => TokOp(OpBitAnd)
           case OpDeref => TokOp(OpMul)
           case OpPlus => TokOp(OpAdd)
           case OpNeg => TokOp(OpSub)
           case OpBitNot => TokTilde
           case _ => TokNot] + b
    case _ => false
  }

  ghost predicate DerivesBinary(std: bool, n: Nonterminal, e: Expr, toks: seq<Token>)
    requires n.IsLayer()
    decreases e, 0
  {
    e.Binary? && e.op in n.Operators() &&
    exists a, b :: Splits(toks, a, TokOp(e.op), b) && Derives(std, n, e.left, a) && Derives(std, n.Operand(), e.right, b)
  }

  ghost predicate DerivesChoice(std: bool, e: Expr, toks: seq<Token>)
    decreases e, 0
  {
    e.Conditional? &&
    exists a, b, c ::
      Splits(toks, a, TokQuestion, b + ([TokColon] + c)) && Derives(std, LogicalOrExpression, e.cond, a)
      && Derives(std, Expression, e.thenExpr, b) && Derives(std, ConditionalExpression, e.elseExpr, c)
  }

  ghost predicate DerivesAssignment(std: bool, e: Expr, toks: seq<Token>)
    decreases e, 0
  {
    e.Binary? && e.op in ASSIGNMENT_OPERATORS &&
    exists a, b :: Splits(toks, a, TokOp(e.op), b) && Derives(std, AssignmentExpression, e.right, b)
                   && Derives(std, Target(std), e.left, a)
  }

  // --- The grammar and the levels ---

  /** The lowest level of what a nonterminal derives. */
  function Lowest(n: Nonterminal): nat {
    match n
    case Expression => COMMA
    case AssignmentExpression => ASSIGN
    case ConditionalExpression => TERNARY
    case UnaryExpression => UNARY
    case PostfixExpression => POSTFIX
    case PrimaryExpression => POSTFIX
    case _ => 17 - n.Rank()
  }

  /** The tree has enough parentheses for its place, and the tokens are its tokens. */
  ghost predicate IsPrinted(std: bool, n: Nonterminal, e: Expr, toks: seq<Token>) {
    Wrapped(e) && Level(e) >= Lowest(n) && toks == Unparse(e) && (std ==> TargetsAreUnary(e))
  }

  /** No argument of a call is an assignment without parentheses. */
  predicate ArgumentsBind(e: Expr)
    decreases e, 0
  {
    match e
    case Unary(_, a) => ArgumentsBind(a)
    case Binary(_, l, r) => ArgumentsBind(l) && ArgumentsBind(r)
    case Paren(a) => ArgumentsBind(a)
    case Conditional(c, a, b) => ArgumentsBind(c) && ArgumentsBind(a) && ArgumentsBind(b)
    case Call(f, args) =>
      ArgumentsBind(f) && forall i | 0 <= i < |args| :: ArgumentBinds(args[i])
    case Index(a, i) => ArgumentsBind(a) && ArgumentsBind(i)
    case Member(a, _, _) => ArgumentsBind(a)
    case SizeofExpr(a) => ArgumentsBind(a)
    case _ => true
  }

  predicate ArgumentBinds(arg: Expr)
    decreases arg, 1
  {
    ArgumentsBind(arg) && !(arg.Binary? && arg.op in ASSIGNMENT_OPERATORS)
  }

  /** No assignment is to a binary operation or a conditional without parentheses. */
  predicate TargetsAreUnary(e: Expr) {
    match e
    case Unary(_, a) => TargetsAreUnary(a)
    case Binary(op, l, r) =>
      TargetsAreUnary(l) && TargetsAreUnary(r) && (op in ASSIGNMENT_OPERATORS ==> !l.Binary? && !l.Conditional?)
    case Paren(a) => TargetsAreUnary(a)
    case Conditional(c, a, b) => TargetsAreUnary(c) && TargetsAreUnary(a) && TargetsAreUnary(b)
    case Call(f, args) => TargetsAreUnary(f) && forall i | 0 <= i < |args| :: TargetsAreUnary(args[i])
    case Index(a, i) => TargetsAreUnary(a) && TargetsAreUnary(i)
    case Member(a, _, _) => TargetsAreUnary(a)
    case SizeofExpr(a) => TargetsAreUnary(a)
    case _ => true
  }

  lemma OperatorsHaveLevel(n: Nonterminal, op: BinaryOp)
    requires n.IsLayer()
    ensures op in n.Operators() <==> OpPrecedence(op) == Lowest(n)
  {
    match op
    case _ =>
  }

  lemma OperandIsNext(n: Nonterminal)
    requires n.IsLayer()
    ensures Lowest(n.Operand()) == Lowest(n) + 1
  {
  }

  lemma AssignmentOperatorsAre(op: BinaryOp)
    ensures op in ASSIGNMENT_OPERATORS <==> op.IsAssign()
  {
  }

  /** What the alternatives of a nonterminal need: a nonterminal that is an alternative by itself is at least as tight. */
  lemma Weaker(std: bool, m: Nonterminal, n: Nonterminal, e: Expr, toks: seq<Token>)
    requires IsPrinted(std, m, e, toks) && Lowest(m) >= Lowest(n)
    ensures IsPrinted(std, n, e, toks)
  {
  }

  lemma {:induction false} DerivedIsPrinted(std: bool, n: Nonterminal, e: Expr, toks: seq<Token>)
    requires Derives(std, n, e, toks) && (std ==> ArgumentsBind(e))
    ensures IsPrinted(std, n, e, toks)
    decreases e, n.Rank(), 1
  {
    if n.IsLayer() {
      OperandIsNext(n);
      if Derives(std, n.Operand(), e, toks) { InnerIsPrinted(std, n.Operand(), n, e, toks); } else { BinaryIsPrinted(std, n, e, toks); }
    } else {
      match n
      case PrimaryExpression => PrimaryIsPrinted(std, e, toks);
      case PostfixExpression =>
        if DerivesPostfix(std, e, toks) { PostfixIsPrinted(std, e, toks); } else { InnerIsPrinted(std, PrimaryExpression, n, e, toks); }
      case UnaryExpression =>
        if DerivesPrefix(std, e, toks) { PrefixIsPrinted(std, e, toks); } else { InnerIsPrinted(std, PostfixExpression, n, e, toks); }
      case ConditionalExpression =>
        if DerivesChoice(std, e, toks) { ChoiceIsPrinted(std, e, toks); } else { InnerIsPrinted(std, LogicalOrExpression, n, e, toks); }
      case AssignmentExpression =>
        if DerivesAssignment(std, e, toks) {
          AssignmentIsPrinted(std, e, toks);
        } else {
          InnerIsPrinted(std, ConditionalExpression, n, e, toks);
        }
    }
  }

  lemma {:induction false} InnerIsPrinted(std: bool, m: Nonterminal, n: Nonterminal, e: Expr, toks: seq<Token>)
    requires Derives(std, m, e, toks) && (std ==> ArgumentsBind(e)) && m.Rank() < n.Rank() && Lowest(m) >= Lowest(n)
    ensures IsPrinted(std, n, e, toks)
    decreases e, n.Rank(), 0
  {
    DerivedIsPrinted(std, m, e, toks);
    Weaker(std, m, n, e, toks);
  }

  lemma {:induction false} PrimaryIsPrinted(std: bool, e: Expr, toks: seq<Token>)
    requires DerivesPrimary(std, e, toks) && (std ==> ArgumentsBind(e))
    ensures IsPrinted(std, PrimaryExpression, e, toks)
    decreases e, 0
  {
    if e.Paren? {
      var b :| toks == [TokLParen] + (b + [TokRParen]) && Derives(std, Expression, e.inner, b);
      DerivedIsPrinted(std, Expression, e.inner, b);
    }
  }

  lemma {:induction false} PostfixIsPrinted(std: bool, e: Expr, toks: seq<Token>)
    requires DerivesPostfix(std, e, toks) && (std ==> ArgumentsBind(e))
    ensures IsPrinted(std, PostfixExpression, e, toks)
    decreases e, 0
  {
    match e
    case Index(p, i) =>
      var a, b :| Splits(toks, a, TokLBracket, b + [TokRBracket]) && Derives(std, PostfixExpression, p, a) && Derives(std, Expression, i, b);
      DerivedIsPrinted(std, PostfixExpression, p, a);
      DerivedIsPrinted(std, Expression, i, b);
    case Call(p, args) =>
      var a, b :| Splits(toks, a, TokLParen, b + [TokRParen]) && Derives(std, PostfixExpression, p, a) && DerivesArgs(std, args, b);
      DerivedIsPrinted(std, PostfixExpression, p, a);
      ArgsArePrinted(std, args, b);
    case Member(p, name, isArrow) =>
      var a :| Splits(toks, a, if isArrow then TokArrow else TokDot, [TokIdent(name)]) && Derives(std, PostfixExpression, p, a);
      DerivedIsPrinted(std, PostfixExpression, p, a);
    case Unary(op, p) =>
      var a :| Splits(toks, a, if op.OpPostInc? then TokIncrement else TokDecrement, []) && Derives(std, PostfixExpression, p, a);
      DerivedIsPrinted(std, PostfixExpression, p, a);
  }

  lemma {:induction false} ArgsArePrinted(std: bool, args: seq<Expr>, toks: seq<Token>)
    requires DerivesArgs(std, args, toks) && (std ==> forall i | 0 <= i < |args| :: ArgumentBinds(args[i]))
    ensures toks == UnparseArgs(args)
    ensures forall i | 0 <= i < |args| :: Wrapped(args[i]) && Level(args[i]) > ASSIGN && (std ==> TargetsAreUnary(args[i]))
    decreases args, 17
  {
    if args == [] {
    } else if |args| == 1 {
      ArgIsPrinted(std, args[0], toks);
    } else {
      var a, b :| Splits(toks, a, TokOp(OpComma), b) && DerivesArgs(std, args[1..], b) && Derives(std, Argument(std), args[0], a);
      ArgIsPrinted(std, args[0], a);
      ArgsArePrinted(std, args[1..], b);
    }
  }

  lemma {:induction false} ArgIsPrinted(std: bool, arg: Expr, toks: seq<Token>)
    requires Derives(std, Argument(std), arg, toks) && (std ==> ArgumentBinds(arg))
    ensures IsPrinted(std, ConditionalExpression, arg, toks)
    decreases arg, 17
  {
    DerivedIsPrinted(std, Argument(std), arg, toks);
    if arg.Binary? { AssignmentOperatorsAre(arg.op); }
  }

  lemma {:induction false} PrefixIsPrinted(std: bool, e: Expr, toks: seq<Token>)
    requires DerivesPrefix(std, e, toks) && (std ==> ArgumentsBind(e))
    ensures IsPrinted(std, UnaryExpression, e, toks)
    decreases e, 0
  {
    if e.SizeofExpr? {
      var b :| toks == [TokSizeof] + b && Derives(std, UnaryExpression, e.operand, b);
      DerivedIsPrinted(std, UnaryExpression, e.operand, b);
    } else {
      var b :| Derives(std, UnaryExpression, e.arg, b) && toks == [UnaryToken(e.uop)] + b;
      DerivedIsPrinted(std, UnaryExpression, e.arg, b);
    }
  }

  lemma {:induction false} BinaryIsPrinted(std: bool, n: Nonterminal, e: Expr, toks: seq<Token>)
    requires n.IsLayer() && DerivesBinary(std, n, e, toks) && (std ==> ArgumentsBind(e))
    ensures IsPrinted(std, n, e, toks)
    decreases e, 0
  {
    var a, b :| Splits(toks, a, TokOp(e.op), b) && Derives(std, n, e.left, a) && Derives(std, n.Operand(), e.right, b);
    DerivedIsPrinted(std, n, e.left, a);
    DerivedIsPrinted(std, n.Operand(), e.right, b);
    OperationIsPrinted(std, n, e, a, b);
  }

  lemma OperationIsPrinted(std: bool, n: Nonterminal, e: Expr, a: seq<Token>, b: seq<Token>)
    requires n.IsLayer() && e.Binary? && e.op in n.Operators()
    requires IsPrinted(std, n, e.left, a) && IsPrinted(std, n.Operand(), e.right, b)
    ensures IsPrinted(std, n, e, a + ([TokOp(e.op)] + b))
  {
    OperatorsHaveLevel(n, e.op);
    OperandIsNext(n);
    AssignmentOperatorsAre(e.op);
    assert 1 <= Lowest(n) != ASSIGN;
  }

  lemma {:induction false} ChoiceIsPrinted(std: bool, e: Expr, toks: seq<Token>)
    requires DerivesChoice(std, e, toks) && (std ==> ArgumentsBind(e))
    ensures IsPrinted(std, ConditionalExpression, e, toks)
    decreases e, 0
  {
    var a, b, c :| Splits(toks, a, TokQuestion, b + ([TokColon] + c)) && Derives(std, LogicalOrExpression, e.cond, a)
                   && Derives(std, Expression, e.thenExpr, b) && Derives(std, ConditionalExpression, e.elseExpr, c);
    DerivedIsPrinted(std, LogicalOrExpression, e.cond, a);
    DerivedIsPrinted(std, Expression, e.thenExpr, b);
    DerivedIsPrinted(std, ConditionalExpression, e.elseExpr, c);
  }

  lemma {:induction false} AssignmentIsPrinted(std: bool, e: Expr, toks: seq<Token>)
    requires DerivesAssignment(std, e, toks) && (std ==> ArgumentsBind(e))
    ensures IsPrinted(std, AssignmentExpression, e, toks)
    decreases e, 0
  {
    var a, b :| Splits(toks, a, TokOp(e.op), b) && Derives(std, AssignmentExpression, e.right, b)
                && Derives(std, Target(std), e.left, a);
    DerivedIsPrinted(std, AssignmentExpression, e.right, b);
    DerivedIsPrinted(std, Target(std), e.left, a);
    AssignmentOperatorsAre(e.op);
  }

  /** And the other way round. */
  lemma {:induction false} PrintedIsDerived(std: bool, n: Nonterminal, e: Expr)
    requires Wrapped(e) && Level(e) >= Lowest(n) && (n == PrimaryExpression ==> IsPrimary(e)) && (std ==> TargetsAreUnary(e))
    ensures Derives(std, n, e, Unparse(e))
    decreases e, n.Rank(), 1
  {
    if n.IsLayer() {
      LayerIsDerived(std, n, e);
    } else {
      match n
      case PrimaryExpression => PrimaryIsDerived(std, e);
      case PostfixExpression => if IsPrimary(e) { PrintedIsDerived(std, PrimaryExpression, e); } else { PostfixIsDerived(std, e); }
      case UnaryExpression => if Level(e) >= POSTFIX { PrintedIsDerived(std, PostfixExpression, e); } else { PrefixIsDerived(std, e); }
      case ConditionalExpression =>
        if Level(e) > TERNARY { PrintedIsDerived(std, LogicalOrExpression, e); } else { ChoiceIsDerived(std, e); }
      case AssignmentExpression =>
        if Level(e) > ASSIGN { PrintedIsDerived(std, ConditionalExpression, e); } else { AssignmentIsDerived(std, e); }
    }
  }

  lemma {:induction false} LayerIsDerived(std: bool, n: Nonterminal, e: Expr)
    requires n.IsLayer() && Wrapped(e) && Level(e) >= Lowest(n) && (std ==> TargetsAreUnary(e))
    ensures Derives(std, n, e, Unparse(e))
    decreases e, n.Rank(), 0
  {
    OperandIsNext(n);
    if Level(e) > Lowest(n) { PrintedIsDerived(std, n.Operand(), e); } else { BinaryIsDerived(std, n, e); }
  }

  predicate IsPrimary(e: Expr) {
    e.Variable? || e.Constant? || e.CharLiteral? || e.StringLiteral? || e.Paren?
  }

  lemma {:induction false} PrimaryIsDerived(std: bool, e: Expr)
    requires Wrapped(e) && IsPrimary(e) && (std ==> TargetsAreUnary(e))
    ensures DerivesPrimary(std, e, Unparse(e))
    decreases e, 0
  {
    if e.Paren? {
      PrintedIsDerived(std, Expression, e.inner);
    }
  }

  lemma {:induction false} PostfixIsDerived(std: bool, e: Expr)
    requires Wrapped(e) && Level(e) == POSTFIX && !IsPrimary(e) && (std ==> TargetsAreUnary(e))
    ensures DerivesPostfix(std, e, Unparse(e))
    decreases e, 0
  {
    match e
    case Index(p, i) =>
      PrintedIsDerived(std, PostfixExpression, p);
      PrintedIsDerived(std, Expression, i);
      assert Splits(Unparse(e), Unparse(p), TokLBracket, Unparse(i) + [TokRBracket]);
    case Call(p, args) =>
      PrintedIsDerived(std, PostfixExpression, p);
      ArgsAreDerived(std, args);
      assert Splits(Unparse(e), Unparse(p), TokLParen, UnparseArgs(args) + [TokRParen]);
    case Member(p, name, isArrow) =>
      PrintedIsDerived(std, PostfixExpression, p);
      assert Splits(Unparse(e), Unparse(p), if isArrow then TokArrow else TokDot, [TokIdent(name)]);
    case Unary(op, p) =>
      PrintedIsDerived(std, PostfixExpression, p);
      assert Splits(Unparse(e), Unparse(p), if op.OpPostInc? then TokIncrement else TokDecrement, []);
  }

  lemma {:induction false} ArgsAreDerived(std: bool, args: seq<Expr>)
    requires forall i | 0 <= i < |args| :: Wrapped(args[i]) && Level(args[i]) > ASSIGN && (std ==> TargetsAreUnary(args[i]))
    ensures DerivesArgs(std, args, UnparseArgs(args))
    decreases args, 17
  {
    if args != [] {
      PrintedIsDerived(std, Argument(std), args[0]);
      if |args| > 1 {
        ArgsAreDerived(std, args[1..]);
        assert Splits(UnparseArgs(args), Unparse(args[0]), TokOp(OpComma), UnparseArgs(args[1..]));
      }
    }
  }

  lemma {:induction false} PrefixIsDerived(std: bool, e: Expr)
    requires Wrapped(e) && Level(e) == UNARY && (std ==> TargetsAreUnary(e))
    ensures DerivesPrefix(std, e, Unparse(e))
    decreases e, 0
  {
    PrintedIsDerived(std, UnaryExpression, if e.SizeofExpr? then e.operand else e.arg);
  }

  lemma {:induction false} BinaryIsDerived(std: bool, n: Nonterminal, e: Expr)
    requires n.IsLayer() && Wrapped(e) && Level(e) == Lowest(n) && (std ==> TargetsAreUnary(e))
    ensures DerivesBinary(std, n, e, Unparse(e))
    decreases e, 0
  {
    OperatorsHaveLevel(n, e.op);
    OperandIsNext(n);
    PrintedIsDerived(std, n, e.left);
    PrintedIsDerived(std, n.Operand(), e.right);
    assert Splits(Unparse(e), Unparse(e.left), TokOp(e.op), Unparse(e.right));
  }

  lemma {:induction false} ChoiceIsDerived(std: bool, e: Expr)
    requires Wrapped(e) && Level(e) == TERNARY && (std ==> TargetsAreUnary(e))
    ensures DerivesChoice(std, e, Unparse(e))
    decreases e, 0
  {
    PrintedIsDerived(std, LogicalOrExpression, e.cond);
    PrintedIsDerived(std, Expression, e.thenExpr);
    PrintedIsDerived(std, ConditionalExpression, e.elseExpr);
    assert Splits(Unparse(e), Unparse(e.cond), TokQuestion, Unparse(e.thenExpr) + ([TokColon] + Unparse(e.elseExpr)));
  }

  lemma {:induction false} AssignmentIsDerived(std: bool, e: Expr)
    requires Wrapped(e) && Level(e) == ASSIGN && (std ==> TargetsAreUnary(e))
    ensures DerivesAssignment(std, e, Unparse(e))
    decreases e, 0
  {
    AssignmentOperatorsAre(e.op);
    PrintedIsDerived(std, AssignmentExpression, e.right);
    PrintedIsDerived(std, Target(std), e.left);
    assert Splits(Unparse(e), Unparse(e.left), TokOp(e.op), Unparse(e.right));
  }

  lemma {:induction false} WrappedBinds(e: Expr)
    requires Wrapped(e)
    ensures ArgumentsBind(e)
    decreases e
  {
    match e
    case Unary(_, a) => WrappedBinds(a);
    case Binary(_, l, r) => WrappedBinds(l); WrappedBinds(r);
    case Paren(a) => WrappedBinds(a);
    case Conditional(c, a, b) => WrappedBinds(c); WrappedBinds(a); WrappedBinds(b);
    case Call(f, args) =>
      WrappedBinds(f);
      forall i | 0 <= i < |args| ensures ArgumentBinds(args[i]) {
        WrappedBinds(args[i]);
        if args[i].Binary? { AssignmentOperatorsAre(args[i].op); }
      }
    case Index(a, i) => WrappedBinds(a); WrappedBinds(i);
    case Member(a, _, _) => WrappedBinds(a);
    case SizeofExpr(a) => WrappedBinds(a);
    case _ =>
  }

  /** The trees with enough parentheses, with their tokens, are those of the parser's grammar. */
  lemma WrappedIsGrammar(e: Expr, toks: seq<Token>)
    ensures Wrapped(e) && toks == Unparse(e) <==> Derives(false, Expression, e, toks)
  {
    if Derives(false, Expression, e, toks) {
      DerivedIsPrinted(false, Expression, e, toks);
    } else if Wrapped(e) && toks == Unparse(e) {
      PrintedIsDerived(false, Expression, e);
    }
  }

  /** The standard's grammar derives the same trees, but for what the two places of its own allow. */
  lemma StandardIsParsers(e: Expr, toks: seq<Token>)
    ensures Derives(true, Expression, e, toks) && ArgumentsBind(e) <==> Derives(false, Expression, e, toks) && TargetsAreUnary(e)
  {
    if Derives(true, Expression, e, toks) && ArgumentsBind(e) {
      DerivedIsPrinted(true, Expression, e, toks);
      PrintedIsDerived(false, Expression, e);
    } else if Derives(false, Expression, e, toks) && TargetsAreUnary(e) {
      DerivedIsPrinted(false, Expression, e, toks);
      PrintedIsDerived(true, Expression, e);
      WrappedBinds(e);
    }
  }

  /** The tokens are parsed to a tree if and only if the parser's grammar derives them with it. */
  lemma ParsesTheGrammar(toks: seq<Token>, e: Expr)
    ensures ParseExpr(toks, LOWEST) == Ok(e, []) <==> Derives(false, Expression, e, toks)
  {
    WrappedIsGrammar(e, toks);
    assert Unparse(e) + [] == Unparse(e);
    ParsesExactly(toks, e, []);
  }

  /** What the standard derives is parsed to the same tree if and only if every argument that is an assignment is in
      parentheses; what else is parsed assigns to an operation. */
  lemma ParsesTheStandard(toks: seq<Token>, e: Expr)
    ensures Derives(true, Expression, e, toks) ==> (ParseExpr(toks, LOWEST) == Ok(e, []) <==> ArgumentsBind(e))
    ensures ParseExpr(toks, LOWEST) == Ok(e, []) ==> (Derives(true, Expression, e, toks) <==> TargetsAreUnary(e))
  {
    ParsesTheGrammar(toks, e);
    StandardIsParsers(e, toks);
    if Derives(false, Expression, e, toks) {
      DerivedIsPrinted(false, Expression, e, toks);
      WrappedBinds(e);
      if Derives(true, Expression, e, toks) { DerivedIsPrinted(true, Expression, e, toks); }
    }
  }
}
