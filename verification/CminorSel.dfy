/** CminorSel: structured code over named variables (pkg/cminorsel/ast.go), with a big-step semantics.  Labels,
    gotos and let-bindings are not part of this model. */
module CminorSel {
  import opened Values

  datatype ShiftOp = Slsl | Slsr | Sasr

  type Amount = n: int | 0 <= n < 64

  datatype Expr =
    | Evar(name: string)
    | Econst(c: Constant)
    | Eunop(op: Operation, arg: Expr)
    | Ebinop(op: Operation, left: Expr, right: Expr)
    | Eload(chunk: Chunk, addr: AddrMode, args: seq<Expr>)
    | Econdition(cond: Cond, ifTrue: Expr, ifFalse: Expr)
    | Eaddshift(shift: ShiftOp, amount: Amount, left: Expr, right: Expr)
    | Esubshift(shift: ShiftOp, amount: Amount, left: Expr, right: Expr)
    | Ecmp(kind: CmpKind, cmp: Cmp, left: Expr, right: Expr)

  datatype Cond =
    | CondTrue
    | CondFalse
    | CondCmp(kind: CmpKind, cmp: Cmp, left: Expr, right: Expr)
    | CondNot(c: Cond)
    | CondAnd(l: Cond, r: Cond)
    | CondOr(l: Cond, r: Cond)

  datatype Case = Case(value: int, body: Stmt)

  datatype Stmt =
    | Sskip
    | Sassign(name: string, rhs: Expr)
    | Sstore(chunk: Chunk, addr: AddrMode, args: seq<Expr>, value: Expr)
    | Scall(result: Option<string>, sig: Sig, func: Expr, args: seq<Expr>)
    | Stailcall(sig: Sig, func: Expr, args: seq<Expr>)
    | Sbuiltin(result: Option<string>, builtin: string, args: seq<Expr>)
    | Sseq(first: Stmt, second: Stmt)
    | Sifthenelse(cond: Cond, ifTrue: Stmt, ifFalse: Stmt)
    | Sloop(body: Stmt)
    | Sblock(body: Stmt)
    | Sexit(n: int)
    | Sswitch(isLong: bool, expr: Expr, cases: seq<Case>, default: Stmt)
    | Sreturn(ret: Option<Expr>)

  datatype Function = Function(params: seq<string>, vars: seq<string>, body: Stmt)

  type Env = map<string, Val>

  // --- Sizes, for recursion ---

  function ESize(e: Expr): nat {
    match e
    case Evar(_) => 1
    case Econst(_) => 1
    case Eunop(_, a) => 1 + ESize(a)
    case Ebinop(_, l, r) => 1 + ESize(l) + ESize(r)
    case Eload(_, _, args) => 1 + LSize(args)
    case Econdition(c, a, b) => 1 + CSize(c) + ESize(a) + ESize(b)
    case Eaddshift(_, _, l, r) => 1 + ESize(l) + ESize(r)
    case Esubshift(_, _, l, r) => 1 + ESize(l) + ESize(r)
    case Ecmp(_, _, l, r) => 1 + ESize(l) + ESize(r)
  }

  function CSize(c: Cond): nat {
    match c
    case CondTrue => 4
    case CondFalse => 4
    case CondCmp(_, _, l, r) => 4 + ESize(l) + ESize(r)
    case CondNot(a) => 1 + CSize(a)
    case CondAnd(a, b) => 1 + CSize(a) + CSize(b)
    case CondOr(a, b) => 1 + CSize(a) + CSize(b)
  }

  function LSize(es: seq<Expr>): nat {
    if es == [] then 0 else LSize(es[..|es| - 1]) + 1 + ESize(es[|es| - 1])
  }

  // --- Meaning ---

  function EvalUnary(o: Oracle, op: Operation, a: Option<Val>, m: Mem): Option<Val> {
    if a.Some? then EvalOp(o, op, [a.value], m) else None
  }

  function EvalBinary(o: Oracle, op: Operation, a: Option<Val>, b: Option<Val>, m: Mem): Option<Val> {
    if a.Some? && b.Some? then EvalOp(o, op, [a.value, b.value], m) else None
  }

  function EvalShift(o: Oracle, shift: ShiftOp, amount: int, a: Option<Val>, m: Mem): Option<Val> {
    match shift
    case Slsl => EvalUnary(o, Oshlimm(amount), a, m)
    case Slsr => EvalUnary(o, Oshruimm(amount), a, m)
    case Sasr => EvalUnary(o, Oshrimm(amount), a, m)
  }

  /** An operation whose right operand is shifted first. */
  function EvalShifted(o: Oracle, op: Operation, shift: ShiftOp, amount: int, a: Option<Val>, b: Option<Val>, m: Mem): Option<Val> {
    EvalBinary(o, op, a, EvalShift(o, shift, amount, b, m), m)
  }

  function EvalExpr(o: Oracle, env: Env, m: Mem, e: Expr): Option<Val>
    decreases ESize(e)
  {
    match e
    case Evar(x) => Some(Get(env, x))
    case Econst(c) => EvalOp(o, Oconst(c), [], m)
    case Eunop(op, a) => EvalUnary(o, op, EvalExpr(o, env, m, a), m)
    case Ebinop(op, l, r) => EvalBinary(o, op, EvalExpr(o, env, m, l), EvalExpr(o, env, m, r), m)
    case Eload(chunk, addr, args) =>
      (match EvalList(o, env, m, args)
       case Some(vs) => o.load(chunk, addr, vs, m)
       case None => None)
    case Econdition(c, a, b) =>
      (match EvalCond(o, env, m, c)
       case Some(t) => if t then EvalExpr(o, env, m, a) else EvalExpr(o, env, m, b)
       case None => None)
    case Eaddshift(shift, n, l, r) =>
      EvalShifted(o, Oadd, shift, n, EvalExpr(o, env, m, l), EvalExpr(o, env, m, r), m)
    case Esubshift(shift, n, l, r) =>
      EvalShifted(o, Osub, shift, n, EvalExpr(o, env, m, l), EvalExpr(o, env, m, r), m)
    case Ecmp(kind, cmp, l, r) => EvalBinary(o, Ocmp(kind, cmp), EvalExpr(o, env, m, l), EvalExpr(o, env, m, r), m)
  }

  function EvalCond(o: Oracle, env: Env, m: Mem, c: Cond): Option<bool>
    decreases CSize(c)
  {
    match c
    case CondTrue => Some(true)
    case CondFalse => Some(false)
    case CondCmp(kind, cmp, l, r) =>
      (match (EvalExpr(o, env, m, l), EvalExpr(o, env, m, r))
       case (Some(x), Some(y)) => Compare(o, kind, cmp, x, y)
       case _ => None)
    case CondNot(a) => Not(EvalCond(o, env, m, a))
    case CondAnd(a, b) =>
      (match EvalCond(o, env, m, a)
       case Some(t) => if t then EvalCond(o, env, m, b) else Some(false)
       case None => None)
    case CondOr(a, b) =>
      (match EvalCond(o, env, m, a)
       case Some(t) => if t then Some(true) else EvalCond(o, env, m, b)
       case None => None)
  }

  function EvalList(o: Oracle, env: Env, m: Mem, es: seq<Expr>): (r: Option<seq<Val>>)
    ensures r.Some? ==> |r.value| == |es|
    decreases LSize(es)
  {
    if es == [] then Some([])
    else
      var last := |es| - 1;
      match (EvalList(o, env, m, es[..last]), EvalExpr(o, env, m, es[last]))
      case (Some(vs), Some(v)) => Some(vs + [v])
      case _ => None
  }

  /** A named function is called by name; anything else is an address. */
  function CalledSymbol(func: Expr): Option<string> {
    if func.Econst? && func.c.Oaddrsymbol? then Some(func.c.symbol) else None
  }

  function EvalCallee(o: Oracle, env: Env, m: Mem, func: Expr): Option<Callee> {
    if CalledSymbol(func).Some? then Some(ToSymbol(CalledSymbol(func).value))
    else
      match EvalExpr(o, env, m, func)
      case Some(v) => Some(ToAddress(v))
      case None => None
  }

  /** How a statement ends. */
  datatype Outcome = Normal | Exit(n: nat) | Return(v: Option<Val>) | TailCall(callee: Callee, args: seq<Val>)

  datatype Result = Result(out: Outcome, env: Env, m: Mem, tr: Trace)

  function Set(env: Env, result: Option<string>, v: Val): Env {
    if result.Some? then env[result.value := v] else env
  }

  /** The first case with the number; the number of cases if there is none. */
  function FirstCase(cases: seq<Case>, n: int): (i: nat)
    ensures i <= |cases| && (i < |cases| ==> cases[i].value == n) && forall j | 0 <= j < i :: cases[j].value != n
  {
    if cases == [] then 0
    else
      var last := |cases| - 1;
      var i := FirstCase(cases[..last], n);
      if i == last && cases[last].value != n then |cases| else i
  }

  /** The case that a value selects, if it is a number. */
  function Select(o: Oracle, isLong: bool, v: Val, cases: seq<Case>): (r: Option<nat>)
    ensures r.Some? ==> r.value <= |cases|
  {
    if cases == [] then Some(0)
    else
      match o.asInt(if isLong then Klong else Kint, v)
      case Some(n) => Some(FirstCase(cases, n))
      case None => None
  }

  /** It is the first whose value is that number. */
  lemma SelectsFirst(o: Oracle, isLong: bool, v: Val, cases: seq<Case>, n: int, i: nat)
    requires o.asInt(if isLong then Klong else Kint, v) == Some(n)
    ensures Select(o, isLong, v, cases) == Some(i) <==>
            (i <= |cases| && (i < |cases| ==> cases[i].value == n) && forall j | 0 <= j < i :: cases[j].value != n)
  {
  }

  /** Executes a statement; None when it goes wrong or the fuel, which bounds the iterations of loops, runs out. */
  function Exec(o: Oracle, fuel: nat, s: Stmt, env: Env, m: Mem, tr: Trace): Option<Result>
    decreases fuel, s
  {
    match s
    case Sskip => Some(Result(Normal, env, m, tr))
    case Sassign(x, e) =>
      (match EvalExpr(o, env, m, e)
       case Some(v) => Some(Result(Normal, env[x := v], m, tr))
       case None => None)
    case Sstore(chunk, addr, args, value) =>
      (match (EvalList(o, env, m, args), EvalExpr(o, env, m, value))
       case (Some(vs), Some(v)) =>
         (match o.store(chunk, addr, vs, v, m)
          case Some(m') => Some(Result(Normal, env, m', tr))
          case None => None)
       case _ => None)
    case Scall(result, _, func, args) =>
      (match (EvalList(o, env, m, args), EvalCallee(o, env, m, func))
       case (Some(vs), Some(callee)) =>
         (match o.call(callee, vs, m)
          case Some((v, m')) => Some(Result(Normal, Set(env, result, v), m', tr + [EvCall(callee, vs)]))
          case None => None)
       case _ => None)
    case Stailcall(_, func, args) =>
      (match (EvalList(o, env, m, args), EvalCallee(o, env, m, func))
       case (Some(vs), Some(callee)) => Some(Result(TailCall(callee, vs), env, m, tr))
       case _ => None)
    case Sbuiltin(result, name, args) =>
      (match EvalList(o, env, m, args)
       case Some(vs) =>
         (match o.builtin(name, vs, m)
          case Some((v, m')) => Some(Result(Normal, Set(env, result, v), m', tr + [EvBuiltin(name, vs)]))
          case None => None)
       case None => None)
    case Sseq(a, b) =>
      (match Exec(o, fuel, a, env, m, tr)
       case Some(r) => if r.out.Normal? then Exec(o, fuel, b, r.env, r.m, r.tr) else Some(r)
       case None => None)
    case Sifthenelse(c, a, b) =>
      (match EvalCond(o, env, m, c)
       case Some(t) => if t then Exec(o, fuel, a, env, m, tr) else Exec(o, fuel, b, env, m, tr)
       case None => None)
    case Sloop(body) =>
      if fuel == 0 then None
      else
        (match Exec(o, fuel - 1, body, env, m, tr)
         case Some(r) => if r.out.Normal? then Exec(o, fuel - 1, s, r.env, r.m, r.tr) else Some(r)
         case None => None)
    case Sblock(body) =>
      (match Exec(o, fuel, body, env, m, tr)
       case Some(r) => Some(r.(out := AfterBlock(r.out)))
       case None => None)
    case Sexit(n) => if n >= 0 then Some(Result(Exit(n), env, m, tr)) else None
    case Sswitch(isLong, e, cases, default) =>
      (match EvalExpr(o, env, m, e)
       case Some(v) =>
         (match Select(o, isLong, v, cases)
          case Some(i) => if i < |cases| then Exec(o, fuel, cases[i].body, env, m, tr) else Exec(o, fuel, default, env, m, tr)
          case None => None)
       case None => None)
    case Sreturn(ret) =>
      if ret.None? then Some(Result(Return(None), env, m, tr))
      else
        (match EvalExpr(o, env, m, ret.value)
         case Some(v) => Some(Result(Return(Some(v)), env, m, tr))
         case None => None)
  }

  /** Leaving a block: exit 0 ends here, the others go on. */
  function AfterBlock(out: Outcome): Outcome {
    match out
    case Exit(n) => if n == 0 then Normal else Exit(n - 1)
    case _ => out
  }

  // --- What the translation can cope with ---

  /** Negations of comparisons and constants only. */
  predicate IsSimple(c: Cond) {
    match c
    case CondNot(a) => IsSimple(a)
    case CondAnd(_, _) => false
    case CondOr(_, _) => false
    case _ => true
  }

  /** No negation of a conjunction or disjunction. */
  predicate CondOk(c: Cond)
    decreases CSize(c)
  {
    match c
    case CondCmp(_, _, l, r) => ExprOk(l) && ExprOk(r)
    case CondNot(a) => IsSimple(a) && CondOk(a)
    case CondAnd(a, b) => CondOk(a) && CondOk(b)
    case CondOr(a, b) => CondOk(a) && CondOk(b)
    case _ => true
  }

  predicate ExprOk(e: Expr)
    decreases ESize(e)
  {
    match e
    case Eunop(_, a) => ExprOk(a)
    case Ebinop(_, l, r) => ExprOk(l) && ExprOk(r)
    case Eload(_, _, args) => ListOk(args)
    case Econdition(c, a, b) => CondOk(c) && ExprOk(a) && ExprOk(b)
    case Eaddshift(_, _, l, r) => ExprOk(l) && ExprOk(r)
    case Esubshift(_, _, l, r) => ExprOk(l) && ExprOk(r)
    case Ecmp(_, _, l, r) => ExprOk(l) && ExprOk(r)
    case _ => true
  }

  predicate ListOk(es: seq<Expr>)
    decreases LSize(es)
  {
    es == [] || (ListOk(es[..|es| - 1]) && ExprOk(es[|es| - 1]))
  }

  function Wrap32(n: int): int {
    (n + 0x8000_0000) % 0x1_0000_0000 - 0x8000_0000
  }

  /** Exits stay within the enclosing blocks, case values within their type, and conditions are supported. */
  predicate StmtOk(s: Stmt, depth: nat)
    decreases s
  {
    match s
    case Sassign(_, e) => ExprOk(e)
    case Sstore(_, _, args, v) => ListOk(args) && ExprOk(v)
    case Scall(_, _, f, args) => ExprOk(f) && ListOk(args)
    case Stailcall(_, f, args) => ExprOk(f) && ListOk(args)
    case Sbuiltin(_, _, args) => ListOk(args)
    case Sseq(a, b) => StmtOk(a, depth) && StmtOk(b, depth)
    case Sifthenelse(c, a, b) => CondOk(c) && StmtOk(a, depth) && StmtOk(b, depth)
    case Sloop(body) => StmtOk(body, depth)
    case Sblock(body) => StmtOk(body, depth + 1)
    case Sexit(n) => 0 <= n < depth
    case Sswitch(isLong, e, cases, default) =>
      && ExprOk(e) && StmtOk(default, depth)
      && forall c | c in cases :: StmtOk(c.body, depth) && (isLong || Wrap32(c.value) == c.value)
    case Sreturn(ret) => ret.Some? ==> ExprOk(ret.value)
    case _ => true
  }
}
