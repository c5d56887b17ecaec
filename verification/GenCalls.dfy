/** Calls by name stay calls by name: which source programs the argument moves always cope with. */
module GenCalls {
  import opened Values
  import opened CminorSel
  import opened Gen
  import opened GenGrows
  import R = RTL

  /** A call of a named function with at most as many arguments as argument registers. */
  predicate IsByName(i: R.Instr) {
    i.Icall? ==> i.fn.FunSymbol? && i.sig.nargs == |i.args| <= 8
  }

  ghost predicate AllByName(code: R.Code) {
    forall n | n in code :: IsByName(code[n])
  }

  /** The same, in the source. */
  predicate CallsByName(s: Stmt) {
    match s
    case Scall(_, sig, func, args) => CalledSymbol(func).Some? && sig.nargs == |args| <= 8
    case Sseq(a, b) => CallsByName(a) && CallsByName(b)
    case Sifthenelse(_, a, b) => CallsByName(a) && CallsByName(b)
    case Sloop(body) => CallsByName(body)
    case Sblock(body) => CallsByName(body)
    case Sswitch(_, _, cases, default) => CallsByName(default) && forall c | c in cases :: CallsByName(c.body)
    case _ => true
  }

  lemma EmitByName(g: Gen, i: R.Instr)
    requires AllByName(g.code) && IsByName(i)
    ensures AllByName(g.Emit(i).1.code)
  {
  }

  // --- Expressions and conditions hold no calls ---

  lemma {:induction false} ExprCalls(e: Expr, dest: R.Reg, succ: R.Node, g: Gen)
    requires AllByName(g.code)
    ensures AllByName(TransExpr(e, dest, succ, g).1.code)
    decreases ESize(e)
  {
    match e
    case Evar(x) => EmitByName(g.MapVar(x).1, R.Iop(Omove, [g.MapVar(x).0], dest, succ));
    case Econst(c) => EmitByName(g, R.Iop(Oconst(c), [], dest, succ));
    case Eunop(op, a) =>
      var (opNode, g1) := g.SkipRegs(1).Emit(R.Iop(op, [g.nextReg], dest, succ));
      ExprCalls(a, g.nextReg, opNode, g1);
    case Ebinop(op, l, r) => BinaryCalls(op, l, r, dest, succ, g);
    case Eload(chunk, addr, args) =>
      var regs := RegsFrom(g.nextReg, |args|);
      var g1 := TransList(args, regs, succ, g.SkipRegs(|args|)).1;
      var (node, g2) := g1.Emit(R.Iload(chunk, addr, regs, dest, succ));
      ListCalls(args, regs, succ, g.SkipRegs(|args|));
      ListCalls(args, regs, node, g2);
    case Econdition(c, a, b) => ChoiceCalls(c, a, b, dest, succ, g);
    case Eaddshift(shift, n, l, r) => ShiftedCalls(Oadd, ShiftOperation(shift, n), l, r, dest, succ, g);
    case Esubshift(shift, n, l, r) => ShiftedCalls(Osub, ShiftOperation(shift, n), l, r, dest, succ, g);
    case Ecmp(kind, cmp, l, r) => BinaryCalls(Ocmp(kind, cmp), l, r, dest, succ, g);
  }

  lemma {:induction false} ChoiceCalls(c: Cond, a: Expr, b: Expr, dest: R.Reg, succ: R.Node, g: Gen)
    requires AllByName(g.code)
    ensures AllByName(TransChoice(c, a, b, dest, succ, g).1.code)
    decreases CSize(c) + ESize(a) + ESize(b)
  {
    var (elseEntry, g1) := TransExpr(b, dest, succ, g);
    var (thenEntry, g2) := TransExpr(a, dest, succ, g1);
    SizesPositive(a, b);
    ExprCalls(b, dest, succ, g);
    ExprCalls(a, dest, succ, g1);
    CondCalls(c, thenEntry, elseEntry, g2);
  }

  lemma {:induction false} PairCalls(l: Expr, r: Expr, a: R.Reg, b: R.Reg, succ: R.Node, g: Gen)
    requires AllByName(g.code)
    ensures AllByName(TransPair(l, r, a, b, succ, g).1.code)
    decreases ESize(l) + ESize(r), 0
  {
    var (entry, g1) := TransExpr(r, b, succ, g);
    SizesPositive(l, r);
    ExprCalls(r, b, succ, g);
    ExprCalls(l, a, entry, g1);
  }

  lemma {:induction false} BinaryCalls(op: Operation, l: Expr, r: Expr, dest: R.Reg, succ: R.Node, g: Gen)
    requires AllByName(g.code)
    ensures AllByName(TransBinary(op, l, r, dest, succ, g).1.code)
    decreases ESize(l) + ESize(r), 1
  {
    var a: R.Reg, b: R.Reg := g.nextReg, g.nextReg + 1;
    var (opNode, g1) := g.SkipRegs(2).Emit(R.Iop(op, [a, b], dest, succ));
    PairCalls(l, r, a, b, opNode, g1);
  }

  lemma {:induction false} ShiftedCalls(op: Operation, shiftOp: Operation, l: Expr, r: Expr, dest: R.Reg, succ: R.Node, g: Gen)
    requires AllByName(g.code)
    ensures AllByName(TransShifted(op, shiftOp, l, r, dest, succ, g).1.code)
    decreases ESize(l) + ESize(r), 1
  {
    var a: R.Reg, b: R.Reg, c: R.Reg := g.nextReg, g.nextReg + 1, g.nextReg + 2;
    var (opNode, g1) := g.SkipRegs(3).Emit(R.Iop(op, [a, c], dest, succ));
    var (shiftNode, g2) := g1.Emit(R.Iop(shiftOp, [b], c, opNode));
    PairCalls(l, r, a, b, shiftNode, g2);
  }

  lemma {:induction false} ListCalls(es: seq<Expr>, regs: seq<R.Reg>, succ: R.Node, g: Gen)
    requires |regs| == |es| && AllByName(g.code)
    ensures AllByName(TransList(es, regs, succ, g).1.code)
    decreases LSize(es)
  {
    if es == [] {
    } else {
      var last := |es| - 1;
      var (entry, g1) := TransExpr(es[last], regs[last], succ, g);
      ExprCalls(es[last], regs[last], succ, g);
      ListCalls(es[..last], regs[..last], entry, g1);
    }
  }

  lemma {:induction false} CondCalls(c: Cond, ifso: R.Node, ifnot: R.Node, g: Gen)
    requires AllByName(g.code)
    ensures AllByName(TransCond(c, ifso, ifnot, g).1.code)
    decreases CSize(c)
  {
    match TranslateCondition(c)
    case Some((cc, args)) =>
      var regs, g0 := RegsFrom(g.nextReg, |args|), g.SkipNode().SkipRegs(|args|);
      var g1 := TransList(args, regs, g.nextNode, g0).1;
      var (node, g2) := g1.Emit(R.Icond(cc, regs, ifso, ifnot));
      ListCalls(args, regs, g.nextNode, g0);
      ListCalls(args, regs, node, g2);
    case None =>
      if c.CondAnd? || c.CondOr? {
        var (inner, g1) := TransCond(c.r, ifso, ifnot, g);
        CondCalls(c.r, ifso, ifnot, g);
        if c.CondAnd? {
          CondCalls(c.l, inner, ifnot, g1);
        } else {
          CondCalls(c.l, ifso, inner, g1);
        }
      }
  }

  // --- Statements ---

  lemma OperandsCalls(func: Expr, args: seq<Expr>, funcReg: R.Reg, argRegs: seq<R.Reg>, node: R.Node, g: Gen)
    requires |argRegs| == |args| && AllByName(g.code)
    ensures AllByName(TransOperands(func, args, funcReg, argRegs, node, g).1.code)
    ensures AllByName(TransListThen(args, argRegs, func, funcReg, node, g).1.code)
  {
    var (entry, g1) := TransExpr(func, funcReg, node, g);
    ListCalls(args, argRegs, node, g);
    ExprCalls(func, funcReg, node, g);
    ListCalls(args, argRegs, entry, g1);
  }

  lemma {:induction false} StmtCalls(s: Stmt, succ: R.Node, targets: seq<R.Node>, g: Gen)
    requires CallsByName(s) && AllByName(g.code)
    ensures AllByName(TransStmt(s, succ, targets, g).1.code)
    decreases s
  {
    match s
    case Sassign(x, e) => ExprCalls(e, g.MapVar(x).0, succ, g.MapVar(x).1);
    case Sseq(a, b) =>
      var (second, g1) := TransStmt(b, succ, targets, g);
      StmtCalls(b, succ, targets, g);
      StmtCalls(a, second, targets, g1);
    case Sifthenelse(c, a, b) =>
      var (thenEntry, g1) := TransStmt(a, succ, targets, g);
      var (elseEntry, g2) := TransStmt(b, succ, targets, g1);
      StmtCalls(a, succ, targets, g);
      StmtCalls(b, succ, targets, g1);
      CondCalls(c, thenEntry, elseEntry, g2);
    case Sloop(body) => StmtCalls(body, g.nextNode, targets, g.SkipNode());
    case Sblock(body) => StmtCalls(body, succ, targets + [succ], g);
    case Sswitch(isLong, e, cases, default) =>
      var exprReg: R.Reg := g.nextReg;
      var (defaultEntry, g1) := TransStmt(default, succ, targets, g.SkipRegs(1));
      var (first, g2) := TransCases(isLong, exprReg, cases, succ, targets, defaultEntry, g1);
      StmtCalls(default, succ, targets, g.SkipRegs(1));
      CasesCalls(isLong, exprReg, cases, succ, targets, defaultEntry, g1);
      ExprCalls(e, exprReg, first, g2);
    case _ => LeafCalls(s, succ, targets, g);
  }

  lemma LeafCalls(s: Stmt, succ: R.Node, targets: seq<R.Node>, g: Gen)
    requires CallsByName(s) && AllByName(g.code)
    requires !(s.Sassign? || s.Sseq? || s.Sifthenelse? || s.Sloop? || s.Sblock? || s.Sswitch?)
    ensures AllByName(TransStmt(s, succ, targets, g).1.code)
  {
    var r: R.Reg := g.nextReg;
    match s
    case Sstore(chunk, addr, args, value) =>
      var regs := RegsFrom(r + 1, |args|);
      var (node, g1) := g.SkipRegs(1 + |args|).Emit(R.Istore(chunk, addr, regs, r, succ));
      OperandsCalls(value, args, r, regs, node, g1);
    case Scall(result, sig, func, args) =>
      var regs := RegsFrom(r + 1, |args|);
      var (dest, g1) := g.SkipRegs(1 + |args|).MapResult(result);
      var (node, g2) := g1.Emit(R.Icall(sig, CalleeRef(func, r), regs, dest, succ));
      OperandsCalls(func, args, r, regs, node, g2);
    case Stailcall(sig, func, args) =>
      var regs := RegsFrom(r + 1, |args|);
      var (node, g1) := g.SkipRegs(1 + |args|).Emit(R.Itailcall(sig, CalleeRef(func, r), regs));
      OperandsCalls(func, args, r, regs, node, g1);
    case Sbuiltin(result, name, args) =>
      var regs := RegsFrom(r, |args|);
      var (dest, g1) := g.SkipRegs(|args|).MapResult(result);
      var (node, g2) := g1.Emit(R.Ibuiltin(name, regs, if result.Some? then Some(dest) else None, succ));
      ListCalls(args, regs, node, g2);
    case Sreturn(ret) =>
      if ret.Some? {
        var (node, g1) := g.SkipRegs(1).Emit(R.Ireturn(Some(r)));
        ExprCalls(ret.value, r, node, g1);
      }
    case _ =>
  }

  lemma {:induction false} CasesCalls(isLong: bool, exprReg: R.Reg, cases: seq<Case>, succ: R.Node, targets: seq<R.Node>,
                                      orElse: R.Node, g: Gen)
    requires AllByName(g.code) && forall c | c in cases :: CallsByName(c.body)
    ensures AllByName(TransCases(isLong, exprReg, cases, succ, targets, orElse, g).1.code)
    decreases cases
  {
    if cases == [] {
    } else {
      var last := |cases| - 1;
      var c := cases[last];
      assert c in cases && c.body < c;
      var (caseEntry, g1) := TransStmt(c.body, succ, targets, g);
      var n := if isLong then c.value else Wrap32(c.value);
      var (node, g2) := g1.Emit(R.Icond(CaseCondition(isLong, n), [exprReg], caseEntry, orElse));
      StmtCalls(c.body, succ, targets, g);
      CasesCalls(isLong, exprReg, cases[..last], succ, targets, node, g2);
    }
  }

  lemma {:induction false} VarsEmitNothing(params: seq<string>, vars: seq<string>, g: Gen)
    ensures MapParams(params, g).code == g.code && MapVars(vars, g).code == g.code
    decreases |params| + |vars|
  {
    if params != [] { VarsEmitNothing(params[..|params| - 1], [], g); }
    if vars != [] { VarsEmitNothing([], vars[..|vars| - 1], g); }
  }

  /** A function whose calls are by name becomes one. */
  lemma FunctionCalls(fn: Function)
    requires CallsByName(fn.body)
    ensures AllByName(TransFunction(fn).code)
  {
    var g0 := Gen(1, map[], 1, map[]);
    VarsEmitNothing(fn.params, [], g0);
    VarsEmitNothing([], fn.vars, MapParams(fn.params, g0));
    var (exitNode, g) := StartGen(fn).Emit(R.Ireturn(None));
    StmtCalls(fn.body, exitNode, [], g);
  }
}
