/** RTL generation only adds: code once emitted stays, and new nodes and registers are fresh. */
module GenGrows {
  import opened Values
  import opened CminorSel
  import opened Gen
  import R = RTL

  /** Two variables share no register. */
  ghost predicate Apart(vars: map<string, R.Reg>, x: string, y: string) {
    x in vars && y in vars && x != y ==> vars[x] != vars[y]
  }

  ghost predicate AllApart(vars: map<string, R.Reg>) {
    forall x, y {:trigger Apart(vars, x, y)} :: Apart(vars, x, y)
  }

  /** Nodes and registers in use are below the counters, and different variables have different registers. */
  ghost predicate Good(g: Gen) {
    && g.nextReg >= 1 && g.nextNode >= 1
    && (forall n | n in g.code :: n < g.nextNode)
    && (forall x | x in g.vars :: 1 <= g.vars[x] < g.nextReg)
    && AllApart(g.vars)
  }

  ghost predicate Grows(g: Gen, h: Gen) {
    && Good(h) && g.nextNode <= h.nextNode && g.nextReg <= h.nextReg
    && (forall n | n in g.code :: n in h.code && h.code[n] == g.code[n])
    && (forall n | n in h.code :: n in g.code || n >= g.nextNode)
    && (forall x | x in g.vars :: x in h.vars && h.vars[x] == g.vars[x])
    && (forall x | x in h.vars :: x in g.vars || h.vars[x] >= g.nextReg)
  }

  lemma GrowsTrans(g: Gen, h: Gen, k: Gen)
    requires Grows(g, h) && Grows(h, k)
    ensures Grows(g, k)
  {
  }

  lemma GrowsNot(g: Gen)
    requires Good(g)
    ensures Grows(g, g)
  {
  }

  lemma EmitGrows(g: Gen, i: R.Instr)
    requires Good(g)
    ensures Grows(g, g.Emit(i).1)
  {
  }

  lemma SkipGrows(g: Gen, n: nat)
    requires Good(g)
    ensures Grows(g, g.SkipRegs(n)) && Grows(g, g.SkipNode())
  {
  }

  lemma MapVarGrows(g: Gen, x: string)
    requires Good(g)
    ensures Grows(g, g.MapVar(x).1) && x in g.MapVar(x).1.vars && g.MapVar(x).1.vars[x] == g.MapVar(x).0
  {
    var h := g.MapVar(x).1;
    forall y, z
      ensures Apart(h.vars, y, z)
    {
      assert Apart(g.vars, y, z);
    }
  }

  lemma MapResultGrows(g: Gen, x: Option<string>)
    requires Good(g)
    ensures Grows(g, g.MapResult(x).1)
  {
    GrowsNot(g);
    if x.Some? { MapVarGrows(g, x.value); }
  }

  /** Registers, then an instruction. */
  lemma SkipEmitGrows(g: Gen, n: nat, i: R.Instr)
    requires Good(g)
    ensures Grows(g, g.SkipRegs(n).Emit(i).1)
  {
    SkipGrows(g, n);
    EmitGrows(g.SkipRegs(n), i);
    GrowsTrans(g, g.SkipRegs(n), g.SkipRegs(n).Emit(i).1);
  }

  lemma {:induction false} ExprGrows(e: Expr, dest: R.Reg, succ: R.Node, g: Gen)
    requires Good(g)
    ensures Grows(g, TransExpr(e, dest, succ, g).1)
    decreases ESize(e)
  {
    match e
    case Evar(x) =>
      var (src, g1) := g.MapVar(x);
      MapVarGrows(g, x);
      EmitGrows(g1, R.Iop(Omove, [src], dest, succ));
      GrowsTrans(g, g1, g1.Emit(R.Iop(Omove, [src], dest, succ)).1);
    case Econst(c) => EmitGrows(g, R.Iop(Oconst(c), [], dest, succ));
    case Eunop(op, a) =>
      var i := R.Iop(op, [g.nextReg], dest, succ);
      var (opNode, g1) := g.SkipRegs(1).Emit(i);
      SkipEmitGrows(g, 1, i);
      ExprGrows(a, g.nextReg, opNode, g1);
      GrowsTrans(g, g1, TransExpr(a, g.nextReg, opNode, g1).1);
    case Ebinop(op, l, r) => BinaryGrows(op, l, r, dest, succ, g);
    case Eload(chunk, addr, args) => LoadGrows(chunk, addr, args, dest, succ, g);
    case Econdition(c, a, b) => ChoiceGrows(c, a, b, dest, succ, g);
    case Eaddshift(shift, n, l, r) => ShiftedGrows(Oadd, ShiftOperation(shift, n), l, r, dest, succ, g);
    case Esubshift(shift, n, l, r) => ShiftedGrows(Osub, ShiftOperation(shift, n), l, r, dest, succ, g);
    case Ecmp(kind, cmp, l, r) => BinaryGrows(Ocmp(kind, cmp), l, r, dest, succ, g);
  }

  lemma {:induction false} ChoiceGrows(c: Cond, a: Expr, b: Expr, dest: R.Reg, succ: R.Node, g: Gen)
    requires Good(g)
    ensures Grows(g, TransChoice(c, a, b, dest, succ, g).1)
    decreases CSize(c) + ESize(a) + ESize(b)
  {
    var (elseEntry, g1) := TransExpr(b, dest, succ, g);
    var (thenEntry, g2) := TransExpr(a, dest, succ, g1);
    SizesPositive(a, b);
    ExprGrows(b, dest, succ, g);
    ExprGrows(a, dest, succ, g1);
    CondGrows(c, thenEntry, elseEntry, g2);
    GrowsTrans(g, g1, g2);
    GrowsTrans(g, g2, TransCond(c, thenEntry, elseEntry, g2).1);
  }

  lemma {:induction false} PairGrows(l: Expr, r: Expr, a: R.Reg, b: R.Reg, succ: R.Node, g: Gen)
    requires Good(g)
    ensures Grows(g, TransPair(l, r, a, b, succ, g).1)
    decreases ESize(l) + ESize(r), 0
  {
    var (entry, g1) := TransExpr(r, b, succ, g);
    SizesPositive(l, r);
    ExprGrows(r, b, succ, g);
    ExprGrows(l, a, entry, g1);
    GrowsTrans(g, g1, TransExpr(l, a, entry, g1).1);
  }

  lemma {:induction false} BinaryGrows(op: Operation, l: Expr, r: Expr, dest: R.Reg, succ: R.Node, g: Gen)
    requires Good(g)
    ensures Grows(g, TransBinary(op, l, r, dest, succ, g).1)
    decreases ESize(l) + ESize(r), 1
  {
    var i := R.Iop(op, [g.nextReg, g.nextReg + 1], dest, succ);
    var (opNode, g1) := g.SkipRegs(2).Emit(i);
    SkipEmitGrows(g, 2, i);
    PairGrows(l, r, g.nextReg, g.nextReg + 1, opNode, g1);
    GrowsTrans(g, g1, TransPair(l, r, g.nextReg, g.nextReg + 1, opNode, g1).1);
  }

  lemma SizesPositive(l: Expr, r: Expr)
    ensures ESize(l) > 0 && ESize(r) > 0
  {
  }

  lemma {:induction false} ShiftedGrows(op: Operation, shiftOp: Operation, l: Expr, r: Expr, dest: R.Reg, succ: R.Node, g: Gen)
    requires Good(g)
    ensures Grows(g, TransShifted(op, shiftOp, l, r, dest, succ, g).1)
    decreases ESize(l) + ESize(r), 1
  {
    var i := R.Iop(op, [g.nextReg, g.nextReg + 2], dest, succ);
    var (opNode, g1) := g.SkipRegs(3).Emit(i);
    var j := R.Iop(shiftOp, [g.nextReg + 1], g.nextReg + 2, opNode);
    var (shiftNode, g2) := g1.Emit(j);
    SkipEmitGrows(g, 3, i);
    EmitGrows(g1, j);
    PairGrows(l, r, g.nextReg, g.nextReg + 1, shiftNode, g2);
    GrowsTrans(g, g1, g2);
    GrowsTrans(g, g2, TransPair(l, r, g.nextReg, g.nextReg + 1, shiftNode, g2).1);
  }

  lemma {:induction false} LoadGrows(chunk: Chunk, addr: AddrMode, args: seq<Expr>, dest: R.Reg, succ: R.Node, g: Gen)
    requires Good(g)
    ensures Grows(g, TransExpr(Eload(chunk, addr, args), dest, succ, g).1)
    decreases LSize(args), 1
  {
    var regs, g0 := RegsFrom(g.nextReg, |args|), g.SkipRegs(|args|);
    var g1 := TransList(args, regs, succ, g0).1;
    var i := R.Iload(chunk, addr, regs, dest, succ);
    var (node, g2) := g1.Emit(i);
    SkipGrows(g, |args|);
    ListGrows(args, regs, succ, g0);
    GrowsTrans(g, g0, g1);
    EmitGrows(g1, i);
    GrowsTrans(g, g1, g2);
    ListGrows(args, regs, node, g2);
    GrowsTrans(g, g2, TransList(args, regs, node, g2).1);
  }

  lemma {:induction false} ListGrows(es: seq<Expr>, regs: seq<R.Reg>, succ: R.Node, g: Gen)
    requires |regs| == |es| && Good(g)
    ensures Grows(g, TransList(es, regs, succ, g).1)
    decreases LSize(es), 0
  {
    if es == [] {
      GrowsNot(g);
    } else {
      var last := |es| - 1;
      var (entry, g1) := TransExpr(es[last], regs[last], succ, g);
      ExprGrows(es[last], regs[last], succ, g);
      ListGrows(es[..last], regs[..last], entry, g1);
      GrowsTrans(g, g1, TransList(es[..last], regs[..last], entry, g1).1);
    }
  }

  lemma {:induction false} CondGrows(c: Cond, ifso: R.Node, ifnot: R.Node, g: Gen)
    requires Good(g)
    ensures Grows(g, TransCond(c, ifso, ifnot, g).1)
    decreases CSize(c)
  {
    match TranslateCondition(c)
    case Some((cc, args)) => SimpleGrows(c, cc, args, ifso, ifnot, g);
    case None => CompoundGrows(c, ifso, ifnot, g);
  }

  lemma {:induction false} SimpleGrows(c: Cond, cc: ConditionCode, args: seq<Expr>, ifso: R.Node, ifnot: R.Node, g: Gen)
    requires Good(g) && TranslateCondition(c) == Some((cc, args))
    ensures Grows(g, TransCond(c, ifso, ifnot, g).1)
    decreases LSize(args), 1
  {
    var regs, g0 := RegsFrom(g.nextReg, |args|), g.SkipNode().SkipRegs(|args|);
    var g1 := TransList(args, regs, g.nextNode, g0).1;
    var i := R.Icond(cc, regs, ifso, ifnot);
    var (node, g2) := g1.Emit(i);
    SkipGrows(g, 0);
    SkipGrows(g.SkipNode(), |args|);
    GrowsTrans(g, g.SkipNode(), g0);
    ListGrows(args, regs, g.nextNode, g0);
    GrowsTrans(g, g0, g1);
    EmitGrows(g1, i);
    GrowsTrans(g, g1, g2);
    ListGrows(args, regs, node, g2);
    GrowsTrans(g, g2, TransList(args, regs, node, g2).1);
  }

  lemma {:induction false} CompoundGrows(c: Cond, ifso: R.Node, ifnot: R.Node, g: Gen)
    requires Good(g)
    ensures Grows(g, TransCompound(c, ifso, ifnot, g).1)
    decreases CSize(c), 0
  {
    GrowsNot(g);
    if c.CondAnd? || c.CondOr? {
      var (inner, g1) := TransCond(c.r, ifso, ifnot, g);
      CondGrows(c.r, ifso, ifnot, g);
      if c.CondAnd? {
        CondGrows(c.l, inner, ifnot, g1);
        GrowsTrans(g, g1, TransCond(c.l, inner, ifnot, g1).1);
      } else {
        CondGrows(c.l, ifso, inner, g1);
        GrowsTrans(g, g1, TransCond(c.l, ifso, inner, g1).1);
      }
    }
  }

  lemma ListThenGrows(args: seq<Expr>, argRegs: seq<R.Reg>, e: Expr, reg: R.Reg, node: R.Node, g: Gen)
    requires |argRegs| == |args| && Good(g)
    ensures Grows(g, TransListThen(args, argRegs, e, reg, node, g).1)
  {
    var (entry, g1) := TransExpr(e, reg, node, g);
    ExprGrows(e, reg, node, g);
    ListGrows(args, argRegs, entry, g1);
    GrowsTrans(g, g1, TransList(args, argRegs, entry, g1).1);
  }

  lemma OperandsGrow(func: Expr, args: seq<Expr>, funcReg: R.Reg, argRegs: seq<R.Reg>, node: R.Node, g: Gen)
    requires |argRegs| == |args| && Good(g)
    ensures Grows(g, TransOperands(func, args, funcReg, argRegs, node, g).1)
  {
    ListGrows(args, argRegs, node, g);
    ListThenGrows(args, argRegs, func, funcReg, node, g);
  }

  // --- Statements ---

  lemma {:induction false} StmtGrows(s: Stmt, succ: R.Node, targets: seq<R.Node>, g: Gen)
    requires Good(g)
    ensures Grows(g, TransStmt(s, succ, targets, g).1)
    decreases s
  {
    match s
    case Sskip => GrowsNot(g);
    case Sassign(x, e) =>
      var (dest, g1) := g.MapVar(x);
      MapVarGrows(g, x);
      ExprGrows(e, dest, succ, g1);
      GrowsTrans(g, g1, TransExpr(e, dest, succ, g1).1);
    case Sstore(chunk, addr, args, value) => StoreGrows(chunk, addr, args, value, succ, g);
    case Scall(result, sig, func, args) => CallGrows(result, sig, func, args, succ, g);
    case Stailcall(sig, func, args) => TailcallGrows(sig, func, args, g);
    case Sbuiltin(result, name, args) => BuiltinGrows(result, name, args, succ, g);
    case Sseq(a, b) =>
      var (second, g1) := TransStmt(b, succ, targets, g);
      StmtGrows(b, succ, targets, g);
      StmtGrows(a, second, targets, g1);
      GrowsTrans(g, g1, TransStmt(a, second, targets, g1).1);
    case Sifthenelse(c, a, b) =>
      var (thenEntry, g1) := TransStmt(a, succ, targets, g);
      var (elseEntry, g2) := TransStmt(b, succ, targets, g1);
      StmtGrows(a, succ, targets, g);
      StmtGrows(b, succ, targets, g1);
      CondGrows(c, thenEntry, elseEntry, g2);
      GrowsTrans(g, g1, g2);
      GrowsTrans(g, g2, TransCond(c, thenEntry, elseEntry, g2).1);
    case Sloop(body) =>
      var header, g0 := g.nextNode, g.SkipNode();
      var (bodyEntry, g1) := TransStmt(body, header, targets, g0);
      SkipGrows(g, 0);
      StmtGrows(body, header, targets, g0);
      GrowsTrans(g, g0, g1);
      HeaderGrows(g, g1, bodyEntry);
    case Sblock(body) => StmtGrows(body, succ, targets + [succ], g);
    case Sexit(n) =>
      SkipGrows(g, 0);
      if ExitTarget(targets, n).Some? { EmitGrows(g, R.Inop(ExitTarget(targets, n).value)); }
    case Sswitch(isLong, e, cases, default) => SwitchGrows(s, succ, targets, g);
    case Sreturn(ret) => ReturnGrows(ret, g);
  }

  lemma HeaderGrows(g: Gen, g1: Gen, bodyEntry: R.Node)
    requires Good(g) && Grows(g.SkipNode(), g1)
    ensures Grows(g, g1.(code := g1.code[g.nextNode := R.Inop(bodyEntry)]))
  {
  }

  lemma {:induction false} ReturnGrows(ret: Option<Expr>, g: Gen)
    requires Good(g)
    ensures Grows(g, TransStmt(Sreturn(ret), 0, [], g).1)
  {
    if ret.None? {
      EmitGrows(g, R.Ireturn(None));
    } else {
      var i := R.Ireturn(Some(g.nextReg));
      var (node, g1) := g.SkipRegs(1).Emit(i);
      SkipEmitGrows(g, 1, i);
      ExprGrows(ret.value, g.nextReg, node, g1);
      GrowsTrans(g, g1, TransExpr(ret.value, g.nextReg, node, g1).1);
    }
  }

  lemma StoreGrows(chunk: Chunk, addr: AddrMode, args: seq<Expr>, value: Expr, succ: R.Node, g: Gen)
    requires Good(g)
    ensures Grows(g, TransStore(chunk, addr, args, value, succ, g).1)
  {
    var valueReg, addrRegs := g.nextReg, RegsFrom(g.nextReg + 1, |args|);
    var i := R.Istore(chunk, addr, addrRegs, valueReg, succ);
    var (node, g1) := g.SkipRegs(1 + |args|).Emit(i);
    SkipEmitGrows(g, 1 + |args|, i);
    ListThenGrows(args, addrRegs, value, valueReg, node, g1);
    GrowsTrans(g, g1, TransListThen(args, addrRegs, value, valueReg, node, g1).1);
  }

  /** Registers, the register of a result, and an instruction. */
  lemma ResultGrows(g: Gen, n: nat, result: Option<string>, i: R.Instr)
    requires Good(g)
    ensures Grows(g, g.SkipRegs(n).MapResult(result).1) && Grows(g, g.SkipRegs(n).MapResult(result).1.Emit(i).1)
  {
    var g0, g1 := g.SkipRegs(n), g.SkipRegs(n).MapResult(result).1;
    SkipGrows(g, n);
    MapResultGrows(g0, result);
    GrowsTrans(g, g0, g1);
    EmitGrows(g1, i);
    GrowsTrans(g, g1, g1.Emit(i).1);
  }

  lemma CallGrows(result: Option<string>, sig: Sig, func: Expr, args: seq<Expr>, succ: R.Node, g: Gen)
    requires Good(g)
    ensures Grows(g, TransCall(result, sig, func, args, succ, g).1)
  {
    var funcReg, argRegs := g.nextReg, RegsFrom(g.nextReg + 1, |args|);
    var (dest, g1) := g.SkipRegs(1 + |args|).MapResult(result);
    var i := R.Icall(sig, CalleeRef(func, funcReg), argRegs, dest, succ);
    var (node, g2) := g1.Emit(i);
    ResultGrows(g, 1 + |args|, result, i);
    OperandsGrow(func, args, funcReg, argRegs, node, g2);
    GrowsTrans(g, g2, TransOperands(func, args, funcReg, argRegs, node, g2).1);
  }

  lemma TailcallGrows(sig: Sig, func: Expr, args: seq<Expr>, g: Gen)
    requires Good(g)
    ensures Grows(g, TransTailcall(sig, func, args, g).1)
  {
    var funcReg, argRegs := g.nextReg, RegsFrom(g.nextReg + 1, |args|);
    var i := R.Itailcall(sig, CalleeRef(func, funcReg), argRegs);
    var (node, g1) := g.SkipRegs(1 + |args|).Emit(i);
    SkipEmitGrows(g, 1 + |args|, i);
    OperandsGrow(func, args, funcReg, argRegs, node, g1);
    GrowsTrans(g, g1, TransOperands(func, args, funcReg, argRegs, node, g1).1);
  }

  lemma BuiltinGrows(result: Option<string>, name: string, args: seq<Expr>, succ: R.Node, g: Gen)
    requires Good(g)
    ensures Grows(g, TransBuiltin(result, name, args, succ, g).1)
  {
    var argRegs := RegsFrom(g.nextReg, |args|);
    var (dest, g1) := g.SkipRegs(|args|).MapResult(result);
    var i := R.Ibuiltin(name, argRegs, if result.Some? then Some(dest) else None, succ);
    var (node, g2) := g1.Emit(i);
    ResultGrows(g, |args|, result, i);
    ListGrows(args, argRegs, node, g2);
    GrowsTrans(g, g2, TransList(args, argRegs, node, g2).1);
  }

  lemma {:induction false} SwitchGrows(s: Stmt, succ: R.Node, targets: seq<R.Node>, g: Gen)
    requires Good(g) && s.Sswitch?
    ensures Grows(g, TransStmt(s, succ, targets, g).1)
    decreases s, 0
  {
    var exprReg, g0 := g.nextReg, g.SkipRegs(1);
    var (defaultEntry, g1) := TransStmt(s.default, succ, targets, g0);
    var (first, g2) := TransCases(s.isLong, exprReg, s.cases, succ, targets, defaultEntry, g1);
    SkipGrows(g, 1);
    StmtGrows(s.default, succ, targets, g0);
    GrowsTrans(g, g0, g1);
    CasesGrow(s.isLong, exprReg, s.cases, succ, targets, defaultEntry, g1);
    GrowsTrans(g, g1, g2);
    ExprGrows(s.expr, exprReg, first, g2);
    GrowsTrans(g, g2, TransExpr(s.expr, exprReg, first, g2).1);
  }

  lemma {:induction false} CasesGrow(isLong: bool, exprReg: R.Reg, cases: seq<Case>, succ: R.Node, targets: seq<R.Node>,
                                     orElse: R.Node, g: Gen)
    requires Good(g)
    ensures Grows(g, TransCases(isLong, exprReg, cases, succ, targets, orElse, g).1)
    decreases cases
  {
    if cases == [] {
      GrowsNot(g);
    } else {
      var last := |cases| - 1;
      var c := cases[last];
      assert c in cases && c.body < c;
      var (caseEntry, g1) := TransStmt(c.body, succ, targets, g);
      var n := if isLong then c.value else Wrap32(c.value);
      var i := R.Icond(CaseCondition(isLong, n), [exprReg], caseEntry, orElse);
      var (node, g2) := g1.Emit(i);
      StmtGrows(c.body, succ, targets, g);
      EmitGrows(g1, i);
      GrowsTrans(g, g1, g2);
      CasesGrow(isLong, exprReg, cases[..last], succ, targets, node, g2);
      GrowsTrans(g, g2, TransCases(isLong, exprReg, cases[..last], succ, targets, node, g2).1);
    }
  }
}
