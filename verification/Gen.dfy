/** What RTL generation computes (pkg/rtlgen): each translation takes the state of the builders to the entry node
    and the next state.  Code is chained backwards, so the successor of a piece comes first. */
module Gen {
  import opened Values
  import opened CminorSel
  import R = RTL

  /** The state of the builders: the next free node and register, the code, and the variables' registers. */
  datatype Gen = Gen(nextNode: nat, code: R.Code, nextReg: nat, vars: map<string, R.Reg>) {
    function Emit(i: R.Instr): (R.Node, Gen) {
      (nextNode, this.(nextNode := nextNode + 1, code := code[nextNode := i]))
    }

    function SkipNode(): Gen {
      this.(nextNode := nextNode + 1)
    }

    function SkipRegs(n: nat): Gen {
      this.(nextReg := nextReg + n)
    }

    function MapVar(x: string): (R.Reg, Gen) {
      if x in vars then (vars[x], this) else (nextReg, this.(nextReg := nextReg + 1, vars := vars[x := nextReg]))
    }

    /** The register for a result, 0 for none. */
    function MapResult(result: Option<string>): (R.Reg, Gen) {
      if result.Some? then MapVar(result.value) else (0, this)
    }
  }

  /** Registers r, r + 1, ... */
  function RegsFrom(r: R.Reg, n: nat): (regs: seq<R.Reg>)
    ensures |regs| == n
  {
    seq(n, i requires 0 <= i < n => r + i)
  }

  function NegateCode(cc: ConditionCode): ConditionCode {
    match cc
    case Ccomp(kind, cmp) => if kind.IsFloat() then Cnotcomp(kind, cmp) else Ccomp(kind, cmp.Negate())
    case Ccompimm(kind, cmp, n) => Ccompimm(kind, cmp.Negate(), n)
    case Cnotcomp(kind, cmp) => Ccomp(kind, cmp)
  }

  /** The condition code and the operands of a simple condition. */
  function TranslateCondition(c: Cond): (r: Option<(ConditionCode, seq<Expr>)>)
    ensures r.Some? <==> IsSimple(c)
    ensures r.Some? ==> LSize(r.value.1) < CSize(c)
  {
    match c
    case CondTrue => OneOperand(1); Some((Ccompimm(Kint, Cne, 0), [Econst(Ointconst(1))]))
    case CondFalse => OneOperand(0); Some((Ccompimm(Kint, Cne, 0), [Econst(Ointconst(0))]))
    case CondCmp(kind, cmp, l, r) => TwoOperands(l, r); Some((Ccomp(kind, cmp), [l, r]))
    case CondNot(a) =>
      (match TranslateCondition(a)
       case Some((cc, args)) => Some((NegateCode(cc), args))
       case None => None)
    case _ => None
  }

  lemma OneOperand(n: int)
    ensures LSize([Econst(Ointconst(n))]) == 2
  {
    assert [Econst(Ointconst(n))][..0] == [];
  }

  lemma TwoOperands(l: Expr, r: Expr)
    ensures LSize([l, r]) == 2 + ESize(l) + ESize(r)
  {
    assert [l, r][..1] == [l] && [l][..0] == [];
    assert LSize([l]) == 1 + ESize(l);
  }

  // --- Expressions ---

  function ShiftOperation(shift: ShiftOp, amount: int): Operation {
    match shift
    case Slsl => Oshlimm(amount)
    case Slsr => Oshruimm(amount)
    case Sasr => Oshrimm(amount)
  }

  function TransExpr(e: Expr, dest: R.Reg, succ: R.Node, g: Gen): (R.Node, Gen)
    decreases ESize(e)
  {
    match e
    case Evar(x) =>
      var (src, g1) := g.MapVar(x);
      if src == dest then (succ, g1) else g1.Emit(R.Iop(Omove, [src], dest, succ))
    case Econst(c) => g.Emit(R.Iop(Oconst(c), [], dest, succ))
    case Eunop(op, a) =>
      var (opNode, g1) := g.SkipRegs(1).Emit(R.Iop(op, [g.nextReg], dest, succ));
      TransExpr(a, g.nextReg, opNode, g1)
    case Ebinop(op, l, r) => TransBinary(op, l, r, dest, succ, g)
    case Eload(chunk, addr, args) =>
      // the operands are translated twice, the first time in vain
      var regs := RegsFrom(g.nextReg, |args|);
      var g1 := TransList(args, regs, succ, g.SkipRegs(|args|)).1;
      var (loadNode, g2) := g1.Emit(R.Iload(chunk, addr, regs, dest, succ));
      TransList(args, regs, loadNode, g2)
    case Econdition(c, a, b) => TransChoice(c, a, b, dest, succ, g)
    case Eaddshift(shift, n, l, r) => TransShifted(Oadd, ShiftOperation(shift, n), l, r, dest, succ, g)
    case Esubshift(shift, n, l, r) => TransShifted(Osub, ShiftOperation(shift, n), l, r, dest, succ, g)
    case Ecmp(kind, cmp, l, r) => TransBinary(Ocmp(kind, cmp), l, r, dest, succ, g)
  }

  function TransChoice(c: Cond, a: Expr, b: Expr, dest: R.Reg, succ: R.Node, g: Gen): (R.Node, Gen)
    decreases CSize(c) + ESize(a) + ESize(b)
  {
    assert ESize(a) > 0 && ESize(b) > 0 && CSize(c) > 0;
    var (elseEntry, g1) := TransExpr(b, dest, succ, g);
    var (thenEntry, g2) := TransExpr(a, dest, succ, g1);
    TransCond(c, thenEntry, elseEntry, g2)
  }

  /** The right operand, and before it the left one. */
  function TransPair(l: Expr, r: Expr, leftReg: R.Reg, rightReg: R.Reg, succ: R.Node, g: Gen): (R.Node, Gen)
    decreases ESize(l) + ESize(r), 0
  {
    var (rightEntry, g1) := TransExpr(r, rightReg, succ, g);
    TransExpr(l, leftReg, rightEntry, g1)
  }

  function TransBinary(op: Operation, l: Expr, r: Expr, dest: R.Reg, succ: R.Node, g: Gen): (R.Node, Gen)
    decreases ESize(l) + ESize(r), 1
  {
    var leftReg, rightReg := g.nextReg, g.nextReg + 1;
    var (opNode, g1) := g.SkipRegs(2).Emit(R.Iop(op, [leftReg, rightReg], dest, succ));
    TransPair(l, r, leftReg, rightReg, opNode, g1)
  }

  function TransShifted(op: Operation, shiftOp: Operation, l: Expr, r: Expr, dest: R.Reg, succ: R.Node, g: Gen): (R.Node, Gen)
    decreases ESize(l) + ESize(r), 1
  {
    var leftReg, rightReg, shiftedReg := g.nextReg, g.nextReg + 1, g.nextReg + 2;
    var (opNode, g1) := g.SkipRegs(3).Emit(R.Iop(op, [leftReg, shiftedReg], dest, succ));
    var (shiftNode, g2) := g1.Emit(R.Iop(shiftOp, [rightReg], shiftedReg, opNode));
    TransPair(l, r, leftReg, rightReg, shiftNode, g2)
  }

  function TransList(es: seq<Expr>, regs: seq<R.Reg>, succ: R.Node, g: Gen): (R.Node, Gen)
    requires |regs| == |es|
    decreases LSize(es)
  {
    if es == [] then (succ, g)
    else
      var last := |es| - 1;
      var (entry, g1) := TransExpr(es[last], regs[last], succ, g);
      TransList(es[..last], regs[..last], entry, g1)
  }

  function TransCond(c: Cond, ifso: R.Node, ifnot: R.Node, g: Gen): (R.Node, Gen)
    decreases CSize(c)
  {
    match TranslateCondition(c)
    case Some((cc, args)) =>
      // a node that stays empty, and again the operands twice
      var regs := RegsFrom(g.nextReg, |args|);
      var g1 := TransList(args, regs, g.nextNode, g.SkipNode().SkipRegs(|args|)).1;
      var (condNode, g2) := g1.Emit(R.Icond(cc, regs, ifso, ifnot));
      TransList(args, regs, condNode, g2)
    case None => TransCompound(c, ifso, ifnot, g)
  }

  function TransCompound(c: Cond, ifso: R.Node, ifnot: R.Node, g: Gen): (R.Node, Gen)
    decreases CSize(c), 0
  {
    match c
    case CondAnd(a, b) =>
      var (inner, g1) := TransCond(b, ifso, ifnot, g);
      TransCond(a, inner, ifnot, g1)
    case CondOr(a, b) =>
      var (inner, g1) := TransCond(b, ifso, ifnot, g);
      TransCond(a, ifso, inner, g1)
    case _ => (ifso, g)
  }

  // --- Statements ---

  /** The n-th enclosing block's exit; the innermost is last. */
  function ExitTarget(targets: seq<R.Node>, n: int): Option<R.Node> {
    var idx := |targets| - 1 - n;
    if idx < 0 || idx >= |targets| then None else Some(targets[idx])
  }

  function CalleeRef(func: Expr, reg: R.Reg): R.FunRef {
    match CalledSymbol(func)
    case Some(name) => R.FunSymbol(name)
    case None => R.FunReg(reg)
  }

  /** The operands of a call, and the callee unless it is called by name. */
  function TransOperands(func: Expr, args: seq<Expr>, funcReg: R.Reg, argRegs: seq<R.Reg>, node: R.Node, g: Gen): (R.Node, Gen)
    requires |argRegs| == |args|
  {
    if CalledSymbol(func).Some? then TransList(args, argRegs, node, g) else TransListThen(args, argRegs, func, funcReg, node, g)
  }

  /** A list of operands, then one more. */
  function TransListThen(args: seq<Expr>, argRegs: seq<R.Reg>, e: Expr, reg: R.Reg, node: R.Node, g: Gen): (R.Node, Gen)
    requires |argRegs| == |args|
  {
    var (entry, g1) := TransExpr(e, reg, node, g);
    TransList(args, argRegs, entry, g1)
  }

  function TransStmt(s: Stmt, succ: R.Node, targets: seq<R.Node>, g: Gen): (R.Node, Gen)
    decreases s
  {
    match s
    case Sskip => (succ, g)
    case Sassign(x, e) =>
      var (dest, g1) := g.MapVar(x);
      TransExpr(e, dest, succ, g1)
    case Sstore(chunk, addr, args, value) => TransStore(chunk, addr, args, value, succ, g)
    case Scall(result, sig, func, args) => TransCall(result, sig, func, args, succ, g)
    case Stailcall(sig, func, args) => TransTailcall(sig, func, args, g)
    case Sbuiltin(result, name, args) => TransBuiltin(result, name, args, succ, g)
    case Sseq(a, b) =>
      var (second, g1) := TransStmt(b, succ, targets, g);
      TransStmt(a, second, targets, g1)
    case Sifthenelse(c, a, b) =>
      var (thenEntry, g1) := TransStmt(a, succ, targets, g);
      var (elseEntry, g2) := TransStmt(b, succ, targets, g1);
      TransCond(c, thenEntry, elseEntry, g2)
    case Sloop(body) =>
      var header := g.nextNode;
      var (bodyEntry, g1) := TransStmt(body, header, targets, g.SkipNode());
      (header, g1.(code := g1.code[header := R.Inop(bodyEntry)]))
    case Sblock(body) => TransStmt(body, succ, targets + [succ], g)
    case Sexit(n) =>
      (match ExitTarget(targets, n)
       case Some(target) => g.Emit(R.Inop(target))
       case None => (g.nextNode, g.SkipNode()))
    case Sswitch(isLong, e, cases, default) =>
      var exprReg := g.nextReg;
      var (defaultEntry, g1) := TransStmt(default, succ, targets, g.SkipRegs(1));
      var (first, g2) := TransCases(isLong, exprReg, cases, succ, targets, defaultEntry, g1);
      TransExpr(e, exprReg, first, g2)
    case Sreturn(ret) =>
      if ret.None? then g.Emit(R.Ireturn(None))
      else
        var (retNode, g1) := g.SkipRegs(1).Emit(R.Ireturn(Some(g.nextReg)));
        TransExpr(ret.value, g.nextReg, retNode, g1)
  }

  function TransStore(chunk: Chunk, addr: AddrMode, args: seq<Expr>, value: Expr, succ: R.Node, g: Gen): (R.Node, Gen) {
    var valueReg, addrRegs := g.nextReg, RegsFrom(g.nextReg + 1, |args|);
    var (storeNode, g1) := g.SkipRegs(1 + |args|).Emit(R.Istore(chunk, addr, addrRegs, valueReg, succ));
    TransListThen(args, addrRegs, value, valueReg, storeNode, g1)
  }

  function TransCall(result: Option<string>, sig: Sig, func: Expr, args: seq<Expr>, succ: R.Node, g: Gen): (R.Node, Gen) {
    var funcReg, argRegs := g.nextReg, RegsFrom(g.nextReg + 1, |args|);
    var (dest, g1) := g.SkipRegs(1 + |args|).MapResult(result);
    var (callNode, g2) := g1.Emit(R.Icall(sig, CalleeRef(func, funcReg), argRegs, dest, succ));
    TransOperands(func, args, funcReg, argRegs, callNode, g2)
  }

  function TransTailcall(sig: Sig, func: Expr, args: seq<Expr>, g: Gen): (R.Node, Gen) {
    var funcReg, argRegs := g.nextReg, RegsFrom(g.nextReg + 1, |args|);
    var (tailNode, g1) := g.SkipRegs(1 + |args|).Emit(R.Itailcall(sig, CalleeRef(func, funcReg), argRegs));
    TransOperands(func, args, funcReg, argRegs, tailNode, g1)
  }

  function TransBuiltin(result: Option<string>, name: string, args: seq<Expr>, succ: R.Node, g: Gen): (R.Node, Gen) {
    var argRegs := RegsFrom(g.nextReg, |args|);
    var (dest, g1) := g.SkipRegs(|args|).MapResult(result);
    var (node, g2) := g1.Emit(R.Ibuiltin(name, argRegs, if result.Some? then Some(dest) else None, succ));
    TransList(args, argRegs, node, g2)
  }

  function CaseCondition(isLong: bool, value: int): ConditionCode {
    Ccompimm(if isLong then Klong else Kint, Ceq, value)
  }

  /** The comparisons of a switch, the last case first. */
  function TransCases(isLong: bool, exprReg: R.Reg, cases: seq<Case>, succ: R.Node, targets: seq<R.Node>, orElse: R.Node, g: Gen)
    : (R.Node, Gen)
    decreases cases
  {
    if cases == [] then (orElse, g)
    else
      var last := |cases| - 1;
      var c := cases[last];
      assert c in cases && c.body < c;
      var (caseEntry, g1) := TransStmt(c.body, succ, targets, g);
      var n := if isLong then c.value else Wrap32(c.value);
      var (condNode, g2) := g1.Emit(R.Icond(CaseCondition(isLong, n), [exprReg], caseEntry, orElse));
      TransCases(isLong, exprReg, cases[..last], succ, targets, condNode, g2)
  }

  /** The first state, with a register for every parameter and variable. */
  function MapParams(params: seq<string>, g: Gen): Gen {
    if params == [] then g
    else
      var g1 := MapParams(params[..|params| - 1], g);
      g1.(nextReg := g1.nextReg + 1, vars := g1.vars[params[|params| - 1] := g1.nextReg])
  }

  function MapVars(vars: seq<string>, g: Gen): Gen {
    if vars == [] then g else MapVars(vars[..|vars| - 1], g).MapVar(vars[|vars| - 1]).1
  }

  function StartGen(fn: Function): Gen {
    MapVars(fn.vars, MapParams(fn.params, Gen(1, map[], 1, map[])))
  }

  function TransFunction(fn: Function): R.Function {
    var (exitNode, g) := StartGen(fn).Emit(R.Ireturn(None));
    var (entry, g1) := TransStmt(fn.body, exitNode, [], g);
    R.Function(RegsFrom(1, |fn.params|), g1.code, entry)
  }
}
