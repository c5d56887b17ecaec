/** The builders and translators of RTL generation (pkg/rtlgen), proved to compute what module Gen says. */
module RtlGen {
  import opened Values
  import opened CminorSel
  import opened Gen
  import R = RTL

  class CFGBuilder {
    var nextNode: nat
    var code: R.Code

    constructor ()
      ensures nextNode == 1 && code == map[]
    {
      nextNode, code := 1, map[];
    }

    method AllocNode() returns (n: R.Node)
      modifies this`nextNode
      ensures n == old(nextNode) && nextNode == old(nextNode) + 1
    {
      n := nextNode;
      nextNode := nextNode + 1;
    }

    method AddInstr(n: R.Node, i: R.Instr)
      modifies this`code
      ensures code == old(code)[n := i]
    {
      code := code[n := i];
    }

    method EmitInstr(i: R.Instr) returns (n: R.Node)
      modifies this
      ensures n == old(nextNode) && nextNode == old(nextNode) + 1 && code == old(code)[n := i]
    {
      n := AllocNode();
      AddInstr(n, i);
    }
  }

  class RegAllocator {
    var nextReg: nat
    var varToReg: map<string, R.Reg>
    var paramRegs: seq<R.Reg>

    constructor ()
      ensures nextReg == 1 && varToReg == map[] && paramRegs == []
    {
      nextReg, varToReg, paramRegs := 1, map[], [];
    }

    method Fresh() returns (r: R.Reg)
      modifies this`nextReg
      ensures r == old(nextReg) && nextReg == old(nextReg) + 1
    {
      r := nextReg;
      nextReg := nextReg + 1;
    }

    method FreshN(n: nat) returns (regs: seq<R.Reg>)
      modifies this`nextReg
      ensures regs == RegsFrom(old(nextReg), n) && nextReg == old(nextReg) + n
    {
      regs := [];
      for i := 0 to n
        invariant regs == RegsFrom(old(nextReg), i) && nextReg == old(nextReg) + i
      {
        var r := Fresh();
        regs := regs + [r];
      }
    }

    method MapVar(name: string) returns (r: R.Reg)
      modifies this
      ensures paramRegs == old(paramRegs)
      ensures if name in old(varToReg) then r == old(varToReg)[name] && nextReg == old(nextReg) && varToReg == old(varToReg)
              else r == old(nextReg) && nextReg == old(nextReg) + 1 && varToReg == old(varToReg)[name := r]
    {
      if name in varToReg {
        return varToReg[name];
      }
      r := Fresh();
      varToReg := varToReg[name := r];
    }
  }

  class ExitContext {
    var targets: seq<R.Node>

    constructor ()
      ensures targets == []
    {
      targets := [];
    }

    method Push(target: R.Node)
      modifies this
      ensures targets == old(targets) + [target]
    {
      targets := targets + [target];
    }

    method Pop()
      modifies this
      ensures targets == if old(targets) == [] then [] else old(targets)[..|old(targets)| - 1]
    {
      if |targets| > 0 {
        targets := targets[..|targets| - 1];
      }
    }

    method Get(n: int) returns (target: Option<R.Node>)
      ensures target == ExitTarget(targets, n)
    {
      var idx := |targets| - 1 - n;
      if idx < 0 || idx >= |targets| {
        return None;
      }
      return Some(targets[idx]);
    }
  }

  lemma {:induction false} ElementSmaller(es: seq<Expr>, i: nat)
    requires i < |es|
    ensures ESize(es[i]) < LSize(es)
    decreases |es|
  {
    var last := |es| - 1;
    if i < last {
      ElementSmaller(es[..last], i);
    }
  }

  lemma ChoiceIs(c: Cond, a: Expr, b: Expr, dest: R.Reg, succ: R.Node, g: Gen,
                                    elseEntry: R.Node, g1: Gen, thenEntry: R.Node, g2: Gen)
    requires TransExpr(b, dest, succ, g) == (elseEntry, g1) && TransExpr(a, dest, succ, g1) == (thenEntry, g2)
    ensures TransChoice(c, a, b, dest, succ, g) == TransCond(c, thenEntry, elseEntry, g2)
  {
  }

  class ExprTranslator {
    const cfg: CFGBuilder
    const regs: RegAllocator

    constructor (cfg: CFGBuilder, regs: RegAllocator)
      ensures this.cfg == cfg && this.regs == regs
    {
      this.cfg, this.regs := cfg, regs;
    }

    /** The state of the builders. */
    function G(): Gen
      reads cfg, regs
    {
      Gen(cfg.nextNode, cfg.code, regs.nextReg, regs.varToReg)
    }

    method Emit(i: R.Instr) returns (n: R.Node)
      modifies cfg
      ensures (n, G()) == old(G()).Emit(i)
    {
      n := cfg.EmitInstr(i);
    }

    method Fresh() returns (r: R.Reg)
      modifies regs
      ensures r == old(G()).nextReg && G() == old(G()).SkipRegs(1)
    {
      r := regs.Fresh();
    }

    method FreshN(n: nat) returns (rs: seq<R.Reg>)
      modifies regs
      ensures rs == RegsFrom(old(G()).nextReg, n) && G() == old(G()).SkipRegs(n)
    {
      rs := regs.FreshN(n);
    }

    method TranslateExpr(e: Expr, dest: R.Reg, succ: R.Node) returns (entry: R.Node)
      modifies cfg, regs
      ensures (entry, G()) == TransExpr(e, dest, succ, old(G()))
      decreases ESize(e), 0
    {
      match e
      case Evar(x) => entry := TranslateVar(x, dest, succ);
      case Econst(c) => entry := Emit(R.Iop(Oconst(c), [], dest, succ));
      case Eunop(op, a) => entry := TranslateUnop(op, a, dest, succ);
      case Ebinop(op, l, r) => entry := TranslateBinary(op, l, r, dest, succ);
      case Eload(chunk, addr, args) => entry := TranslateLoad(chunk, addr, args, dest, succ);
      case Econdition(c, a, b) => entry := TranslateConditional(c, a, b, dest, succ);
      case Eaddshift(shift, n, l, r) => entry := TranslateShifted(Oadd, ShiftOperation(shift, n), l, r, dest, succ);
      case Esubshift(shift, n, l, r) => entry := TranslateShifted(Osub, ShiftOperation(shift, n), l, r, dest, succ);
      case Ecmp(kind, cmp, l, r) => entry := TranslateBinary(Ocmp(kind, cmp), l, r, dest, succ);
    }

    method TranslateVar(x: string, dest: R.Reg, succ: R.Node) returns (entry: R.Node)
      modifies cfg, regs
      ensures (entry, G()) == TransExpr(Evar(x), dest, succ, old(G()))
    {
      var src := regs.MapVar(x);
      if src == dest {
        return succ;
      }
      entry := Emit(R.Iop(Omove, [src], dest, succ));
    }

    method TranslateUnop(op: Operation, a: Expr, dest: R.Reg, succ: R.Node) returns (entry: R.Node)
      modifies cfg, regs
      ensures (entry, G()) == TransExpr(Eunop(op, a), dest, succ, old(G()))
      decreases ESize(a), 1
    {
      var argReg := Fresh();
      var opNode := Emit(R.Iop(op, [argReg], dest, succ));
      entry := TranslateExpr(a, argReg, opNode);
    }

    method TranslateBinary(op: Operation, l: Expr, r: Expr, dest: R.Reg, succ: R.Node) returns (entry: R.Node)
      modifies cfg, regs
      ensures (entry, G()) == TransBinary(op, l, r, dest, succ, old(G()))
      decreases ESize(l) + ESize(r), 1
    {
      var leftReg := Fresh();
      var rightReg := Fresh();
      var opNode := Emit(R.Iop(op, [leftReg, rightReg], dest, succ));
      assert (opNode, G()) == old(G()).SkipRegs(2).Emit(R.Iop(op, [leftReg, rightReg], dest, succ));
      entry := TranslatePair(l, r, leftReg, rightReg, opNode);
    }

    method TranslatePair(l: Expr, r: Expr, leftReg: R.Reg, rightReg: R.Reg, succ: R.Node) returns (entry: R.Node)
      modifies cfg, regs
      ensures (entry, G()) == TransPair(l, r, leftReg, rightReg, succ, old(G()))
      decreases ESize(l) + ESize(r), 0
    {
      assert ESize(l) > 0 && ESize(r) > 0;
      var rightEntry := TranslateExpr(r, rightReg, succ);
      entry := TranslateExpr(l, leftReg, rightEntry);
    }

    method TranslateShifted(op: Operation, shiftOp: Operation, l: Expr, r: Expr, dest: R.Reg, succ: R.Node) returns (entry: R.Node)
      modifies cfg, regs
      ensures (entry, G()) == TransShifted(op, shiftOp, l, r, dest, succ, old(G()))
      decreases ESize(l) + ESize(r), 1
    {
      var leftReg := Fresh();
      var rightReg := Fresh();
      var shiftedReg := Fresh();
      var opNode := Emit(R.Iop(op, [leftReg, shiftedReg], dest, succ));
      assert (opNode, G()) == old(G()).SkipRegs(3).Emit(R.Iop(op, [leftReg, shiftedReg], dest, succ));
      var shiftNode := Emit(R.Iop(shiftOp, [rightReg], shiftedReg, opNode));
      entry := TranslatePair(l, r, leftReg, rightReg, shiftNode);
    }

    /** Translates the expressions into the registers, the last one first. */
    method TranslateListToRegs(es: seq<Expr>, rs: seq<R.Reg>, succ: R.Node) returns (entry: R.Node)
      requires |rs| == |es|
      modifies cfg, regs
      ensures (entry, G()) == TransList(es, rs, succ, old(G()))
      decreases LSize(es), 0
    {
      entry := succ;
      assert es[..|es|] == es && rs[..|es|] == rs;
      for i := |es| downto 0
        invariant TransList(es, rs, succ, old(G())) == TransList(es[..i], rs[..i], entry, G())
      {
        ElementSmaller(es, i);
        assert es[..i + 1][..i] == es[..i] && rs[..i + 1][..i] == rs[..i];
        entry := TranslateExpr(es[i], rs[i], entry);
      }
    }

    /** Fresh registers, and the expressions translated into them. */
    method TranslateExprList(es: seq<Expr>, succ: R.Node) returns (rs: seq<R.Reg>, entry: R.Node)
      modifies cfg, regs
      ensures rs == RegsFrom(old(G()).nextReg, |es|)
      ensures (entry, G()) == TransList(es, rs, succ, old(G()).SkipRegs(|es|))
      decreases LSize(es), 1
    {
      rs := FreshN(|es|);
      entry := TranslateListToRegs(es, rs, succ);
    }

    method TranslateLoad(chunk: Chunk, addr: AddrMode, args: seq<Expr>, dest: R.Reg, succ: R.Node) returns (entry: R.Node)
      modifies cfg, regs
      ensures (entry, G()) == TransExpr(Eload(chunk, addr, args), dest, succ, old(G()))
      decreases LSize(args), 2
    {
      var argRegs, vain := TranslateExprList(args, succ);
      var loadNode := Emit(R.Iload(chunk, addr, argRegs, dest, succ));
      entry := TranslateListToRegs(args, argRegs, loadNode);
    }

    method TranslateConditional(c: Cond, a: Expr, b: Expr, dest: R.Reg, succ: R.Node) returns (entry: R.Node)
      modifies cfg, regs
      ensures (entry, G()) == TransChoice(c, a, b, dest, succ, old(G()))
      decreases CSize(c) + ESize(a) + ESize(b), 0
    {
      assert ESize(a) > 0 && ESize(b) > 0 && CSize(c) > 0;
      var elseEntry := TranslateExpr(b, dest, succ);
      ghost var g1 := G();
      var thenEntry := TranslateExpr(a, dest, succ);
      ChoiceIs(c, a, b, dest, succ, old(G()), elseEntry, g1, thenEntry, G());
      entry := TranslateCond(c, thenEntry, elseEntry);
    }

    method TranslateCond(c: Cond, ifso: R.Node, ifnot: R.Node) returns (entry: R.Node)
      modifies cfg, regs
      ensures (entry, G()) == TransCond(c, ifso, ifnot, old(G()))
      decreases CSize(c), 1
    {
      match TranslateCondition(c)
      case None => entry := TranslateCompound(c, ifso, ifnot);
      case Some((cc, args)) =>
        var empty := cfg.AllocNode();
        assert G() == old(G()).SkipNode();
        var argRegs, vain := TranslateExprList(args, empty);
        var condNode := Emit(R.Icond(cc, argRegs, ifso, ifnot));
        entry := TranslateListToRegs(args, argRegs, condNode);
    }

    method TranslateCompound(c: Cond, ifso: R.Node, ifnot: R.Node) returns (entry: R.Node)
      modifies cfg, regs
      ensures (entry, G()) == TransCompound(c, ifso, ifnot, old(G()))
      decreases CSize(c), 0
    {
      match c
      case CondAnd(a, b) =>
        var inner := TranslateCond(b, ifso, ifnot);
        entry := TranslateCond(a, inner, ifnot);
      case CondOr(a, b) =>
        var inner := TranslateCond(b, ifso, ifnot);
        entry := TranslateCond(a, ifso, inner);
      case _ => entry := ifso;
    }
  }

  class StmtTranslator {
    const cfg: CFGBuilder
    const regs: RegAllocator
    const expr: ExprTranslator
    const ctx: ExitContext

    constructor (cfg: CFGBuilder, regs: RegAllocator)
      ensures this.cfg == cfg && this.regs == regs && expr.cfg == cfg && expr.regs == regs && ctx.targets == []
      ensures fresh(expr) && fresh(ctx)
    {
      this.cfg, this.regs := cfg, regs;
      expr := new ExprTranslator(cfg, regs);
      ctx := new ExitContext();
    }

    ghost predicate Valid() {
      expr.cfg == cfg && expr.regs == regs
    }

    function G(): Gen
      reads cfg, regs
    {
      Gen(cfg.nextNode, cfg.code, regs.nextReg, regs.varToReg)
    }

    method MapResult(result: Option<string>) returns (r: R.Reg)
      requires Valid()
      modifies regs
      ensures (r, G()) == old(G()).MapResult(result)
    {
      if result.Some? {
        r := regs.MapVar(result.value);
      } else {
        r := 0;
      }
    }

    method TranslateStmt(s: Stmt, succ: R.Node) returns (entry: R.Node)
      requires Valid()
      modifies cfg, regs, ctx
      ensures (entry, G()) == TransStmt(s, succ, old(ctx.targets), old(G())) && ctx.targets == old(ctx.targets)
      decreases s, 1
    {
      match s
      case Sskip => entry := succ;
      case Sassign(x, e) =>
        var dest := regs.MapVar(x);
        entry := expr.TranslateExpr(e, dest, succ);
      case Sstore(chunk, addr, args, value) => entry := TranslateStore(chunk, addr, args, value, succ);
      case Scall(result, sig, func, args) => entry := TranslateCall(result, sig, func, args, succ);
      case Stailcall(sig, func, args) => entry := TranslateTailcall(sig, func, args);
      case Sbuiltin(result, name, args) => entry := TranslateBuiltin(result, name, args, succ);
      case Sseq(a, b) =>
        var second := TranslateStmt(b, succ);
        entry := TranslateStmt(a, second);
      case Sifthenelse(c, a, b) =>
        var thenEntry := TranslateStmt(a, succ);
        var elseEntry := TranslateStmt(b, succ);
        entry := expr.TranslateCond(c, thenEntry, elseEntry);
      case Sloop(body) =>
        var header := cfg.AllocNode();
        var bodyEntry := TranslateStmt(body, header);
        cfg.AddInstr(header, R.Inop(bodyEntry));
        entry := header;
      case Sblock(body) =>
        ctx.Push(succ);
        entry := TranslateStmt(body, succ);
        ctx.Pop();
      case Sexit(n) => entry := TranslateExit(n);
      case Sswitch(_, _, _, _) => entry := TranslateSwitch(s, succ);
      case Sreturn(ret) => entry := TranslateReturn(ret);
    }

    method TranslateExit(n: int) returns (entry: R.Node)
      requires Valid()
      modifies cfg
      ensures (entry, G()) == TransStmt(Sexit(n), 0, ctx.targets, old(G()))
    {
      var target := ctx.Get(n);
      if target.None? {
        entry := cfg.AllocNode();
      } else {
        entry := cfg.EmitInstr(R.Inop(target.value));
      }
    }

    method TranslateReturn(ret: Option<Expr>) returns (entry: R.Node)
      requires Valid()
      modifies cfg, regs
      ensures (entry, G()) == TransStmt(Sreturn(ret), 0, [], old(G()))
    {
      if ret.None? {
        entry := cfg.EmitInstr(R.Ireturn(None));
      } else {
        var retReg := regs.Fresh();
        var retNode := cfg.EmitInstr(R.Ireturn(Some(retReg)));
        entry := expr.TranslateExpr(ret.value, retReg, retNode);
      }
    }

    method TranslateStore(chunk: Chunk, addr: AddrMode, args: seq<Expr>, value: Expr, succ: R.Node) returns (entry: R.Node)
      requires Valid()
      modifies cfg, regs
      ensures (entry, G()) == TransStore(chunk, addr, args, value, succ, old(G()))
    {
      var valueReg := regs.Fresh();
      var addrRegs := regs.FreshN(|args|);
      var storeNode := cfg.EmitInstr(R.Istore(chunk, addr, addrRegs, valueReg, succ));
      var valueEntry := expr.TranslateExpr(value, valueReg, storeNode);
      entry := expr.TranslateListToRegs(args, addrRegs, valueEntry);
    }

    /** The operands of a call and, unless it is called by name, its callee. */
    method TranslateOperands(func: Expr, args: seq<Expr>, funcReg: R.Reg, argRegs: seq<R.Reg>, node: R.Node) returns (entry: R.Node)
      requires Valid() && |argRegs| == |args|
      modifies cfg, regs
      ensures (entry, G()) == TransOperands(func, args, funcReg, argRegs, node, old(G()))
    {
      if CalledSymbol(func).Some? {
        entry := expr.TranslateListToRegs(args, argRegs, node);
      } else {
        var funcEntry := expr.TranslateExpr(func, funcReg, node);
        entry := expr.TranslateListToRegs(args, argRegs, funcEntry);
      }
    }

    method TranslateCall(result: Option<string>, sig: Sig, func: Expr, args: seq<Expr>, succ: R.Node) returns (entry: R.Node)
      requires Valid()
      modifies cfg, regs
      ensures (entry, G()) == TransCall(result, sig, func, args, succ, old(G()))
    {
      var funcReg := regs.Fresh();
      var argRegs := regs.FreshN(|args|);
      assert G() == old(G()).SkipRegs(1 + |args|);
      var dest := MapResult(result);
      ghost var g1 := G();
      var callNode := cfg.EmitInstr(R.Icall(sig, R.FunReg(funcReg), argRegs, dest, succ));
      if CalledSymbol(func).Some? {
        cfg.AddInstr(callNode, R.Icall(sig, R.FunSymbol(CalledSymbol(func).value), argRegs, dest, succ));
      }
      assert cfg.code == g1.code[callNode := R.Icall(sig, CalleeRef(func, funcReg), argRegs, dest, succ)];
      assert (callNode, G()) == g1.Emit(R.Icall(sig, CalleeRef(func, funcReg), argRegs, dest, succ));
      entry := TranslateOperands(func, args, funcReg, argRegs, callNode);
    }

    method TranslateTailcall(sig: Sig, func: Expr, args: seq<Expr>) returns (entry: R.Node)
      requires Valid()
      modifies cfg, regs
      ensures (entry, G()) == TransTailcall(sig, func, args, old(G()))
    {
      var funcReg := regs.Fresh();
      var argRegs := regs.FreshN(|args|);
      ghost var g1 := G();
      assert g1 == old(G()).SkipRegs(1 + |args|);
      var tailNode := cfg.EmitInstr(R.Itailcall(sig, R.FunReg(funcReg), argRegs));
      if CalledSymbol(func).Some? {
        cfg.AddInstr(tailNode, R.Itailcall(sig, R.FunSymbol(CalledSymbol(func).value), argRegs));
      }
      assert cfg.code == g1.code[tailNode := R.Itailcall(sig, CalleeRef(func, funcReg), argRegs)];
      assert (tailNode, G()) == g1.Emit(R.Itailcall(sig, CalleeRef(func, funcReg), argRegs));
      entry := TranslateOperands(func, args, funcReg, argRegs, tailNode);
    }

    method TranslateBuiltin(result: Option<string>, name: string, args: seq<Expr>, succ: R.Node) returns (entry: R.Node)
      requires Valid()
      modifies cfg, regs
      ensures (entry, G()) == TransBuiltin(result, name, args, succ, old(G()))
    {
      var argRegs := regs.FreshN(|args|);
      assert G() == old(G()).SkipRegs(|args|);
      var dest := MapResult(result);
      var node := cfg.EmitInstr(R.Ibuiltin(name, argRegs, if result.Some? then Some(dest) else None, succ));
      entry := expr.TranslateListToRegs(args, argRegs, node);
    }

    method TranslateSwitch(s: Stmt, succ: R.Node) returns (entry: R.Node)
      requires Valid() && s.Sswitch?
      modifies cfg, regs, ctx
      ensures (entry, G()) == TransStmt(s, succ, old(ctx.targets), old(G())) && ctx.targets == old(ctx.targets)
      decreases s, 0
    {
      var exprReg := regs.Fresh();
      var defaultEntry := TranslateStmt(s.default, succ);
      ghost var g1 := G();
      var currentElse := defaultEntry;
      assert s.cases[..|s.cases|] == s.cases;
      for i := |s.cases| downto 0
        invariant ctx.targets == old(ctx.targets)
        invariant TransCases(s.isLong, exprReg, s.cases, succ, ctx.targets, defaultEntry, g1) ==
                  TransCases(s.isLong, exprReg, s.cases[..i], succ, ctx.targets, currentElse, G())
      {
        var c := s.cases[i];
        assert c in s.cases && c.body < c && s.cases[..i + 1][..i] == s.cases[..i];
        var caseEntry := TranslateStmt(c.body, succ);
        var n := if s.isLong then c.value else Wrap32(c.value);
        currentElse := cfg.EmitInstr(R.Icond(CaseCondition(s.isLong, n), [exprReg], caseEntry, currentElse));
      }
      entry := expr.TranslateExpr(s.expr, exprReg, currentElse);
    }
  }

  method TranslateFunction(fn: Function) returns (rtl: R.Function)
    ensures rtl == TransFunction(fn)
  {
    var cfg := new CFGBuilder();
    var regs := new RegAllocator();
    var paramRegs: seq<R.Reg> := [];
    ghost var start := Gen(1, map[], 1, map[]);
    for i := 0 to |fn.params|
      invariant cfg.nextNode == 1 && cfg.code == map[] && regs.nextReg == 1 + i
      invariant Gen(1, map[], regs.nextReg, regs.varToReg) == MapParams(fn.params[..i], start)
      invariant paramRegs == RegsFrom(1, i)
    {
      assert fn.params[..i + 1][..i] == fn.params[..i];
      var r := regs.Fresh();
      paramRegs := paramRegs + [r];
      regs.varToReg := regs.varToReg[fn.params[i] := r];
    }
    assert fn.params[..|fn.params|] == fn.params;
    for i := 0 to |fn.vars|
      invariant cfg.nextNode == 1 && cfg.code == map[]
      invariant Gen(1, map[], regs.nextReg, regs.varToReg) == MapVars(fn.vars[..i], MapParams(fn.params, start))
    {
      assert fn.vars[..i + 1][..i] == fn.vars[..i];
      var r := regs.MapVar(fn.vars[i]);
    }
    assert fn.vars[..|fn.vars|] == fn.vars;
    var trans := new StmtTranslator(cfg, regs);
    var exitNode := cfg.AllocNode();
    cfg.AddInstr(exitNode, R.Ireturn(None));
    var entry := trans.TranslateStmt(fn.body, exitNode);
    rtl := R.Function(paramRegs, cfg.code, entry);
  }
}
