/** The control-flow graph generated for a statement does what the statement means. */
module GenStmts {
  import opened Values
  import opened Runs
  import opened CminorSel
  import opened Gen
  import opened GenGrows
  import opened GenExprs
  import R = RTL

  // --- Variables ---

  lemma HoldsAssigned(w: World, env: Env, rs: R.RegFile, rs': R.RegFile, lo: nat, hi: nat, x: string)
    requires w.Valid() && w.Holds(env, rs) && x in w.vars && w.Kept(rs, rs', lo, hi, {w.vars[x]})
    ensures w.Holds(env[x := Get(rs', w.vars[x])], rs')
  {
    forall y | y in w.vars
      ensures Get(rs', w.vars[y]) == Get(env[x := Get(rs', w.vars[x])], y)
    {
      assert !w.IsTemp(w.vars[y]);
      assert Apart(w.vars, x, y);
      if y != x { assert w.vars[y] !in {w.vars[x]}; }
    }
  }

  /** Writing a result into its variable's register. */
  lemma HoldsResult(w: World, env: Env, rs: R.RegFile, result: Option<string>, dest: R.Reg, v: Val)
    requires w.Valid() && w.Holds(env, rs)
    requires if result.Some? then result.value in w.vars && w.vars[result.value] == dest else dest == 0
    ensures w.Holds(Set(env, result, v), if dest != 0 then rs[dest := v] else rs)
  {
    if result.Some? {
      var x := result.value;
      forall y | y in w.vars && y != x
        ensures w.vars[y] != dest
      {
        assert Apart(w.vars, x, y);
      }
    }
  }

  // --- Where a statement leads ---

  /** The RTL machine is where the result of a statement sends it. */
  ghost predicate Arrived(w: World, r: Result, succ: R.Node, targets: seq<R.Node>, t: R.State) {
    match r.out
    case Normal => At(w, r, succ, t)
    case Exit(n) => n < |targets| && At(w, r, targets[|targets| - 1 - n], t)
    case Return(v) => t == R.Returned(v, r.m, r.tr)
    case TailCall(callee, args) => t == R.TailCalled(callee, args, r.m, r.tr)
  }

  ghost predicate At(w: World, r: Result, pc: R.Node, t: R.State) {
    t.Running? && t.pc == pc && t.m == r.m && t.tr == r.tr && w.Holds(r.env, t.rs)
  }

  /** From node n, the machine gets there. */
  ghost predicate Reaches(w: World, n: R.Node, rs: R.RegFile, m: Mem, tr: Trace, r: Result, succ: R.Node, targets: seq<R.Node>, t: R.State) {
    Goes(w.f, R.Running(n, rs, m, tr), t) && Arrived(w, r, succ, targets, t)
  }

  /** One last instruction. */
  lemma LastInstr(w: World, start: R.State, n: R.Node, i: R.Instr, rs: R.RegFile, m: Mem, tr: Trace)
    requires w.Valid() && n in w.code && w.code[n] == i && Goes(w.f, start, R.Running(n, rs, m, tr))
    ensures Goes(w.f, start, R.StepInstr(w.o, i, rs, m, tr))
  {
    InstrRuns(w, n, i, rs, m, tr);
    GoesOn(w.f, start, R.Running(n, rs, m, tr), R.StepInstr(w.o, i, rs, m, tr));
  }

  // --- Operands ---

  /** The operands are in their registers. */
  ghost predicate Loaded(w: World, n: R.Node, node: R.Node, regs: seq<R.Reg>, vs: seq<Val>, env: Env,
                         rs: R.RegFile, rs': R.RegFile, m: Mem, tr: Trace) {
    && Goes(w.f, R.Running(n, rs, m, tr), R.Running(node, rs', m, tr))
    && GetAll(rs', regs) == vs && w.Holds(env, rs')
  }

  lemma ListLoads(w: World, es: seq<Expr>, regs: seq<R.Reg>, succ: R.Node, g: Gen,
                                     env: Env, rs: R.RegFile, m: Mem, tr: Trace)
    returns (rs': R.RegFile)
    requires |regs| == |es| && w.Valid() && Good(g) && w.Fits(TransList(es, regs, succ, g).1) && ListOk(es) && AreTemps(w, regs, g)
    requires w.Holds(env, rs) && EvalList(w.o, env, m, es).Some?
    ensures Loaded(w, TransList(es, regs, succ, g).0, succ, regs, EvalList(w.o, env, m, es).value, env, rs, rs', m, tr)
  {
    rs' := ListRuns(w, es, regs, succ, g, env, rs, m, tr);
    assert forall d | d in RegSet(regs) :: w.IsTemp(d);
    HoldsStill(w, env, rs, rs', g.nextReg, TransList(es, regs, succ, g).1.nextReg, RegSet(regs));
  }

  /** Registers for operands and one more, all different temporaries already given out. */
  ghost predicate FreshRegs(w: World, regs: seq<R.Reg>, reg: R.Reg, g: Gen) {
    Good(g) && AreTemps(w, regs, g) && reg < g.nextReg && w.IsTemp(reg) && reg !in regs
  }

  lemma ListThenLoads(w: World, es: seq<Expr>, regs: seq<R.Reg>, e: Expr, reg: R.Reg, node: R.Node, g: Gen,
                                         env: Env, rs: R.RegFile, m: Mem, tr: Trace)
    returns (rs': R.RegFile)
    requires |regs| == |es| && w.Valid() && FreshRegs(w, regs, reg, g) && w.Fits(TransListThen(es, regs, e, reg, node, g).1)
    requires ListOk(es) && ExprOk(e)
    requires w.Holds(env, rs) && EvalList(w.o, env, m, es).Some? && EvalExpr(w.o, env, m, e).Some?
    ensures Loaded(w, TransListThen(es, regs, e, reg, node, g).0, node, regs, EvalList(w.o, env, m, es).value, env, rs, rs', m, tr)
    ensures Get(rs', reg) == EvalExpr(w.o, env, m, e).value
  {
    var (entry, g1) := TransExpr(e, reg, node, g);
    var (n, h) := TransList(es, regs, entry, g1);
    ExprGrows(e, reg, node, g);
    ListGrows(es, regs, entry, g1);
    FitsEarlier(w, g1, h);
    var rs1 := ListLoads(w, es, regs, entry, g1, env, rs, m, tr);
    rs' := ExprRuns(w, e, reg, node, g, env, rs1, m, tr);
    GoesOn(w.f, R.Running(n, rs, m, tr), R.Running(entry, rs1, m, tr), R.Running(node, rs', m, tr));
    HoldsStill(w, env, rs1, rs', g.nextReg, g1.nextReg, {reg});
    RegsStay(w, regs, reg, g, g1.nextReg, rs1, rs');
  }

  lemma RegsStay(w: World, regs: seq<R.Reg>, reg: R.Reg, g: Gen, hi: nat, rs1: R.RegFile, rs': R.RegFile)
    requires AreTemps(w, regs, g) && reg !in regs && w.Kept(rs1, rs', g.nextReg, hi, {reg})
    ensures GetAll(rs', regs) == GetAll(rs1, regs)
  {
    forall i | 0 <= i < |regs|
      ensures Get(rs', regs[i]) == Get(rs1, regs[i])
    {
      assert regs[i] in regs && regs[i] !in {reg};
    }
  }

  lemma OperandsLoad(w: World, func: Expr, args: seq<Expr>, funcReg: R.Reg, argRegs: seq<R.Reg>, node: R.Node, g: Gen,
                                        env: Env, rs: R.RegFile, m: Mem, tr: Trace)
    returns (rs': R.RegFile)
    requires |argRegs| == |args| && w.Valid() && FreshRegs(w, argRegs, funcReg, g)
    requires w.Fits(TransOperands(func, args, funcReg, argRegs, node, g).1) && ListOk(args) && ExprOk(func)
    requires w.Holds(env, rs) && EvalList(w.o, env, m, args).Some? && EvalCallee(w.o, env, m, func).Some?
    ensures Loaded(w, TransOperands(func, args, funcReg, argRegs, node, g).0, node, argRegs, EvalList(w.o, env, m, args).value,
                   env, rs, rs', m, tr)
    ensures R.CalleeOf(CalleeRef(func, funcReg), rs') == EvalCallee(w.o, env, m, func).value
  {
    if CalledSymbol(func).Some? {
      rs' := ListLoads(w, args, argRegs, node, g, env, rs, m, tr);
    } else {
      rs' := ListThenLoads(w, args, argRegs, func, funcReg, node, g, env, rs, m, tr);
    }
  }

  /** Fresh registers r and r + 1 .. r + k. */
  lemma OneAndMore(w: World, r: R.Reg, k: nat, g: Gen)
    requires Good(g) && r + 1 + k <= g.nextReg && forall q | r <= q < r + 1 + k :: w.IsTemp(q)
    ensures FreshRegs(w, RegsFrom(r + 1, k), r, g)
  {
    RegsAreTemps(w, r + 1, k, g);
  }

  // --- Simple statements ---

  lemma AssignRuns(w: World, x: string, e: Expr, succ: R.Node, g: Gen, env: Env, rs: R.RegFile, m: Mem, tr: Trace)
    returns (t: R.State)
    requires w.Valid() && Good(g) && w.Fits(TransStmt(Sassign(x, e), succ, [], g).1) && ExprOk(e)
    requires w.Holds(env, rs) && EvalExpr(w.o, env, m, e).Some?
    ensures var v := EvalExpr(w.o, env, m, e).value;
      Goes(w.f, R.Running(TransStmt(Sassign(x, e), succ, [], g).0, rs, m, tr), t) && At(w, Result(Normal, env[x := v], m, tr), succ, t)
  {
    var (dest, g1) := g.MapVar(x);
    var h := TransExpr(e, dest, succ, g1).1;
    MapVarGrows(g, x);
    ExprGrows(e, dest, succ, g1);
    var rs' := ExprRuns(w, e, dest, succ, g1, env, rs, m, tr);
    assert x in h.vars && h.vars[x] == dest;
    HoldsAssigned(w, env, rs, rs', g1.nextReg, h.nextReg, x);
    t := R.Running(succ, rs', m, tr);
  }

  lemma StoreRuns(w: World, chunk: Chunk, addr: AddrMode, args: seq<Expr>, value: Expr, vs: seq<Val>, v: Val, m': Mem,
                                     succ: R.Node, g: Gen, n: R.Node, h: Gen, env: Env, rs: R.RegFile, m: Mem, tr: Trace)
    returns (t: R.State)
    requires w.Valid() && Good(g) && TransStore(chunk, addr, args, value, succ, g) == (n, h) && w.Fits(h) && ListOk(args) && ExprOk(value)
    requires w.Holds(env, rs) && EvalList(w.o, env, m, args) == Some(vs) && EvalExpr(w.o, env, m, value) == Some(v)
    requires w.o.store(chunk, addr, vs, v, m) == Some(m')
    ensures Goes(w.f, R.Running(n, rs, m, tr), t)
    ensures At(w, Result(Normal, env, m', tr), succ, t)
  {
    var k, valueReg := |args|, g.nextReg;
    var addrRegs := RegsFrom(g.nextReg + 1, k);
    var i := R.Istore(chunk, addr, addrRegs, valueReg, succ);
    var (node, g1) := g.SkipRegs(1 + k).Emit(i);
    assert (n, h) == TransListThen(args, addrRegs, value, valueReg, node, g1);
    FreshListThen(w, args, value, node, g, i);
    t := StoreFinishes(w, i, args, value, vs, v, m', node, g1, env, rs, m, tr);
  }

  lemma StoreFinishes(w: World, i: R.Instr, args: seq<Expr>, value: Expr, vs: seq<Val>, v: Val, m': Mem,
                                         node: R.Node, g: Gen, env: Env, rs: R.RegFile, m: Mem, tr: Trace)
    returns (t: R.State)
    requires i.Istore? && |i.args| == |args| && w.Valid() && FreshRegs(w, i.args, i.src, g) && ListOk(args) && ExprOk(value)
    requires w.Fits(TransListThen(args, i.args, value, i.src, node, g).1) && node in w.code && w.code[node] == i
    requires w.Holds(env, rs) && EvalList(w.o, env, m, args) == Some(vs) && EvalExpr(w.o, env, m, value) == Some(v)
    requires w.o.store(i.chunk, i.addr, vs, v, m) == Some(m')
    ensures Goes(w.f, R.Running(TransListThen(args, i.args, value, i.src, node, g).0, rs, m, tr), t)
    ensures At(w, Result(Normal, env, m', tr), i.succ, t)
  {
    var rs1 := ListThenLoads(w, args, i.args, value, i.src, node, g, env, rs, m, tr);
    LastInstr(w, R.Running(TransListThen(args, i.args, value, i.src, node, g).0, rs, m, tr), node, i, rs1, m, tr);
    t := R.Running(i.succ, rs1, m', tr);
  }

  /** Fresh registers for operands and one more, and an instruction: the facts that their run needs. */
  lemma FreshListThen(w: World, args: seq<Expr>, e: Expr, node: R.Node, g: Gen, i: R.Instr)
    requires var (k, r) := (|args|, g.nextReg);
      Good(g) && w.Fits(TransListThen(args, RegsFrom(r + 1, k), e, r, node, g.SkipRegs(1 + k).Emit(i).1).1)
    ensures var (k, r, g1) := (|args|, g.nextReg, g.SkipRegs(1 + |args|).Emit(i).1);
      && FreshRegs(w, RegsFrom(r + 1, k), r, g1)
      && g.nextNode in w.code && w.code[g.nextNode] == i
  {
    var k, r := |args|, g.nextReg;
    var g1 := g.SkipRegs(1 + k).Emit(i).1;
    SkipEmitGrows(g, 1 + k, i);
    ListThenGrows(args, RegsFrom(r + 1, k), e, r, node, g1);
    FreshFacts(w, g, 1 + k, i, TransListThen(args, RegsFrom(r + 1, k), e, r, node, g1).1);
    OneAndMore(w, r, k, g1);
  }

  lemma CallRuns(w: World, result: Option<string>, sig: Sig, func: Expr, args: seq<Expr>,
                                    callee: Callee, vs: seq<Val>, v: Val, m': Mem,
                                    succ: R.Node, g: Gen, env: Env, rs: R.RegFile, m: Mem, tr: Trace)
    returns (t: R.State)
    requires w.Valid() && Good(g) && w.Fits(TransCall(result, sig, func, args, succ, g).1) && ExprOk(func) && ListOk(args)
    requires w.Holds(env, rs) && EvalList(w.o, env, m, args) == Some(vs) && EvalCallee(w.o, env, m, func) == Some(callee)
    requires w.o.call(callee, vs, m) == Some((v, m'))
    ensures Goes(w.f, R.Running(TransCall(result, sig, func, args, succ, g).0, rs, m, tr), t)
    ensures At(w, Result(Normal, Set(env, result, v), m', tr + [EvCall(callee, vs)]), succ, t)
  {
    var k, funcReg := |args|, g.nextReg;
    var argRegs := RegsFrom(g.nextReg + 1, k);
    var (dest, g1) := g.SkipRegs(1 + k).MapResult(result);
    var i := R.Icall(sig, CalleeRef(func, funcReg), argRegs, dest, succ);
    var (node, g2) := g1.Emit(i);
    assert TransCall(result, sig, func, args, succ, g) == TransOperands(func, args, funcReg, argRegs, node, g2);
    FreshOperands(w, func, args, g, result, i);
    t := CallFinishes(w, i, result, func, args, funcReg, callee, vs, v, m', node, g2, env, rs, m, tr);
  }

  ghost predicate IsResultReg(w: World, result: Option<string>, dest: R.Reg) {
    if result.Some? then result.value in w.vars && w.vars[result.value] == dest && dest != 0 else dest == 0
  }

  lemma CallFinishes(w: World, i: R.Instr, result: Option<string>, func: Expr, args: seq<Expr>, funcReg: R.Reg,
                                        callee: Callee, vs: seq<Val>, v: Val, m': Mem,
                                        node: R.Node, g: Gen, env: Env, rs: R.RegFile, m: Mem, tr: Trace)
    returns (t: R.State)
    requires i.Icall? && i.fn == CalleeRef(func, funcReg) && |i.args| == |args| && w.Valid() && FreshRegs(w, i.args, funcReg, g)
    requires w.Fits(TransOperands(func, args, funcReg, i.args, node, g).1) && node in w.code && w.code[node] == i
    requires ExprOk(func) && ListOk(args) && IsResultReg(w, result, i.callDest)
    requires w.Holds(env, rs) && EvalList(w.o, env, m, args) == Some(vs) && EvalCallee(w.o, env, m, func) == Some(callee)
    requires w.o.call(callee, vs, m) == Some((v, m'))
    ensures Goes(w.f, R.Running(TransOperands(func, args, funcReg, i.args, node, g).0, rs, m, tr), t)
    ensures At(w, Result(Normal, Set(env, result, v), m', tr + [EvCall(callee, vs)]), i.succ, t)
  {
    var rs1 := OperandsLoad(w, func, args, funcReg, i.args, node, g, env, rs, m, tr);
    LastInstr(w, R.Running(TransOperands(func, args, funcReg, i.args, node, g).0, rs, m, tr), node, i, rs1, m, tr);
    HoldsResult(w, env, rs1, result, i.callDest, v);
    t := R.Running(i.succ, if i.callDest != 0 then rs1[i.callDest := v] else rs1, m', tr + [EvCall(callee, vs)]);
  }

  lemma FreshOperands(w: World, func: Expr, args: seq<Expr>, g: Gen, result: Option<string>, i: R.Instr)
    requires var (k, r) := (|args|, g.nextReg);
      var (node, g2) := g.SkipRegs(1 + k).MapResult(result).1.Emit(i);
      w.Valid() && Good(g) && w.Fits(TransOperands(func, args, r, RegsFrom(r + 1, k), node, g2).1)
    ensures var (k, r) := (|args|, g.nextReg);
      var (dest, g1) := g.SkipRegs(1 + k).MapResult(result);
      var (node, g2) := g1.Emit(i);
      && FreshRegs(w, RegsFrom(r + 1, k), r, g2)
      && node in w.code && w.code[node] == i
      && IsResultReg(w, result, dest)
  {
    var k, r := |args|, g.nextReg;
    var (node, g2) := g.SkipRegs(1 + k).MapResult(result).1.Emit(i);
    ResultGrows(g, 1 + k, result, i);
    OperandsGrow(func, args, r, RegsFrom(r + 1, k), node, g2);
    ResultFacts(w, g, 1 + k, result, i, TransOperands(func, args, r, RegsFrom(r + 1, k), node, g2).1);
    OneAndMore(w, r, k, g2);
  }

  /** Fresh registers, the register of a result, an instruction: the facts about them. */
  lemma ResultFacts(w: World, g: Gen, n: nat, result: Option<string>, i: R.Instr, h: Gen)
    requires Good(g) && w.Valid() && w.Fits(h) && Grows(g.SkipRegs(n).MapResult(result).1.Emit(i).1, h)
    ensures var (dest, g1) := g.SkipRegs(n).MapResult(result);
      && Good(g1.Emit(i).1) && g.nextReg + n <= g1.nextReg
      && (forall q | g.nextReg <= q < g.nextReg + n :: w.IsTemp(q))
      && g1.nextNode in w.code && w.code[g1.nextNode] == i
      && IsResultReg(w, result, dest)
  {
    var g0 := g.SkipRegs(n);
    var (dest, g1) := g0.MapResult(result);
    SkipGrows(g, n);
    MapResultGrows(g0, result);
    EmitGrows(g1, i);
    GrowsTrans(g0, g1, g1.Emit(i).1);
    GrowsTrans(g0, g1.Emit(i).1, h);
    FreshAreTemps(w, g, n, h);
    EmittedIn(w, g1, i, h);
    if result.Some? {
      MapVarGrows(g0, result.value);
      assert result.value in h.vars;
    }
  }

  lemma TailcallRuns(w: World, s: Stmt, g: Gen, env: Env, rs: R.RegFile, m: Mem, tr: Trace)
    returns (t: R.State)
    requires s.Stailcall? && w.Valid() && Good(g) && w.Fits(TransTailcall(s.sig, s.func, s.args, g).1) && StmtOk(s, 0)
    requires w.Holds(env, rs) && EvalList(w.o, env, m, s.args).Some? && EvalCallee(w.o, env, m, s.func).Some?
    ensures Goes(w.f, R.Running(TransTailcall(s.sig, s.func, s.args, g).0, rs, m, tr), t)
    ensures t == R.TailCalled(EvalCallee(w.o, env, m, s.func).value, EvalList(w.o, env, m, s.args).value, m, tr)
  {
    var k, funcReg := |s.args|, g.nextReg;
    var argRegs := RegsFrom(g.nextReg + 1, k);
    var i := R.Itailcall(s.sig, CalleeRef(s.func, funcReg), argRegs);
    var (node, g1) := g.SkipRegs(1 + k).Emit(i);
    var (n, h) := TransOperands(s.func, s.args, funcReg, argRegs, node, g1);
    SkipEmitGrows(g, 1 + k, i);
    OperandsGrow(s.func, s.args, funcReg, argRegs, node, g1);
    FreshFacts(w, g, 1 + k, i, h);
    OneAndMore(w, funcReg, k, g1);
    var rs1 := OperandsLoad(w, s.func, s.args, funcReg, argRegs, node, g1, env, rs, m, tr);
    LastInstr(w, R.Running(n, rs, m, tr), node, i, rs1, m, tr);
    t := R.StepInstr(w.o, i, rs1, m, tr);
  }

  lemma BuiltinRuns(w: World, result: Option<string>, name: string, args: seq<Expr>, vs: seq<Val>, v: Val, m': Mem,
                                       succ: R.Node, g: Gen, env: Env, rs: R.RegFile, m: Mem, tr: Trace)
    returns (t: R.State)
    requires w.Valid() && Good(g) && w.Fits(TransBuiltin(result, name, args, succ, g).1) && ListOk(args)
    requires w.Holds(env, rs) && EvalList(w.o, env, m, args) == Some(vs) && w.o.builtin(name, vs, m) == Some((v, m'))
    ensures Goes(w.f, R.Running(TransBuiltin(result, name, args, succ, g).0, rs, m, tr), t)
    ensures At(w, Result(Normal, Set(env, result, v), m', tr + [EvBuiltin(name, vs)]), succ, t)
  {
    var k := |args|;
    var argRegs := RegsFrom(g.nextReg, k);
    var (dest, g1) := g.SkipRegs(k).MapResult(result);
    var i := R.Ibuiltin(name, argRegs, if result.Some? then Some(dest) else None, succ);
    var (node, g2) := g1.Emit(i);
    assert TransBuiltin(result, name, args, succ, g) == TransList(args, argRegs, node, g2);
    FreshList(w, args, g, result, i);
    var rs1 := ListLoads(w, args, argRegs, node, g2, env, rs, m, tr);
    LastInstr(w, R.Running(TransList(args, argRegs, node, g2).0, rs, m, tr), node, i, rs1, m, tr);
    HoldsResult(w, env, rs1, result, dest, v);
    t := R.Running(succ, if result.Some? then rs1[dest := v] else rs1, m', tr + [EvBuiltin(name, vs)]);
  }

  lemma FreshList(w: World, args: seq<Expr>, g: Gen, result: Option<string>, i: R.Instr)
    requires var (k, r) := (|args|, g.nextReg);
      var (node, g2) := g.SkipRegs(k).MapResult(result).1.Emit(i);
      w.Valid() && Good(g) && w.Fits(TransList(args, RegsFrom(r, k), node, g2).1)
    ensures var (k, r) := (|args|, g.nextReg);
      var (dest, g1) := g.SkipRegs(k).MapResult(result);
      var (node, g2) := g1.Emit(i);
      && Good(g2) && AreTemps(w, RegsFrom(r, k), g2) && node in w.code && w.code[node] == i
      && IsResultReg(w, result, dest)
  {
    var k, r := |args|, g.nextReg;
    var (node, g2) := g.SkipRegs(k).MapResult(result).1.Emit(i);
    ResultGrows(g, k, result, i);
    ListGrows(args, RegsFrom(r, k), node, g2);
    ResultFacts(w, g, k, result, i, TransList(args, RegsFrom(r, k), node, g2).1);
    RegsAreTemps(w, r, k, g2);
  }

  lemma ReturnRuns(w: World, ret: Option<Expr>, g: Gen, env: Env, rs: R.RegFile, m: Mem, tr: Trace)
    returns (t: R.State)
    requires w.Valid() && Good(g) && w.Fits(TransStmt(Sreturn(ret), 0, [], g).1) && (ret.Some? ==> ExprOk(ret.value))
    requires w.Holds(env, rs) && (ret.Some? ==> EvalExpr(w.o, env, m, ret.value).Some?)
    ensures Goes(w.f, R.Running(TransStmt(Sreturn(ret), 0, [], g).0, rs, m, tr), t)
    ensures t == R.Returned(if ret.Some? then EvalExpr(w.o, env, m, ret.value) else None, m, tr)
  {
    if ret.None? {
      var i := R.Ireturn(None);
      EmitGrows(g, i);
      GrowsNot(g.Emit(i).1);
      EmittedIn(w, g, i, g.Emit(i).1);
      InstrRuns(w, g.nextNode, i, rs, m, tr);
      t := R.Returned(None, m, tr);
    } else {
      t := ReturnValueRuns(w, ret.value, g, TransStmt(Sreturn(ret), 0, [], g).0, TransStmt(Sreturn(ret), 0, [], g).1, env, rs, m, tr);
    }
  }

  lemma ReturnValueRuns(w: World, e: Expr, g: Gen, n: R.Node, h: Gen, env: Env, rs: R.RegFile, m: Mem, tr: Trace)
    returns (t: R.State)
    requires w.Valid() && Good(g) && TransStmt(Sreturn(Some(e)), 0, [], g) == (n, h) && w.Fits(h) && ExprOk(e)
    requires w.Holds(env, rs) && EvalExpr(w.o, env, m, e).Some?
    ensures Goes(w.f, R.Running(n, rs, m, tr), t) && t == R.Returned(EvalExpr(w.o, env, m, e), m, tr)
  {
    var r, i := g.nextReg, R.Ireturn(Some(g.nextReg));
    var (node, g1) := g.SkipRegs(1).Emit(i);
    assert TransExpr(e, r, node, g1) == (n, h);
    FreshOperand(w, e, r, node, g, 1, i);
    var rs1 := ExprRuns(w, e, r, node, g1, env, rs, m, tr);
    LastInstr(w, R.Running(n, rs, m, tr), node, i, rs1, m, tr);
    t := R.Returned(EvalExpr(w.o, env, m, e), m, tr);
  }

  lemma ExitRuns(w: World, n: int, targets: seq<R.Node>, g: Gen, env: Env, rs: R.RegFile, m: Mem, tr: Trace)
    returns (t: R.State)
    requires w.Valid() && Good(g) && w.Fits(TransStmt(Sexit(n), 0, targets, g).1) && 0 <= n < |targets| && w.Holds(env, rs)
    ensures Goes(w.f, R.Running(TransStmt(Sexit(n), 0, targets, g).0, rs, m, tr), t)
    ensures At(w, Result(Exit(n), env, m, tr), targets[|targets| - 1 - n], t)
  {
    var i := R.Inop(targets[|targets| - 1 - n]);
    EmitGrows(g, i);
    GrowsNot(g.Emit(i).1);
    EmittedIn(w, g, i, g.Emit(i).1);
    InstrRuns(w, g.nextNode, i, rs, m, tr);
    t := R.Running(targets[|targets| - 1 - n], rs, m, tr);
  }

  // --- Switch ---

  /** The code of a body, generated at k, is reached with nothing changed. */
  ghost predicate LeadsTo(w: World, first: R.Node, body: Stmt, succ: R.Node, targets: seq<R.Node>, k: Gen,
                          rs: R.RegFile, m: Mem, tr: Trace) {
    var (n, h) := TransStmt(body, succ, targets, k);
    Good(k) && w.Fits(h) && Goes(w.f, R.Running(first, rs, m, tr), R.Running(n, rs, m, tr))
  }

  /** The comparisons lead to the selected case, or to what follows them. */
  lemma {:induction false} CasesRun(w: World, isLong: bool, exprReg: R.Reg, cases: seq<Case>, succ: R.Node, targets: seq<R.Node>,
                                    orElse: R.Node, g: Gen, first: R.Node, h: Gen, rs: R.RegFile, m: Mem, tr: Trace, x: int, i: nat)
    returns (k: Gen)
    requires w.Valid() && Good(g) && TransCases(isLong, exprReg, cases, succ, targets, orElse, g) == (first, h) && w.Fits(h)
    requires forall c | c in cases :: isLong || Wrap32(c.value) == c.value
    requires cases != [] ==> w.o.asInt(if isLong then Klong else Kint, Get(rs, exprReg)) == Some(x)
    requires i == FirstCase(cases, x)
    ensures
      if i < |cases| then LeadsTo(w, first, cases[i].body, succ, targets, k, rs, m, tr)
      else Goes(w.f, R.Running(first, rs, m, tr), R.Running(orElse, rs, m, tr))
    decreases |cases|
  {
    k := g;
    if cases == [] {
      GoesNowhere(w.f, R.Running(orElse, rs, m, tr));
    } else {
      var last := |cases| - 1;
      var c, before := cases[last], cases[..last];
      assert c in cases;
      var (caseEntry, g1) := TransStmt(c.body, succ, targets, g);
      var branch := R.Icond(CaseCondition(isLong, c.value), [exprReg], caseEntry, orElse);
      var (node, g2) := g1.Emit(branch);
      assert TransCases(isLong, exprReg, before, succ, targets, node, g2) == (first, h);
      CaseFacts(w, isLong, exprReg, before, c, succ, targets, g, branch, h);
      var j := FirstCase(before, x);
      assert forall b | b in before :: b in cases;
      k := CasesRun(w, isLong, exprReg, before, succ, targets, node, g2, first, h, rs, m, tr, x, j);
      if j == last {
        LastCase(w, first, node, branch, isLong, exprReg, c, rs, m, tr, i == last);
        k := g;
      } else {
        assert before[j] == cases[i];
      }
    }
  }

  lemma LastCase(w: World, first: R.Node, node: R.Node, branch: R.Instr, isLong: bool, exprReg: R.Reg, c: Case,
                                    rs: R.RegFile, m: Mem, tr: Trace, t: bool)
    requires w.Valid() && node in w.code && w.code[node] == branch
    requires branch.Icond? && branch.cond == CaseCondition(isLong, c.value) && branch.args == [exprReg]
    requires EvalCondCode(w.o, CaseCondition(isLong, c.value), [Get(rs, exprReg)]) == Some(t)
    requires Goes(w.f, R.Running(first, rs, m, tr), R.Running(node, rs, m, tr))
    ensures Goes(w.f, R.Running(first, rs, m, tr), R.Running(if t then branch.ifso else branch.ifnot, rs, m, tr))
  {
    assert GetAll(rs, [exprReg]) == [Get(rs, exprReg)];
    LastInstr(w, R.Running(first, rs, m, tr), node, branch, rs, m, tr);
  }

  lemma CaseFacts(w: World, isLong: bool, exprReg: R.Reg, before: seq<Case>, c: Case, succ: R.Node, targets: seq<R.Node>,
                                     g: Gen, i: R.Instr, h: Gen)
    requires Good(g) && w.Fits(h)
    requires var g1 := TransStmt(c.body, succ, targets, g).1;
      h == TransCases(isLong, exprReg, before, succ, targets, g1.nextNode, g1.Emit(i).1).1
    ensures var g1 := TransStmt(c.body, succ, targets, g).1;
      w.Fits(g1) && Good(g1.Emit(i).1) && g1.nextNode in w.code && w.code[g1.nextNode] == i
  {
    var g1 := TransStmt(c.body, succ, targets, g).1;
    StmtGrows(c.body, succ, targets, g);
    EmitGrows(g1, i);
    CasesGrow(isLong, exprReg, before, succ, targets, g1.nextNode, g1.Emit(i).1);
    GrowsTrans(g1, g1.Emit(i).1, h);
    FitsEarlier(w, g1, h);
    EmittedIn(w, g1, i, h);
  }

  lemma SwitchRuns(w: World, s: Stmt, succ: R.Node, targets: seq<R.Node>, g: Gen,
                                      env: Env, rs: R.RegFile, m: Mem, tr: Trace, i: nat)
    returns (k: Gen, rs': R.RegFile)
    requires s.Sswitch? && w.Valid() && Good(g) && w.Fits(TransStmt(s, succ, targets, g).1) && ExprOk(s.expr)
    requires forall c | c in s.cases :: s.isLong || Wrap32(c.value) == c.value
    requires w.Holds(env, rs) && EvalExpr(w.o, env, m, s.expr).Some?
    requires Select(w.o, s.isLong, EvalExpr(w.o, env, m, s.expr).value, s.cases) == Some(i)
    ensures w.Holds(env, rs') && Good(k)
    ensures var body := if i < |s.cases| then s.cases[i].body else s.default;
      && w.Fits(TransStmt(body, succ, targets, k).1)
      && Goes(w.f, R.Running(TransStmt(s, succ, targets, g).0, rs, m, tr), R.Running(TransStmt(body, succ, targets, k).0, rs', m, tr))
  {
    var exprReg, g0 := g.nextReg, g.SkipRegs(1);
    var (defaultEntry, g1) := TransStmt(s.default, succ, targets, g0);
    var (first, g2) := TransCases(s.isLong, exprReg, s.cases, succ, targets, defaultEntry, g1);
    var (n, h) := TransExpr(s.expr, exprReg, first, g2);
    assert TransStmt(s, succ, targets, g) == (n, h);
    SwitchFacts(w, s, succ, targets, g, g1, g2, h);
    rs' := ExprRuns(w, s.expr, exprReg, first, g2, env, rs, m, tr);
    HoldsStill(w, env, rs, rs', g2.nextReg, h.nextReg, {exprReg});
    var number := w.o.asInt(if s.isLong then Klong else Kint, Get(rs', exprReg));
    var x := if number.Some? then number.value else 0;
    k := CasesRun(w, s.isLong, exprReg, s.cases, succ, targets, defaultEntry, g1, first, g2, rs', m, tr, x, i);
    var start, middle := R.Running(n, rs, m, tr), R.Running(first, rs', m, tr);
    if i < |s.cases| {
      GoesOn(w.f, start, middle, R.Running(TransStmt(s.cases[i].body, succ, targets, k).0, rs', m, tr));
    } else {
      GoesOn(w.f, start, middle, R.Running(defaultEntry, rs', m, tr));
      k := g0;
    }
  }

  lemma SwitchFacts(w: World, s: Stmt, succ: R.Node, targets: seq<R.Node>, g: Gen, g1: Gen, g2: Gen, h: Gen)
    requires s.Sswitch? && Good(g) && w.Fits(h) && g1 == TransStmt(s.default, succ, targets, g.SkipRegs(1)).1
    requires g2 == TransCases(s.isLong, g.nextReg, s.cases, succ, targets, TransStmt(s.default, succ, targets, g.SkipRegs(1)).0, g1).1
    requires exists first :: h == TransExpr(s.expr, g.nextReg, first, g2).1
    ensures Good(g.SkipRegs(1)) && Good(g1) && Good(g2) && w.Fits(g1) && w.Fits(g2) && w.IsTemp(g.nextReg) && g.nextReg < g2.nextReg
  {
    var g0 := g.SkipRegs(1);
    var first :| h == TransExpr(s.expr, g.nextReg, first, g2).1;
    SkipGrows(g, 1);
    StmtGrows(s.default, succ, targets, g0);
    CasesGrow(s.isLong, g.nextReg, s.cases, succ, targets, TransStmt(s.default, succ, targets, g0).0, g1);
    ExprGrows(s.expr, g.nextReg, first, g2);
    FitsEarlier(w, g2, h);
    FitsEarlier(w, g1, g2);
    GrowsTrans(g0, g1, g2);
    GrowsTrans(g0, g2, h);
    FreshAreTemps(w, g, 1, h);
  }

  // --- All statements ---

  /** Generating the graph preserves meaning: from the entry of a statement's code, the machine reaches the
      successor, the exit, or the end of the function, as the statement does. */
  lemma {:induction false} StmtRuns(w: World, s: Stmt, succ: R.Node, targets: seq<R.Node>, g: Gen, fuel: nat,
                                    env: Env, rs: R.RegFile, m: Mem, tr: Trace, r: Result)
    returns (t: R.State)
    requires w.Valid() && Good(g) && w.Fits(TransStmt(s, succ, targets, g).1) && StmtOk(s, |targets|)
    requires w.Holds(env, rs) && Exec(w.o, fuel, s, env, m, tr) == Some(r)
    ensures Reaches(w, TransStmt(s, succ, targets, g).0, rs, m, tr, r, succ, targets, t)
    decreases fuel, s, 1
  {
    if s.Sseq? {
      t := SeqRuns(w, s, succ, targets, g, fuel, env, rs, m, tr, r);
    } else if s.Sifthenelse? {
      t := IfRuns(w, s, succ, targets, g, fuel, env, rs, m, tr, r);
    } else if s.Sloop? {
      t := LoopRuns(w, s, succ, targets, g, fuel, env, rs, m, tr, r);
    } else if s.Sblock? {
      t := BlockRuns(w, s, succ, targets, g, fuel, env, rs, m, tr, r);
    } else if s.Sswitch? {
      var i := Select(w.o, s.isLong, EvalExpr(w.o, env, m, s.expr).value, s.cases).value;
      var k, rs1 := SwitchRuns(w, s, succ, targets, g, env, rs, m, tr, i);
      t := SelectedRuns(w, s, i, TransStmt(s, succ, targets, g).0, succ, targets, k, fuel, env, rs, rs1, m, tr, r);
    } else {
      t := LeafRuns(w, s, succ, targets, g, fuel, env, rs, m, tr, r);
    }
  }

  /** Statements that hold no others. */
  lemma LeafRuns(w: World, s: Stmt, succ: R.Node, targets: seq<R.Node>, g: Gen, fuel: nat,
                                    env: Env, rs: R.RegFile, m: Mem, tr: Trace, r: Result)
    returns (t: R.State)
    requires !(s.Sseq? || s.Sifthenelse? || s.Sloop? || s.Sblock? || s.Sswitch?)
    requires w.Valid() && Good(g) && w.Fits(TransStmt(s, succ, targets, g).1) && StmtOk(s, |targets|)
    requires w.Holds(env, rs) && Exec(w.o, fuel, s, env, m, tr) == Some(r)
    ensures Reaches(w, TransStmt(s, succ, targets, g).0, rs, m, tr, r, succ, targets, t)
  {
    if s.Sskip? {
      GoesNowhere(w.f, R.Running(succ, rs, m, tr));
      t := R.Running(succ, rs, m, tr);
    } else if s.Sassign? {
      t := AssignRuns(w, s.name, s.rhs, succ, g, env, rs, m, tr);
    } else if s.Sstore? {
      t := StoreLeaf(w, s, succ, targets, g, fuel, env, rs, m, tr, r);
    } else if s.Scall? {
      t := CallLeaf(w, s, succ, targets, g, fuel, env, rs, m, tr, r);
    } else if s.Stailcall? {
      t := TailcallRuns(w, s, g, env, rs, m, tr);
    } else if s.Sbuiltin? {
      t := BuiltinLeaf(w, s, succ, targets, g, fuel, env, rs, m, tr, r);
    } else if s.Sexit? {
      t := ExitRuns(w, s.n, targets, g, env, rs, m, tr);
    } else {
      t := ReturnRuns(w, s.ret, g, env, rs, m, tr);
    }
  }

  lemma StoreLeaf(w: World, s: Stmt, succ: R.Node, targets: seq<R.Node>, g: Gen, fuel: nat,
                                    env: Env, rs: R.RegFile, m: Mem, tr: Trace, r: Result)
    returns (t: R.State)
    requires s.Sstore?
    requires w.Valid() && Good(g) && w.Fits(TransStmt(s, succ, targets, g).1) && StmtOk(s, |targets|)
    requires w.Holds(env, rs) && Exec(w.o, fuel, s, env, m, tr) == Some(r)
    ensures Reaches(w, TransStmt(s, succ, targets, g).0, rs, m, tr, r, succ, targets, t)
  {
    var (n, h) := TransStore(s.chunk, s.addr, s.args, s.value, succ, g);
    t := StoreRuns(w, s.chunk, s.addr, s.args, s.value, EvalList(w.o, env, m, s.args).value, EvalExpr(w.o, env, m, s.value).value,
                   r.m, succ, g, n, h, env, rs, m, tr);
  }

  lemma CallLeaf(w: World, s: Stmt, succ: R.Node, targets: seq<R.Node>, g: Gen, fuel: nat,
                                    env: Env, rs: R.RegFile, m: Mem, tr: Trace, r: Result)
    returns (t: R.State)
    requires s.Scall?
    requires w.Valid() && Good(g) && w.Fits(TransStmt(s, succ, targets, g).1) && StmtOk(s, |targets|)
    requires w.Holds(env, rs) && Exec(w.o, fuel, s, env, m, tr) == Some(r)
    ensures Reaches(w, TransStmt(s, succ, targets, g).0, rs, m, tr, r, succ, targets, t)
  {
    var callee, vs := EvalCallee(w.o, env, m, s.func).value, EvalList(w.o, env, m, s.args).value;
    t := CallRuns(w, s.result, s.sig, s.func, s.args, callee, vs, w.o.call(callee, vs, m).value.0, r.m, succ, g, env, rs, m, tr);
  }

  lemma BuiltinLeaf(w: World, s: Stmt, succ: R.Node, targets: seq<R.Node>, g: Gen, fuel: nat,
                                    env: Env, rs: R.RegFile, m: Mem, tr: Trace, r: Result)
    returns (t: R.State)
    requires s.Sbuiltin?
    requires w.Valid() && Good(g) && w.Fits(TransStmt(s, succ, targets, g).1) && StmtOk(s, |targets|)
    requires w.Holds(env, rs) && Exec(w.o, fuel, s, env, m, tr) == Some(r)
    ensures Reaches(w, TransStmt(s, succ, targets, g).0, rs, m, tr, r, succ, targets, t)
  {
    var vs := EvalList(w.o, env, m, s.args).value;
    t := BuiltinRuns(w, s.result, s.builtin, s.args, vs, w.o.builtin(s.builtin, vs, m).value.0, r.m, succ, g, env, rs, m, tr);
  }

  lemma {:induction false} SelectedRuns(w: World, s: Stmt, i: nat, n: R.Node, succ: R.Node, targets: seq<R.Node>, k: Gen, fuel: nat,
                                        env: Env, rs: R.RegFile, rs1: R.RegFile, m: Mem, tr: Trace, r: Result)
    returns (t: R.State)
    requires s.Sswitch? && w.Valid() && Good(k) && StmtOk(s, |targets|) && w.Holds(env, rs1) && i <= |s.cases|
    requires var body := if i < |s.cases| then s.cases[i].body else s.default;
      && w.Fits(TransStmt(body, succ, targets, k).1) && Exec(w.o, fuel, body, env, m, tr) == Some(r)
      && Goes(w.f, R.Running(n, rs, m, tr), R.Running(TransStmt(body, succ, targets, k).0, rs1, m, tr))
    ensures Reaches(w, n, rs, m, tr, r, succ, targets, t)
    decreases fuel, s, 0
  {
    if i < |s.cases| {
      assert s.cases[i] in s.cases && s.cases[i].body < s.cases[i];
      t := StmtRuns(w, s.cases[i].body, succ, targets, k, fuel, env, rs1, m, tr, r);
      GoesOn(w.f, R.Running(n, rs, m, tr), R.Running(TransStmt(s.cases[i].body, succ, targets, k).0, rs1, m, tr), t);
    } else {
      t := StmtRuns(w, s.default, succ, targets, k, fuel, env, rs1, m, tr, r);
      GoesOn(w.f, R.Running(n, rs, m, tr), R.Running(TransStmt(s.default, succ, targets, k).0, rs1, m, tr), t);
    }
  }

  lemma {:induction false} SeqRuns(w: World, s: Stmt, succ: R.Node, targets: seq<R.Node>, g: Gen, fuel: nat,
                                   env: Env, rs: R.RegFile, m: Mem, tr: Trace, r: Result)
    returns (t: R.State)
    requires s.Sseq? && w.Valid() && Good(g) && w.Fits(TransStmt(s, succ, targets, g).1) && StmtOk(s, |targets|)
    requires w.Holds(env, rs) && Exec(w.o, fuel, s, env, m, tr) == Some(r)
    ensures Reaches(w, TransStmt(s, succ, targets, g).0, rs, m, tr, r, succ, targets, t)
    decreases fuel, s, 0
  {
    var (second, g1) := TransStmt(s.second, succ, targets, g);
    var (n, h) := TransStmt(s.first, second, targets, g1);
    assert TransStmt(s, succ, targets, g) == (n, h);
    StmtGrows(s.second, succ, targets, g);
    StmtGrows(s.first, second, targets, g1);
    FitsEarlier(w, g1, h);
    var r1 := Exec(w.o, fuel, s.first, env, m, tr).value;
    t := StmtRuns(w, s.first, second, targets, g1, fuel, env, rs, m, tr, r1);
    if r1.out.Normal? {
      var t1 := t;
      t := StmtRuns(w, s.second, succ, targets, g, fuel, r1.env, t1.rs, r1.m, r1.tr, r);
      GoesOn(w.f, R.Running(n, rs, m, tr), t1, t);
    }
  }

  lemma {:induction false} IfRuns(w: World, s: Stmt, succ: R.Node, targets: seq<R.Node>, g: Gen, fuel: nat,
                                  env: Env, rs: R.RegFile, m: Mem, tr: Trace, r: Result)
    returns (t: R.State)
    requires s.Sifthenelse? && w.Valid() && Good(g) && w.Fits(TransStmt(s, succ, targets, g).1) && StmtOk(s, |targets|)
    requires w.Holds(env, rs) && Exec(w.o, fuel, s, env, m, tr) == Some(r)
    ensures Reaches(w, TransStmt(s, succ, targets, g).0, rs, m, tr, r, succ, targets, t)
    decreases fuel, s, 0
  {
    var (thenEntry, g1) := TransStmt(s.ifTrue, succ, targets, g);
    var (elseEntry, g2) := TransStmt(s.ifFalse, succ, targets, g1);
    var (n, h) := TransCond(s.cond, thenEntry, elseEntry, g2);
    assert TransStmt(s, succ, targets, g) == (n, h);
    StmtGrows(s.ifTrue, succ, targets, g);
    StmtGrows(s.ifFalse, succ, targets, g1);
    CondGrows(s.cond, thenEntry, elseEntry, g2);
    FitsEarlier(w, g2, h);
    FitsEarlier(w, g1, g2);
    var b := EvalCond(w.o, env, m, s.cond).value;
    var rs1 := CondRuns(w, s.cond, thenEntry, elseEntry, g2, env, rs, m, tr);
    HoldsStill(w, env, rs, rs1, g2.nextReg, h.nextReg, {});
    if b {
      t := StmtRuns(w, s.ifTrue, succ, targets, g, fuel, env, rs1, m, tr, r);
    } else {
      t := StmtRuns(w, s.ifFalse, succ, targets, g1, fuel, env, rs1, m, tr, r);
    }
    GoesOn(w.f, R.Running(n, rs, m, tr), R.Running(if b then thenEntry else elseEntry, rs1, m, tr), t);
  }

  lemma {:induction false} LoopRuns(w: World, s: Stmt, succ: R.Node, targets: seq<R.Node>, g: Gen, fuel: nat,
                                    env: Env, rs: R.RegFile, m: Mem, tr: Trace, r: Result)
    returns (t: R.State)
    requires s.Sloop? && w.Valid() && Good(g) && w.Fits(TransStmt(s, succ, targets, g).1) && StmtOk(s, |targets|)
    requires w.Holds(env, rs) && Exec(w.o, fuel, s, env, m, tr) == Some(r)
    ensures Reaches(w, TransStmt(s, succ, targets, g).0, rs, m, tr, r, succ, targets, t)
    decreases fuel, s, 0
  {
    var header := g.nextNode;
    var (bodyEntry, g1) := TransStmt(s.body, header, targets, g.SkipNode());
    assert TransStmt(s, succ, targets, g) == (header, g1.(code := g1.code[header := R.Inop(bodyEntry)]));
    HeaderFacts(w, g, s.body, targets);
    InstrRuns(w, header, R.Inop(bodyEntry), rs, m, tr);
    var r1 := Exec(w.o, fuel - 1, s.body, env, m, tr).value;
    var t1 := StmtRuns(w, s.body, header, targets, g.SkipNode(), fuel - 1, env, rs, m, tr, r1);
    GoesOn(w.f, R.Running(header, rs, m, tr), R.Running(bodyEntry, rs, m, tr), t1);
    t := t1;
    if r1.out.Normal? {
      t := StmtRuns(w, s, succ, targets, g, fuel - 1, r1.env, t1.rs, r1.m, r1.tr, r);
      GoesOn(w.f, R.Running(header, rs, m, tr), t1, t);
    }
  }

  lemma HeaderFacts(w: World, g: Gen, body: Stmt, targets: seq<R.Node>)
    requires var (bodyEntry, g1) := TransStmt(body, g.nextNode, targets, g.SkipNode());
      Good(g) && w.Fits(g1.(code := g1.code[g.nextNode := R.Inop(bodyEntry)]))
    ensures var (bodyEntry, g1) := TransStmt(body, g.nextNode, targets, g.SkipNode());
      Good(g.SkipNode()) && w.Fits(g1) && g.nextNode in w.code && w.code[g.nextNode] == R.Inop(bodyEntry)
  {
    SkipGrows(g, 0);
    StmtGrows(body, g.nextNode, targets, g.SkipNode());
    var (bodyEntry, g1) := TransStmt(body, g.nextNode, targets, g.SkipNode());
    var h := g1.(code := g1.code[g.nextNode := R.Inop(bodyEntry)]);
    assert g.nextNode in h.code && g.nextNode !in g1.code;
  }

  lemma {:induction false} BlockRuns(w: World, s: Stmt, succ: R.Node, targets: seq<R.Node>, g: Gen, fuel: nat,
                                     env: Env, rs: R.RegFile, m: Mem, tr: Trace, r: Result)
    returns (t: R.State)
    requires s.Sblock? && w.Valid() && Good(g) && w.Fits(TransStmt(s, succ, targets, g).1) && StmtOk(s, |targets|)
    requires w.Holds(env, rs) && Exec(w.o, fuel, s, env, m, tr) == Some(r)
    ensures Reaches(w, TransStmt(s, succ, targets, g).0, rs, m, tr, r, succ, targets, t)
    decreases fuel, s, 0
  {
    var inner := targets + [succ];
    assert TransStmt(s, succ, targets, g) == TransStmt(s.body, succ, inner, g);
    var r1 := Exec(w.o, fuel, s.body, env, m, tr).value;
    t := StmtRuns(w, s.body, succ, inner, g, fuel, env, rs, m, tr, r1);
    if r1.out.Exit? {
      assert inner[|inner| - 1 - r1.out.n] == if r1.out.n == 0 then succ else targets[|targets| - r1.out.n];
    }
  }
}
