/** A generated function computes what its source does. */
module GenFunction {
  import opened Values
  import opened Runs
  import opened CminorSel
  import opened Gen
  import opened GenGrows
  import opened GenExprs
  import opened GenStmts
  import R = RTL

  ghost predicate DistinctNames(xs: seq<string>) {
    forall i, j | 0 <= i < j < |xs| :: xs[i] != xs[j]
  }

  /** Parameter i is in register i + 1. */
  ghost predicate ParamsMapped(params: seq<string>, g: Gen) {
    && g.nextReg == |params| + 1 && Good(g)
    && (forall x | x in g.vars :: x in params)
    && (forall i | 0 <= i < |params| :: params[i] in g.vars && g.vars[params[i]] == i + 1)
  }

  const EMPTY: Gen := Gen(1, map[], 1, map[])

  lemma {:induction false} ParamsAreMapped(params: seq<string>)
    requires DistinctNames(params)
    ensures ParamsMapped(params, MapParams(params, EMPTY))
    decreases |params|
  {
    if params == [] {
    } else {
      var last := |params| - 1;
      ParamsAreMapped(params[..last]);
      OneMoreParam(params[..last], params[last], MapParams(params[..last], EMPTY));
      assert params == params[..last] + [params[last]];
    }
  }

  lemma OneMoreParam(params: seq<string>, x: string, g: Gen)
    requires ParamsMapped(params, g) && x !in params
    ensures ParamsMapped(params + [x], g.(nextReg := g.nextReg + 1, vars := g.vars[x := g.nextReg]))
  {
    assert x !in g.vars;
  }

  lemma {:induction false} VarsMapped(vars: seq<string>, g: Gen)
    requires Good(g)
    ensures Grows(g, MapVars(vars, g))
    decreases |vars|
  {
    if vars == [] {
      GrowsNot(g);
    } else {
      var last := |vars| - 1;
      VarsMapped(vars[..last], g);
      MapVarGrows(MapVars(vars[..last], g), vars[last]);
      GrowsTrans(g, MapVars(vars[..last], g), MapVars(vars, g));
    }
  }

  function ArgOf(args: seq<Val>, r: R.Reg): Val
    requires 1 <= r <= |args|
  {
    args[r - 1]
  }

  /** Argument i in register i + 1. */
  function ArgRegs(args: seq<Val>): R.RegFile {
    map r: R.Reg | 1 <= r <= |args| :: ArgOf(args, r)
  }

  /** The variables of a call: the parameters hold the arguments. */
  ghost predicate IsCallEnv(params: seq<string>, args: seq<Val>, env: Env)
    requires |params| == |args|
  {
    (forall i | 0 <= i < |params| :: params[i] in env && env[params[i]] == args[i]) && forall x | x in env :: x in params
  }

  lemma ParamIsMapped(w: World, params: seq<string>, g: Gen, i: nat)
    requires ParamsMapped(params, g) && w.Fits(g) && i < |params|
    ensures params[i] in w.vars && w.vars[params[i]] == i + 1
  {
  }

  /** The other variables have higher registers. */
  lemma OtherIsMapped(w: World, params: seq<string>, g: Gen, x: string)
    requires ParamsMapped(params, g) && w.Fits(g) && x in w.vars && x !in params
    ensures w.vars[x] > |params|
  {
    assert x !in g.vars;
  }

  lemma HoldsAtStart(w: World, params: seq<string>, args: seq<Val>, g: Gen, env: Env, x: string)
    requires |params| == |args| && ParamsMapped(params, g) && w.Fits(g) && IsCallEnv(params, args, env) && x in w.vars
    ensures Get(ArgRegs(args), w.vars[x]) == Get(env, x)
  {
    if x in params {
      var i :| 0 <= i < |params| && params[i] == x;
      ParamIsMapped(w, params, g, i);
      assert ArgOf(args, i + 1) == args[i];
    } else {
      OtherIsMapped(w, params, g, x);
    }
  }

  /** At the start the registers of all variables hold their values: the arguments, or nothing. */
  lemma StartHolds(w: World, params: seq<string>, args: seq<Val>, g: Gen, h: Gen, env: Env)
    requires |params| == |args| && DistinctNames(params) && ParamsMapped(params, g) && Grows(g, h) && w.Fits(h) && w.Valid()
    requires IsCallEnv(params, args, env)
    ensures w.Holds(env, ArgRegs(args))
  {
    FitsEarlier(w, g, h);
    forall x | x in w.vars
      ensures Get(ArgRegs(args), w.vars[x]) == Get(env, x)
    {
      HoldsAtStart(w, params, args, g, env, x);
    }
  }

  /** How a function ends. */
  function EndState(r: Result): R.State {
    match r.out
    case Return(v) => R.Returned(v, r.m, r.tr)
    case TailCall(callee, args) => R.TailCalled(callee, args, r.m, r.tr)
    case _ => R.Returned(None, r.m, r.tr)
  }

  lemma FunctionGrows(fn: Function)
    requires DistinctNames(fn.params)
    ensures var (exitNode, g) := StartGen(fn).Emit(R.Ireturn(None));
      var h := TransStmt(fn.body, exitNode, [], g).1;
      && Good(StartGen(fn)) && Good(g) && Grows(g, h) && Grows(MapParams(fn.params, EMPTY), h)
      && exitNode in h.code && h.code[exitNode] == R.Ireturn(None)
  {
    var g0, start := MapParams(fn.params, EMPTY), StartGen(fn);
    var (exitNode, g) := start.Emit(R.Ireturn(None));
    ParamsAreMapped(fn.params);
    VarsMapped(fn.vars, g0);
    EmitGrows(start, R.Ireturn(None));
    StmtGrows(fn.body, exitNode, [], g);
    GrowsTrans(g0, start, g);
    GrowsTrans(g0, g, TransStmt(fn.body, exitNode, [], g).1);
    assert exitNode in g.code;
  }

  lemma ArgsInRegs(args: seq<Val>)
    ensures GetAll(ArgRegs(args), RegsFrom(1, |args|)) == args
  {
    forall i | 0 <= i < |args|
      ensures Get(ArgRegs(args), RegsFrom(1, |args|)[i]) == args[i]
    {
      var r: R.Reg := 1 + i;
      assert r in ArgRegs(args) && ArgOf(args, r) == args[i];
    }
  }

  /** If the body of a function, run on its arguments, ends, then so does the generated code from its entry, with
      the same result, memory and trace. */
  lemma FunctionRuns(o: Oracle, fn: Function, args: seq<Val>, env: Env, fuel: nat, m: Mem, tr: Trace, r: Result)
    requires IntConstants(o) && DistinctNames(fn.params) && |args| == |fn.params| && StmtOk(fn.body, 0)
    requires IsCallEnv(fn.params, args, env) && Exec(o, fuel, fn.body, env, m, tr) == Some(r)
    ensures var rtl := TransFunction(fn);
      && GetAll(ArgRegs(args), rtl.params) == args
      && Goes(R.Stepper(o, rtl.code), R.Running(rtl.entry, ArgRegs(args), m, tr), EndState(r))
  {
    var (exitNode, g) := StartGen(fn).Emit(R.Ireturn(None));
    var (entry, h) := TransStmt(fn.body, exitNode, [], g);
    var rtl := TransFunction(fn);
    assert rtl.code == h.code && rtl.entry == entry;
    FunctionGrows(fn);
    ArgsInRegs(args);
    var w := World(R.Stepper(o, h.code), o, h.code, h.vars);
    ParamsAreMapped(fn.params);
    StartHolds(w, fn.params, args, MapParams(fn.params, EMPTY), h, env);
    BodyRuns(w, fn.body, exitNode, g, env, ArgRegs(args), fuel, m, tr, r);
  }

  lemma {:induction false} BodyRuns(w: World, body: Stmt, exitNode: R.Node, g: Gen, env: Env, rs: R.RegFile, fuel: nat,
                                    m: Mem, tr: Trace, r: Result)
    requires w.Valid() && Good(g) && w.Fits(TransStmt(body, exitNode, [], g).1) && StmtOk(body, 0)
    requires w.Holds(env, rs) && Exec(w.o, fuel, body, env, m, tr) == Some(r)
    requires exitNode in w.code && w.code[exitNode] == R.Ireturn(None)
    ensures Goes(w.f, R.Running(TransStmt(body, exitNode, [], g).0, rs, m, tr), EndState(r))
  {
    var t := StmtRuns(w, body, exitNode, [], g, fuel, env, rs, m, tr, r);
    if r.out.Normal? {
      LastInstr(w, R.Running(TransStmt(body, exitNode, [], g).0, rs, m, tr), exitNode, R.Ireturn(None), t.rs, r.m, r.tr);
    }
  }
}
