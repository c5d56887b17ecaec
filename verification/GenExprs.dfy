/** The code generated for an expression computes it, and that for a condition branches on it. */
module GenExprs {
  import opened Values
  import opened Runs
  import opened CminorSel
  import opened Gen
  import opened GenGrows
  import R = RTL

  /** Integer constants are the numbers they show; the translation of constant conditions relies on it. */
  ghost predicate IntConstants(o: Oracle) {
    forall n, m :: 0 <= n <= 1 ==> ConstantIs(o, n, m)
  }

  ghost predicate ConstantIs(o: Oracle, n: int, m: Mem) {
    o.op(Oconst(Ointconst(n)), [], m) == Some(Vnum(n)) && o.asInt(Kint, Vnum(n)) == Some(n)
  }

  /** The finished code and the registers of all variables, and a machine that runs it. */
  datatype World = World(f: R.State -> R.State, o: Oracle, code: R.Code, vars: map<string, R.Reg>) {
    ghost predicate Valid() {
      && IntConstants(o)
      && (forall s {:trigger R.Step(o, code, s)} :: f(s) == R.Step(o, code, s))
      && AllApart(vars)
      && (forall x | x in vars :: vars[x] != 0)
    }

    /** What has been built so far is part of the whole, and the registers given out later are higher. */
    ghost predicate Fits(g: Gen) {
      && (forall n | n in g.code :: n in code && code[n] == g.code[n])
      && (forall x | x in g.vars :: x in vars && vars[x] == g.vars[x])
      && (forall x | x in vars :: x in g.vars || vars[x] >= g.nextReg)
    }

    ghost predicate IsTemp(r: R.Reg) {
      forall x | x in vars :: vars[x] != r
    }

    /** The registers of the variables hold their values. */
    ghost predicate Holds(env: Env, rs: R.RegFile) {
      forall x | x in vars :: Get(rs, vars[x]) == Get(env, x)
    }

    /** Nothing changed but the registers ds and temporaries numbered from lo to hi. */
    ghost predicate Kept(rs: R.RegFile, rs': R.RegFile, lo: nat, hi: nat, ds: set<R.Reg>) {
      forall q: R.Reg | q !in ds && (q < lo || q >= hi || !IsTemp(q)) :: Get(rs', q) == Get(rs, q)
    }
  }

  lemma FitsEarlier(w: World, g: Gen, h: Gen)
    requires w.Fits(h) && Grows(g, h)
    ensures w.Fits(g)
  {
  }

  lemma FreshAreTemps(w: World, g: Gen, n: nat, h: Gen)
    requires Good(g) && Grows(g.SkipRegs(n), h) && w.Fits(h)
    ensures forall r | g.nextReg <= r < g.nextReg + n :: w.IsTemp(r)
  {
  }

  lemma HoldsStill(w: World, env: Env, rs: R.RegFile, rs': R.RegFile, lo: nat, hi: nat, ds: set<R.Reg>)
    requires w.Holds(env, rs) && w.Kept(rs, rs', lo, hi, ds) && forall d | d in ds :: w.IsTemp(d)
    ensures w.Holds(env, rs')
  {
    forall x | x in w.vars
      ensures Get(rs', w.vars[x]) == Get(env, x)
    {
      assert !w.IsTemp(w.vars[x]);
    }
  }

  lemma KeptWider(w: World, rs: R.RegFile, rs': R.RegFile, lo: nat, hi: nat, ds: set<R.Reg>,
                                     lo': nat, hi': nat, ds': set<R.Reg>)
    requires w.Kept(rs, rs', lo, hi, ds) && lo' <= lo && hi <= hi'
    requires forall d | d in ds :: d in ds' || (lo' <= d < hi' && w.IsTemp(d))
    ensures w.Kept(rs, rs', lo', hi', ds')
  {
  }

  lemma KeptTwice(w: World, rs: R.RegFile, rs1: R.RegFile, rs2: R.RegFile, lo: nat, hi: nat, ds: set<R.Reg>)
    requires w.Kept(rs, rs1, lo, hi, ds) && w.Kept(rs1, rs2, lo, hi, ds)
    ensures w.Kept(rs, rs2, lo, hi, ds)
  {
  }

  /** One instruction. */
  lemma InstrRuns(w: World, n: R.Node, i: R.Instr, rs: R.RegFile, m: Mem, tr: Trace)
    requires w.Valid() && n in w.code && w.code[n] == i
    ensures Goes(w.f, R.Running(n, rs, m, tr), R.StepInstr(w.o, i, rs, m, tr))
  {
    var s := R.Running(n, rs, m, tr);
    assert w.f(s) == R.Step(w.o, w.code, s);
    GoesOneStep(w.f, s);
  }

  lemma EmittedIn(w: World, g: Gen, i: R.Instr, h: Gen)
    requires w.Fits(h) && Grows(g.Emit(i).1, h)
    ensures g.nextNode in w.code && w.code[g.nextNode] == i
  {
    assert g.nextNode in g.Emit(i).1.code;
  }

  /** An operation at the end of a chain. */
  lemma OpRuns(w: World, n: R.Node, op: Operation, args: seq<R.Reg>, dest: R.Reg, succ: R.Node,
                                  start: R.State, rs: R.RegFile, m: Mem, tr: Trace, v: Val)
    requires w.Valid() && n in w.code && w.code[n] == R.Iop(op, args, dest, succ)
    requires Goes(w.f, start, R.Running(n, rs, m, tr)) && EvalOp(w.o, op, GetAll(rs, args), m) == Some(v)
    ensures Goes(w.f, start, R.Running(succ, rs[dest := v], m, tr))
  {
    InstrRuns(w, n, R.Iop(op, args, dest, succ), rs, m, tr);
    GoesOn(w.f, start, R.Running(n, rs, m, tr), R.Running(succ, rs[dest := v], m, tr));
  }

  /** What running the code of an expression achieves. */
  ghost predicate Computes(w: World, n: R.Node, succ: R.Node, dest: R.Reg, v: Val, lo: nat, hi: nat,
                           rs: R.RegFile, rs': R.RegFile, m: Mem, tr: Trace) {
    && Goes(w.f, R.Running(n, rs, m, tr), R.Running(succ, rs', m, tr))
    && Get(rs', dest) == v && w.Kept(rs, rs', lo, hi, {dest})
  }

  lemma {:induction false} ExprRuns(w: World, e: Expr, dest: R.Reg, succ: R.Node, g: Gen, env: Env, rs: R.RegFile, m: Mem, tr: Trace)
    returns (rs': R.RegFile)
    requires w.Valid() && Good(g) && w.Fits(TransExpr(e, dest, succ, g).1) && ExprOk(e) && dest < g.nextReg
    requires w.Holds(env, rs) && EvalExpr(w.o, env, m, e).Some?
    ensures var (n, h) := TransExpr(e, dest, succ, g);
      Computes(w, n, succ, dest, EvalExpr(w.o, env, m, e).value, g.nextReg, h.nextReg, rs, rs', m, tr)
    decreases ESize(e), 0
  {
    var (n, h) := TransExpr(e, dest, succ, g);
    match e
    case Evar(x) => rs' := VarRuns(w, x, dest, succ, g, env, rs, m, tr);
    case Econst(c) => rs' := ConstRuns(w, c, dest, succ, g, rs, m, tr);
    case Eunop(op, a) => rs' := UnaryRuns(w, op, a, dest, succ, g, env, rs, m, tr);
    case Eload(_, _, args) => rs' := LoadRuns(w, e, dest, succ, g, env, rs, m, tr);
    case Econdition(c, a, b) => rs' := ConditionRuns(w, c, a, b, dest, succ, g, env, rs, m, tr);
    case Ebinop(op, l, r) =>
      var x, y := EvalExpr(w.o, env, m, l), EvalExpr(w.o, env, m, r);
      rs' := BinaryRuns(w, op, l, r, x, y, dest, succ, g, n, h, env, rs, m, tr);
    case Ecmp(kind, cmp, l, r) =>
      var x, y := EvalExpr(w.o, env, m, l), EvalExpr(w.o, env, m, r);
      rs' := BinaryRuns(w, Ocmp(kind, cmp), l, r, x, y, dest, succ, g, n, h, env, rs, m, tr);
    case Eaddshift(shift, amount, l, r) =>
      var x, y := EvalExpr(w.o, env, m, l), EvalExpr(w.o, env, m, r);
      ShiftIs(w.o, Oadd, shift, amount, x, y, m);
      rs' := ShiftedRuns(w, Oadd, ShiftOperation(shift, amount), l, r, x, y, dest, succ, g, n, h, env, rs, m, tr);
    case Esubshift(shift, amount, l, r) =>
      var x, y := EvalExpr(w.o, env, m, l), EvalExpr(w.o, env, m, r);
      ShiftIs(w.o, Osub, shift, amount, x, y, m);
      rs' := ShiftedRuns(w, Osub, ShiftOperation(shift, amount), l, r, x, y, dest, succ, g, n, h, env, rs, m, tr);
  }

  lemma ConstRuns(w: World, c: Constant, dest: R.Reg, succ: R.Node, g: Gen, rs: R.RegFile, m: Mem, tr: Trace)
    returns (rs': R.RegFile)
    requires w.Valid() && Good(g) && w.Fits(g.Emit(R.Iop(Oconst(c), [], dest, succ)).1) && EvalOp(w.o, Oconst(c), [], m).Some?
    ensures var (n, h) := g.Emit(R.Iop(Oconst(c), [], dest, succ));
      Computes(w, n, succ, dest, EvalOp(w.o, Oconst(c), [], m).value, g.nextReg, h.nextReg, rs, rs', m, tr)
  {
    var i, v := R.Iop(Oconst(c), [], dest, succ), EvalOp(w.o, Oconst(c), [], m).value;
    EmitGrows(g, i);
    GrowsNot(g.Emit(i).1);
    EmittedIn(w, g, i, g.Emit(i).1);
    GoesNowhere(w.f, R.Running(g.nextNode, rs, m, tr));
    assert GetAll(rs, []) == [];
    OpRuns(w, g.nextNode, Oconst(c), [], dest, succ, R.Running(g.nextNode, rs, m, tr), rs, m, tr, v);
    rs' := rs[dest := v];
  }

  lemma VarRuns(w: World, x: string, dest: R.Reg, succ: R.Node, g: Gen, env: Env, rs: R.RegFile, m: Mem, tr: Trace)
    returns (rs': R.RegFile)
    requires w.Valid() && Good(g) && w.Fits(TransExpr(Evar(x), dest, succ, g).1) && w.Holds(env, rs)
    ensures var (n, h) := TransExpr(Evar(x), dest, succ, g);
      Computes(w, n, succ, dest, Get(env, x), g.nextReg, h.nextReg, rs, rs', m, tr)
  {
    var (src, g1) := g.MapVar(x);
    var i, h := R.Iop(Omove, [src], dest, succ), TransExpr(Evar(x), dest, succ, g).1;
    MapVarGrows(g, x);
    EmitGrows(g1, i);
    GrowsNot(h);
    assert x in h.vars && h.vars[x] == src;
    if src == dest {
      rs' := rs;
      GoesNowhere(w.f, R.Running(succ, rs, m, tr));
    } else {
      rs' := rs[dest := Get(env, x)];
      EmittedIn(w, g1, i, h);
      GoesNowhere(w.f, R.Running(g1.nextNode, rs, m, tr));
      assert GetAll(rs, [src]) == [Get(env, x)];
      OpRuns(w, g1.nextNode, Omove, [src], dest, succ, R.Running(g1.nextNode, rs, m, tr), rs, m, tr, Get(env, x));
    }
  }

  /** The operands are computed: the operation is next. */
  lemma OpFinishes(w: World, n: R.Node, opNode: R.Node, op: Operation, args: seq<R.Reg>, dest: R.Reg, succ: R.Node,
                                      lo: nat, mid: nat, hi: nat, ds: set<R.Reg>, v: Val,
                                      rs: R.RegFile, rs1: R.RegFile, m: Mem, tr: Trace)
    requires w.Valid() && opNode in w.code && w.code[opNode] == R.Iop(op, args, dest, succ)
    requires Goes(w.f, R.Running(n, rs, m, tr), R.Running(opNode, rs1, m, tr)) && w.Kept(rs, rs1, mid, hi, ds)
    requires lo <= mid <= hi && forall d | d in ds :: lo <= d < mid && w.IsTemp(d)
    requires EvalOp(w.o, op, GetAll(rs1, args), m) == Some(v)
    ensures Computes(w, n, succ, dest, v, lo, hi, rs, rs1[dest := v], m, tr)
  {
    OpRuns(w, opNode, op, args, dest, succ, R.Running(n, rs, m, tr), rs1, m, tr, v);
    KeptWider(w, rs, rs1, mid, hi, ds, lo, hi, {dest});
  }

  /** After k fresh registers and an instruction, an operand: the facts that its run needs. */
  lemma FreshOperand(w: World, e: Expr, dest: R.Reg, succ: R.Node, g: Gen, k: nat, i: R.Instr)
    requires Good(g) && w.Fits(TransExpr(e, dest, succ, g.SkipRegs(k).Emit(i).1).1)
    ensures var g1 := g.SkipRegs(k).Emit(i).1;
      var h := TransExpr(e, dest, succ, g1).1;
      && Good(g1) && g.nextReg + k == g1.nextReg <= h.nextReg
      && (forall q | g.nextReg <= q < g.nextReg + k :: w.IsTemp(q))
      && g.nextNode in w.code && w.code[g.nextNode] == i
  {
    var g0 := g.SkipRegs(k);
    var g1 := g0.Emit(i).1;
    var h := TransExpr(e, dest, succ, g1).1;
    SkipGrows(g, k);
    EmitGrows(g0, i);
    ExprGrows(e, dest, succ, g1);
    FreshFacts(w, g, k, i, h);
  }

  lemma FreshFacts(w: World, g: Gen, k: nat, i: R.Instr, h: Gen)
    requires Good(g) && w.Fits(h) && Grows(g.SkipRegs(k).Emit(i).1, h)
    ensures var g1 := g.SkipRegs(k).Emit(i).1;
      && Good(g1) && g.nextReg + k == g1.nextReg <= h.nextReg
      && (forall q | g.nextReg <= q < g.nextReg + k :: w.IsTemp(q))
      && g.nextNode in w.code && w.code[g.nextNode] == i
  {
    var g0 := g.SkipRegs(k);
    SkipGrows(g, k);
    EmitGrows(g0, i);
    GrowsTrans(g0, g0.Emit(i).1, h);
    FreshAreTemps(w, g, k, h);
    EmittedIn(w, g0, i, h);
  }

  lemma {:induction false} UnaryRuns(w: World, op: Operation, a: Expr, dest: R.Reg, succ: R.Node, g: Gen,
                                     env: Env, rs: R.RegFile, m: Mem, tr: Trace)
    returns (rs': R.RegFile)
    requires w.Valid() && Good(g) && w.Fits(TransExpr(Eunop(op, a), dest, succ, g).1) && ExprOk(a) && dest < g.nextReg
    requires w.Holds(env, rs) && EvalExpr(w.o, env, m, Eunop(op, a)).Some?
    ensures var (n, h) := TransExpr(Eunop(op, a), dest, succ, g);
      Computes(w, n, succ, dest, EvalExpr(w.o, env, m, Eunop(op, a)).value, g.nextReg, h.nextReg, rs, rs', m, tr)
    decreases ESize(a), 1
  {
    var r, i := g.nextReg, R.Iop(op, [g.nextReg], dest, succ);
    var (opNode, g1) := g.SkipRegs(1).Emit(i);
    FreshOperand(w, a, r, opNode, g, 1, i);
    var rs1 := ExprRuns(w, a, r, opNode, g1, env, rs, m, tr);
    var v := EvalExpr(w.o, env, m, Eunop(op, a)).value;
    assert GetAll(rs1, [r]) == [EvalExpr(w.o, env, m, a).value];
    OpFinishes(w, TransExpr(a, r, opNode, g1).0, opNode, op, [r], dest, succ,
               g.nextReg, g1.nextReg, TransExpr(a, r, opNode, g1).1.nextReg, {r}, v, rs, rs1, m, tr);
    rs' := rs1[dest := v];
  }

  /** What the code of two operands achieves. */
  ghost predicate ComputesPair(w: World, n: R.Node, succ: R.Node, a: R.Reg, x: Val, b: R.Reg, y: Val, lo: nat, hi: nat,
                               rs: R.RegFile, rs': R.RegFile, m: Mem, tr: Trace) {
    && Goes(w.f, R.Running(n, rs, m, tr), R.Running(succ, rs', m, tr))
    && Get(rs', a) == x && Get(rs', b) == y && w.Kept(rs, rs', lo, hi, {a, b})
  }

  /** Two operands, one after the other, into fresh registers. */
  lemma {:induction false} PairRuns(w: World, l: Expr, r: Expr, a: R.Reg, b: R.Reg, succ: R.Node, g: Gen, n: R.Node, h: Gen,
                                    env: Env, rs: R.RegFile, m: Mem, tr: Trace)
    returns (rs': R.RegFile)
    requires w.Valid() && Good(g) && TransPair(l, r, a, b, succ, g) == (n, h) && w.Fits(h)
    requires ExprOk(l) && ExprOk(r) && a < g.nextReg && b < g.nextReg && a != b && w.IsTemp(a) && w.IsTemp(b)
    requires w.Holds(env, rs) && EvalExpr(w.o, env, m, l).Some? && EvalExpr(w.o, env, m, r).Some?
    ensures ComputesPair(w, n, succ, a, EvalExpr(w.o, env, m, l).value, b, EvalExpr(w.o, env, m, r).value, g.nextReg, h.nextReg, rs, rs', m, tr)
    decreases ESize(l) + ESize(r), 0
  {
    var (entry, g1) := TransExpr(r, b, succ, g);
    assert TransExpr(l, a, entry, g1) == (n, h);
    SizesPositive(l, r);
    ExprGrows(r, b, succ, g);
    ExprGrows(l, a, entry, g1);
    FitsEarlier(w, g1, h);
    var rs1 := ExprRuns(w, l, a, entry, g1, env, rs, m, tr);
    HoldsStill(w, env, rs, rs1, g1.nextReg, h.nextReg, {a});
    rs' := ExprRuns(w, r, b, succ, g, env, rs1, m, tr);
    PairFinishes(w, n, entry, succ, a, b, EvalExpr(w.o, env, m, l).value, EvalExpr(w.o, env, m, r).value,
                 g.nextReg, g1.nextReg, h.nextReg, rs, rs1, rs', m, tr);
  }

  lemma PairFinishes(w: World, n: R.Node, entry: R.Node, succ: R.Node, a: R.Reg, b: R.Reg, x: Val, y: Val,
                                        lo: nat, mid: nat, hi: nat, rs: R.RegFile, rs1: R.RegFile, rs': R.RegFile, m: Mem, tr: Trace)
    requires lo <= mid <= hi && a < lo && b < lo && a != b
    requires Computes(w, n, entry, a, x, mid, hi, rs, rs1, m, tr) && Computes(w, entry, succ, b, y, lo, mid, rs1, rs', m, tr)
    ensures ComputesPair(w, n, succ, a, x, b, y, lo, hi, rs, rs', m, tr)
  {
    GoesOn(w.f, R.Running(n, rs, m, tr), R.Running(entry, rs1, m, tr), R.Running(succ, rs', m, tr));
    KeptWider(w, rs, rs1, mid, hi, {a}, lo, hi, {a, b});
    KeptWider(w, rs1, rs', lo, mid, {b}, lo, hi, {a, b});
    KeptTwice(w, rs, rs1, rs', lo, hi, {a, b});
    assert a !in {b} && Get(rs', a) == Get(rs1, a);
  }

  lemma {:induction false} BinaryRuns(w: World, op: Operation, l: Expr, r: Expr, x: Option<Val>, y: Option<Val>, dest: R.Reg,
                                      succ: R.Node, g: Gen, n: R.Node, h: Gen, env: Env, rs: R.RegFile, m: Mem, tr: Trace)
    returns (rs': R.RegFile)
    requires w.Valid() && Good(g) && TransBinary(op, l, r, dest, succ, g) == (n, h) && w.Fits(h) && ExprOk(l) && ExprOk(r) && dest < g.nextReg
    requires w.Holds(env, rs) && x == EvalExpr(w.o, env, m, l) && y == EvalExpr(w.o, env, m, r)
    requires EvalBinary(w.o, op, x, y, m).Some?
    ensures Computes(w, n, succ, dest, EvalBinary(w.o, op, x, y, m).value, g.nextReg, h.nextReg, rs, rs', m, tr)
    decreases ESize(l) + ESize(r), 1
  {
    var a: R.Reg, b: R.Reg := g.nextReg, g.nextReg + 1;
    var i := R.Iop(op, [a, b], dest, succ);
    var (opNode, g1) := g.SkipRegs(2).Emit(i);
    assert (n, h) == TransPair(l, r, a, b, opNode, g1);
    FreshPair(w, l, r, a, b, opNode, g, i);
    var rs1 := PairRuns(w, l, r, a, b, opNode, g1, n, h, env, rs, m, tr);
    rs' := BinaryFinishes(w, n, opNode, op, a, b, dest, succ, h.nextReg, x.value, y.value, rs, rs1, m, tr);
  }

  lemma BinaryFinishes(w: World, n: R.Node, opNode: R.Node, op: Operation, a: R.Reg, b: R.Reg, dest: R.Reg, succ: R.Node,
                                          hi: nat, x: Val, y: Val, rs: R.RegFile, rs1: R.RegFile, m: Mem, tr: Trace)
    returns (rs': R.RegFile)
    requires b == a + 1 < hi && w.Valid() && w.IsTemp(a) && w.IsTemp(b)
    requires opNode in w.code && w.code[opNode] == R.Iop(op, [a, b], dest, succ)
    requires ComputesPair(w, n, opNode, a, x, b, y, b + 1, hi, rs, rs1, m, tr)
    requires EvalBinary(w.o, op, Some(x), Some(y), m).Some?
    ensures Computes(w, n, succ, dest, EvalBinary(w.o, op, Some(x), Some(y), m).value, a, hi, rs, rs', m, tr)
  {
    var v := EvalOp(w.o, op, [x, y], m).value;
    assert GetAll(rs1, [a, b]) == [x, y];
    OpFinishes(w, n, opNode, op, [a, b], dest, succ, a, b + 1, hi, {a, b}, v, rs, rs1, m, tr);
    rs' := rs1[dest := v];
  }

  /** After two fresh registers and an instruction, two operands: the facts that their run needs. */
  lemma FreshPair(w: World, l: Expr, r: Expr, a: R.Reg, b: R.Reg, succ: R.Node, g: Gen, i: R.Instr)
    requires Good(g) && w.Fits(TransPair(l, r, a, b, succ, g.SkipRegs(2).Emit(i).1).1)
    ensures var g1 := g.SkipRegs(2).Emit(i).1;
      && Good(g1) && g1.nextReg == g.nextReg + 2 <= TransPair(l, r, a, b, succ, g1).1.nextReg
      && w.IsTemp(g.nextReg) && w.IsTemp(g.nextReg + 1) && g.nextNode in w.code && w.code[g.nextNode] == i
  {
    var g1 := g.SkipRegs(2).Emit(i).1;
    SkipEmitGrows(g, 2, i);
    PairGrows(l, r, a, b, succ, g1);
    FreshFacts(w, g, 2, i, TransPair(l, r, a, b, succ, g1).1);
  }

  /** An operation after another one on its right operand. */
  function OpShifted(o: Oracle, op: Operation, shiftOp: Operation, a: Option<Val>, b: Option<Val>, m: Mem): Option<Val> {
    EvalBinary(o, op, a, EvalUnary(o, shiftOp, b, m), m)
  }

  lemma ShiftIs(o: Oracle, op: Operation, shift: ShiftOp, amount: int, a: Option<Val>, b: Option<Val>, m: Mem)
    ensures OpShifted(o, op, ShiftOperation(shift, amount), a, b, m) == EvalShifted(o, op, shift, amount, a, b, m)
  {
  }

  lemma {:induction false} ShiftedRuns(w: World, op: Operation, shiftOp: Operation, l: Expr, r: Expr, x: Option<Val>, y: Option<Val>,
                                       dest: R.Reg, succ: R.Node, g: Gen, n: R.Node, h: Gen, env: Env, rs: R.RegFile, m: Mem, tr: Trace)
    returns (rs': R.RegFile)
    requires w.Valid() && Good(g) && TransShifted(op, shiftOp, l, r, dest, succ, g) == (n, h) && w.Fits(h) && ExprOk(l) && ExprOk(r) && dest < g.nextReg
    requires w.Holds(env, rs) && x == EvalExpr(w.o, env, m, l) && y == EvalExpr(w.o, env, m, r)
    requires OpShifted(w.o, op, shiftOp, x, y, m).Some?
    ensures Computes(w, n, succ, dest, OpShifted(w.o, op, shiftOp, x, y, m).value, g.nextReg, h.nextReg, rs, rs', m, tr)
    decreases ESize(l) + ESize(r), 1
  {
    var a: R.Reg, b: R.Reg, c: R.Reg := g.nextReg, g.nextReg + 1, g.nextReg + 2;
    var i := R.Iop(op, [a, c], dest, succ);
    var (opNode, g1) := g.SkipRegs(3).Emit(i);
    var j := R.Iop(shiftOp, [b], c, opNode);
    var (shiftNode, g2) := g1.Emit(j);
    assert (n, h) == TransPair(l, r, a, b, shiftNode, g2);
    FreshShifted(w, l, r, a, b, shiftNode, g, i, j);
    var rs1 := PairRuns(w, l, r, a, b, shiftNode, g2, n, h, env, rs, m, tr);
    rs' := ShiftFinishes(w, n, opNode, shiftNode, op, shiftOp, a, b, c, dest, succ, h.nextReg, x.value, y.value, rs, rs1, m, tr);
  }

  /** After three fresh registers and two instructions, two operands: the facts that their run needs. */
  lemma FreshShifted(w: World, l: Expr, r: Expr, a: R.Reg, b: R.Reg, succ: R.Node, g: Gen, i: R.Instr, j: R.Instr)
    requires Good(g) && w.Fits(TransPair(l, r, a, b, succ, g.SkipRegs(3).Emit(i).1.Emit(j).1).1)
    ensures var g1 := g.SkipRegs(3).Emit(i).1;
      var g2 := g1.Emit(j).1;
      && Good(g2) && g2.nextReg == g.nextReg + 3 <= TransPair(l, r, a, b, succ, g2).1.nextReg
      && w.IsTemp(g.nextReg) && w.IsTemp(g.nextReg + 1) && w.IsTemp(g.nextReg + 2)
      && g.nextNode in w.code && w.code[g.nextNode] == i && g1.nextNode in w.code && w.code[g1.nextNode] == j
  {
    var g1 := g.SkipRegs(3).Emit(i).1;
    var g2 := g1.Emit(j).1;
    SkipEmitGrows(g, 3, i);
    EmitGrows(g1, j);
    PairGrows(l, r, a, b, succ, g2);
    ShiftedFacts(w, g, i, j, TransPair(l, r, a, b, succ, g2).1);
  }

  /** The operands are computed: the shift and the operation are next. */
  lemma ShiftFinishes(w: World, n: R.Node, opNode: R.Node, shiftNode: R.Node, op: Operation, shiftOp: Operation,
                                         a: R.Reg, b: R.Reg, c: R.Reg, dest: R.Reg, succ: R.Node, hi: nat,
                                         x: Val, y: Val, rs: R.RegFile, rs1: R.RegFile, m: Mem, tr: Trace)
    returns (rs': R.RegFile)
    requires b == a + 1 && c == a + 2 < hi && w.Valid() && w.IsTemp(a) && w.IsTemp(b) && w.IsTemp(c)
    requires opNode in w.code && w.code[opNode] == R.Iop(op, [a, c], dest, succ)
    requires shiftNode in w.code && w.code[shiftNode] == R.Iop(shiftOp, [b], c, opNode)
    requires ComputesPair(w, n, shiftNode, a, x, b, y, c + 1, hi, rs, rs1, m, tr)
    requires OpShifted(w.o, op, shiftOp, Some(x), Some(y), m).Some?
    ensures Computes(w, n, succ, dest, OpShifted(w.o, op, shiftOp, Some(x), Some(y), m).value, a, hi, rs, rs', m, tr)
  {
    var z := EvalOp(w.o, shiftOp, [y], m).value;
    var v := EvalOp(w.o, op, [x, z], m).value;
    assert GetAll(rs1, [b]) == [y];
    OpRuns(w, shiftNode, shiftOp, [b], c, opNode, R.Running(n, rs, m, tr), rs1, m, tr, z);
    var rs2 := rs1[c := z];
    assert GetAll(rs2, [a, c]) == [x, z];
    assert w.Kept(rs, rs2, c + 1, hi, {a, b, c});
    OpFinishes(w, n, opNode, op, [a, c], dest, succ, a, c + 1, hi, {a, b, c}, v, rs, rs2, m, tr);
    rs' := rs2[dest := v];
  }

  lemma ShiftedFacts(w: World, g: Gen, i: R.Instr, j: R.Instr, h: Gen)
    requires Good(g) && w.Fits(h) && Grows(g.SkipRegs(3).Emit(i).1.Emit(j).1, h)
    ensures var g1 := g.SkipRegs(3).Emit(i).1;
      && Good(g1.Emit(j).1) && g1.nextReg == g.nextReg + 3
      && (forall q | g.nextReg <= q < g.nextReg + 3 :: w.IsTemp(q))
      && g.nextNode in w.code && w.code[g.nextNode] == i && g1.nextNode in w.code && w.code[g1.nextNode] == j
  {
    var g1 := g.SkipRegs(3).Emit(i).1;
    SkipEmitGrows(g, 3, i);
    EmitGrows(g1, j);
    GrowsTrans(g1, g1.Emit(j).1, h);
    FreshFacts(w, g, 3, i, h);
    EmittedIn(w, g1, j, h);
  }

  // --- Lists ---

  /** Different temporaries that are already given out. */
  ghost predicate AreTemps(w: World, regs: seq<R.Reg>, g: Gen) {
    && (forall i | 0 <= i < |regs| :: regs[i] < g.nextReg && w.IsTemp(regs[i]))
    && (forall i, j | 0 <= i < j < |regs| :: regs[i] != regs[j])
  }

  ghost function RegSet(regs: seq<R.Reg>): set<R.Reg> {
    set r | r in regs
  }

  ghost predicate ComputesAll(w: World, n: R.Node, succ: R.Node, regs: seq<R.Reg>, vs: seq<Val>, lo: nat, hi: nat,
                              rs: R.RegFile, rs': R.RegFile, m: Mem, tr: Trace) {
    && Goes(w.f, R.Running(n, rs, m, tr), R.Running(succ, rs', m, tr))
    && GetAll(rs', regs) == vs && w.Kept(rs, rs', lo, hi, RegSet(regs))
  }

  lemma {:induction false} ListRuns(w: World, es: seq<Expr>, regs: seq<R.Reg>, succ: R.Node, g: Gen,
                                    env: Env, rs: R.RegFile, m: Mem, tr: Trace)
    returns (rs': R.RegFile)
    requires |regs| == |es| && w.Valid() && Good(g) && w.Fits(TransList(es, regs, succ, g).1) && ListOk(es) && AreTemps(w, regs, g)
    requires w.Holds(env, rs) && EvalList(w.o, env, m, es).Some?
    ensures var (n, h) := TransList(es, regs, succ, g);
      ComputesAll(w, n, succ, regs, EvalList(w.o, env, m, es).value, g.nextReg, h.nextReg, rs, rs', m, tr)
    decreases LSize(es), 0
  {
    if es == [] {
      rs' := rs;
      GoesNowhere(w.f, R.Running(succ, rs, m, tr));
    } else {
      var last := |es| - 1;
      var (entry, g1) := TransExpr(es[last], regs[last], succ, g);
      var (n, h) := TransList(es[..last], regs[..last], entry, g1);
      ExprGrows(es[last], regs[last], succ, g);
      ListGrows(es[..last], regs[..last], entry, g1);
      FitsEarlier(w, g1, h);
      PrefixTemps(w, regs, g, g1);
      var rs1 := ListRuns(w, es[..last], regs[..last], entry, g1, env, rs, m, tr);
      PrefixKeeps(w, regs, env, rs, rs1, g1.nextReg, h.nextReg);
      rs' := ExprRuns(w, es[last], regs[last], succ, g, env, rs1, m, tr);
      GoesOn(w.f, R.Running(n, rs, m, tr), R.Running(entry, rs1, m, tr), R.Running(succ, rs', m, tr));
      LastKeeps(w, es, regs, g, g1, h, env, rs, rs1, rs', m);
    }
  }

  lemma PrefixTemps(w: World, regs: seq<R.Reg>, g: Gen, g1: Gen)
    requires regs != [] && AreTemps(w, regs, g) && g.nextReg <= g1.nextReg
    ensures AreTemps(w, regs[..|regs| - 1], g1)
  {
  }

  lemma PrefixKeeps(w: World, regs: seq<R.Reg>, env: Env, rs: R.RegFile, rs1: R.RegFile, lo: nat, hi: nat)
    requires regs != [] && (forall i | 0 <= i < |regs| :: w.IsTemp(regs[i])) && w.Holds(env, rs)
    requires w.Kept(rs, rs1, lo, hi, RegSet(regs[..|regs| - 1]))
    ensures w.Holds(env, rs1)
  {
    forall d | d in RegSet(regs[..|regs| - 1])
      ensures w.IsTemp(d)
    {
      assert d in regs;
    }
    HoldsStill(w, env, rs, rs1, lo, hi, RegSet(regs[..|regs| - 1]));
  }

  lemma LastKeeps(w: World, es: seq<Expr>, regs: seq<R.Reg>, g: Gen, g1: Gen, h: Gen,
                                     env: Env, rs: R.RegFile, rs1: R.RegFile, rs': R.RegFile, m: Mem)
    requires |regs| == |es| > 0 && AreTemps(w, regs, g) && g.nextReg <= g1.nextReg <= h.nextReg
    requires EvalList(w.o, env, m, es).Some?
    requires GetAll(rs1, regs[..|es| - 1]) == EvalList(w.o, env, m, es[..|es| - 1]).value
    requires Get(rs', regs[|es| - 1]) == EvalExpr(w.o, env, m, es[|es| - 1]).value
    requires w.Kept(rs, rs1, g1.nextReg, h.nextReg, RegSet(regs[..|es| - 1]))
    requires w.Kept(rs1, rs', g.nextReg, g1.nextReg, {regs[|es| - 1]})
    ensures GetAll(rs', regs) == EvalList(w.o, env, m, es).value
    ensures w.Kept(rs, rs', g.nextReg, h.nextReg, RegSet(regs))
  {
    var last := |es| - 1;
    var vs, ds := EvalList(w.o, env, m, es).value, RegSet(regs);
    forall i | 0 <= i < |regs|
      ensures Get(rs', regs[i]) == vs[i]
    {
      if i < last {
        assert Get(rs1, regs[i]) == GetAll(rs1, regs[..last])[i];
      }
    }
    assert regs[last] in regs && forall d | d in RegSet(regs[..last]) :: d in ds;
    KeptWider(w, rs, rs1, g1.nextReg, h.nextReg, RegSet(regs[..last]), g.nextReg, h.nextReg, ds);
    KeptWider(w, rs1, rs', g.nextReg, g1.nextReg, {regs[last]}, g.nextReg, h.nextReg, ds);
    KeptTwice(w, rs, rs1, rs', g.nextReg, h.nextReg, ds);
  }

  lemma RegsAreTemps(w: World, r: R.Reg, n: nat, g: Gen)
    requires r + n <= g.nextReg && forall q | r <= q < r + n :: w.IsTemp(q)
    ensures AreTemps(w, RegsFrom(r, n), g) && forall q | q in RegSet(RegsFrom(r, n)) :: r <= q < r + n
  {
  }

  /** k fresh registers, a first translation of the operands, an instruction, and the operands again. */
  lemma TwiceFacts(w: World, args: seq<Expr>, vain: R.Node, g: Gen, i: R.Instr)
    requires var (k, regs) := (|args|, RegsFrom(g.nextReg, |args|));
      var g2 := TransList(args, regs, vain, g.SkipRegs(k)).1.Emit(i);
      Good(g) && w.Fits(TransList(args, regs, g2.0, g2.1).1)
    ensures var (k, regs) := (|args|, RegsFrom(g.nextReg, |args|));
      var (node, g2) := TransList(args, regs, vain, g.SkipRegs(k)).1.Emit(i);
      var h := TransList(args, regs, node, g2).1;
      && Good(g2) && g.nextReg + k <= g2.nextReg <= h.nextReg && AreTemps(w, regs, g2)
      && (forall q | q in RegSet(regs) :: g.nextReg <= q < g.nextReg + k && w.IsTemp(q))
      && node in w.code && w.code[node] == i
  {
    var k, regs, g0 := |args|, RegsFrom(g.nextReg, |args|), g.SkipRegs(|args|);
    var g1 := TransList(args, regs, vain, g0).1;
    var (node, g2) := g1.Emit(i);
    var h := TransList(args, regs, node, g2).1;
    SkipGrows(g, k);
    ListGrows(args, regs, vain, g0);
    EmitGrows(g1, i);
    ListGrows(args, regs, node, g2);
    TwiceFits(w, g, k, g1, i, h);
  }

  lemma TwiceFits(w: World, g: Gen, k: nat, g1: Gen, i: R.Instr, h: Gen)
    requires Good(g) && Grows(g.SkipRegs(k), g1) && Grows(g1.Emit(i).1, h) && w.Fits(h)
    ensures g.nextReg + k <= g1.nextReg && AreTemps(w, RegsFrom(g.nextReg, k), g1.Emit(i).1)
    ensures forall q | q in RegSet(RegsFrom(g.nextReg, k)) :: g.nextReg <= q < g.nextReg + k && w.IsTemp(q)
    ensures g1.nextNode in w.code && w.code[g1.nextNode] == i
  {
    var g0 := g.SkipRegs(k);
    EmitGrows(g1, i);
    GrowsTrans(g0, g1, g1.Emit(i).1);
    GrowsTrans(g0, g1.Emit(i).1, h);
    FreshAreTemps(w, g, k, h);
    EmittedIn(w, g1, i, h);
    RegsAreTemps(w, g.nextReg, k, g1.Emit(i).1);
  }

  lemma {:induction false} LoadRuns(w: World, e: Expr, dest: R.Reg, succ: R.Node, g: Gen,
                                    env: Env, rs: R.RegFile, m: Mem, tr: Trace)
    returns (rs': R.RegFile)
    requires e.Eload? && w.Valid() && Good(g) && w.Fits(TransExpr(e, dest, succ, g).1) && ListOk(e.args) && dest < g.nextReg
    requires w.Holds(env, rs) && EvalExpr(w.o, env, m, e).Some?
    ensures var (n, h) := TransExpr(e, dest, succ, g);
      Computes(w, n, succ, dest, EvalExpr(w.o, env, m, e).value, g.nextReg, h.nextReg, rs, rs', m, tr)
    decreases LSize(e.args), 1
  {
    var k := |e.args|;
    var regs := RegsFrom(g.nextReg, k);
    var i := R.Iload(e.chunk, e.addr, regs, dest, succ);
    var (node, g2) := TransList(e.args, regs, succ, g.SkipRegs(k)).1.Emit(i);
    var (n, h) := TransList(e.args, regs, node, g2);
    TwiceFacts(w, e.args, succ, g, i);
    var rs1 := ListRuns(w, e.args, regs, node, g2, env, rs, m, tr);
    var v := EvalExpr(w.o, env, m, e).value;
    LoadFinishes(w, n, node, i, g.nextReg, g2.nextReg, h.nextReg, v, rs, rs1, m, tr);
    rs' := rs1[dest := v];
  }

  lemma LoadFinishes(w: World, n: R.Node, node: R.Node, i: R.Instr, lo: nat, mid: nat, hi: nat, v: Val,
                                        rs: R.RegFile, rs1: R.RegFile, m: Mem, tr: Trace)
    requires w.Valid() && i.Iload? && node in w.code && w.code[node] == i
    requires Goes(w.f, R.Running(n, rs, m, tr), R.Running(node, rs1, m, tr)) && w.Kept(rs, rs1, mid, hi, RegSet(i.args))
    requires lo <= mid <= hi && forall d | d in RegSet(i.args) :: lo <= d < mid && w.IsTemp(d)
    requires w.o.load(i.chunk, i.addr, GetAll(rs1, i.args), m) == Some(v)
    ensures Computes(w, n, i.succ, i.dest, v, lo, hi, rs, rs1[i.dest := v], m, tr)
  {
    InstrRuns(w, node, i, rs1, m, tr);
    GoesOn(w.f, R.Running(n, rs, m, tr), R.Running(node, rs1, m, tr), R.Running(i.succ, rs1[i.dest := v], m, tr));
    KeptWider(w, rs, rs1, mid, hi, RegSet(i.args), lo, hi, {i.dest});
  }

  // --- Conditions ---

  lemma {:induction false} ConditionRuns(w: World, c: Cond, a: Expr, b: Expr, dest: R.Reg, succ: R.Node, g: Gen,
                                         env: Env, rs: R.RegFile, m: Mem, tr: Trace)
    returns (rs': R.RegFile)
    requires w.Valid() && Good(g) && w.Fits(TransChoice(c, a, b, dest, succ, g).1)
    requires CondOk(c) && ExprOk(a) && ExprOk(b) && dest < g.nextReg
    requires w.Holds(env, rs) && EvalExpr(w.o, env, m, Econdition(c, a, b)).Some?
    ensures var (n, h) := TransChoice(c, a, b, dest, succ, g);
      Computes(w, n, succ, dest, EvalExpr(w.o, env, m, Econdition(c, a, b)).value, g.nextReg, h.nextReg, rs, rs', m, tr)
    decreases CSize(c) + ESize(a) + ESize(b)
  {
    var (elseEntry, g1) := TransExpr(b, dest, succ, g);
    var (thenEntry, g2) := TransExpr(a, dest, succ, g1);
    var (n, h) := TransCond(c, thenEntry, elseEntry, g2);
    assert TransChoice(c, a, b, dest, succ, g) == (n, h);
    SizesPositive(a, b);
    ChoiceFacts(w, c, a, b, dest, succ, g);
    var rs1 := CondRuns(w, c, thenEntry, elseEntry, g2, env, rs, m, tr);
    HoldsStill(w, env, rs, rs1, g2.nextReg, h.nextReg, {});
    if EvalCond(w.o, env, m, c).value {
      rs' := ExprRuns(w, a, dest, succ, g1, env, rs1, m, tr);
      ChoiceFinishes(w, n, thenEntry, succ, dest, EvalExpr(w.o, env, m, a).value,
                     g.nextReg, g1.nextReg, g2.nextReg, g2.nextReg, h.nextReg, rs, rs1, rs', m, tr);
    } else {
      rs' := ExprRuns(w, b, dest, succ, g, env, rs1, m, tr);
      ChoiceFinishes(w, n, elseEntry, succ, dest, EvalExpr(w.o, env, m, b).value,
                     g.nextReg, g.nextReg, g1.nextReg, g2.nextReg, h.nextReg, rs, rs1, rs', m, tr);
    }
  }

  lemma ChoiceFacts(w: World, c: Cond, a: Expr, b: Expr, dest: R.Reg, succ: R.Node, g: Gen)
    requires Good(g) && w.Fits(TransChoice(c, a, b, dest, succ, g).1)
    ensures var (elseEntry, g1) := TransExpr(b, dest, succ, g);
      var (thenEntry, g2) := TransExpr(a, dest, succ, g1);
      Good(g1) && Good(g2) && w.Fits(g1) && w.Fits(g2) &&
      g.nextReg <= g1.nextReg <= g2.nextReg <= TransCond(c, thenEntry, elseEntry, g2).1.nextReg
  {
    var (elseEntry, g1) := TransExpr(b, dest, succ, g);
    var (thenEntry, g2) := TransExpr(a, dest, succ, g1);
    var (n, h) := TransCond(c, thenEntry, elseEntry, g2);
    assert TransChoice(c, a, b, dest, succ, g) == (n, h);
    ExprGrows(b, dest, succ, g);
    ExprGrows(a, dest, succ, g1);
    CondGrows(c, thenEntry, elseEntry, g2);
    FitsEarlier(w, g2, h);
    FitsEarlier(w, g1, g2);
  }

  lemma ChoiceFinishes(w: World, n: R.Node, entry: R.Node, succ: R.Node, dest: R.Reg, v: Val,
                                          lo: nat, from: nat, to: nat, mid: nat, hi: nat,
                                          rs: R.RegFile, rs1: R.RegFile, rs': R.RegFile, m: Mem, tr: Trace)
    requires lo <= from <= to <= mid <= hi
    requires Branches(w, n, entry, mid, hi, rs, rs1, m, tr) && Computes(w, entry, succ, dest, v, from, to, rs1, rs', m, tr)
    ensures Computes(w, n, succ, dest, v, lo, hi, rs, rs', m, tr)
  {
    GoesOn(w.f, R.Running(n, rs, m, tr), R.Running(entry, rs1, m, tr), R.Running(succ, rs', m, tr));
    KeptWider(w, rs, rs1, mid, hi, {}, lo, hi, {dest});
    KeptWider(w, rs1, rs', from, to, {dest}, lo, hi, {dest});
    KeptTwice(w, rs, rs1, rs', lo, hi, {dest});
  }

  ghost predicate Branches(w: World, n: R.Node, target: R.Node, lo: nat, hi: nat, rs: R.RegFile, rs': R.RegFile, m: Mem, tr: Trace) {
    Goes(w.f, R.Running(n, rs, m, tr), R.Running(target, rs', m, tr)) && w.Kept(rs, rs', lo, hi, {})
  }

  lemma {:induction false} CondRuns(w: World, c: Cond, ifso: R.Node, ifnot: R.Node, g: Gen, env: Env, rs: R.RegFile, m: Mem, tr: Trace)
    returns (rs': R.RegFile)
    requires w.Valid() && Good(g) && w.Fits(TransCond(c, ifso, ifnot, g).1) && CondOk(c)
    requires w.Holds(env, rs) && EvalCond(w.o, env, m, c).Some?
    ensures var (n, h) := TransCond(c, ifso, ifnot, g);
      Branches(w, n, if EvalCond(w.o, env, m, c).value then ifso else ifnot, g.nextReg, h.nextReg, rs, rs', m, tr)
    decreases CSize(c), 2
  {
    CodeIsMeaning(w.o, env, m, c);
    rs' := CodeRuns(w, c, EvalCond(w.o, env, m, c).value, ifso, ifnot, g, env, rs, m, tr);
  }

  /** How the code for a condition branches: like the condition, but that a negated conjunction or disjunction is
      taken to hold without a test. */
  function CodeCond(o: Oracle, env: Env, m: Mem, c: Cond): Option<bool> {
    if IsSimple(c) then EvalCond(o, env, m, c)
    else
      match c
      case CondAnd(a, b) =>
        (match CodeCond(o, env, m, a)
         case Some(t) => if t then CodeCond(o, env, m, b) else Some(false)
         case None => None)
      case CondOr(a, b) =>
        (match CodeCond(o, env, m, a)
         case Some(t) => if t then Some(true) else CodeCond(o, env, m, b)
         case None => None)
      case _ => Some(true)
  }

  /** The operands of the comparisons hold no condition that the translation cannot cope with. */
  predicate OperandsOk(c: Cond) {
    match c
    case CondCmp(_, _, l, r) => ExprOk(l) && ExprOk(r)
    case CondNot(a) => OperandsOk(a)
    case CondAnd(a, b) => OperandsOk(a) && OperandsOk(b)
    case CondOr(a, b) => OperandsOk(a) && OperandsOk(b)
    case _ => true
  }

  lemma {:induction false} CodeIsMeaning(o: Oracle, env: Env, m: Mem, c: Cond)
    requires CondOk(c)
    ensures OperandsOk(c) && CodeCond(o, env, m, c) == EvalCond(o, env, m, c)
  {
    match c
    case CondNot(a) => CodeIsMeaning(o, env, m, a);
    case CondAnd(a, b) =>
      CodeIsMeaning(o, env, m, a);
      CodeIsMeaning(o, env, m, b);
    case CondOr(a, b) =>
      CodeIsMeaning(o, env, m, a);
      CodeIsMeaning(o, env, m, b);
    case _ =>
  }

  lemma {:induction false} SimpleIsOk(c: Cond)
    requires IsSimple(c) && OperandsOk(c)
    ensures CondOk(c)
  {
    if c.CondNot? {
      SimpleIsOk(c.c);
    }
  }

  /** The code of any condition branches as CodeCond says. */
  lemma {:induction false} CodeRuns(w: World, c: Cond, b: bool, ifso: R.Node, ifnot: R.Node, g: Gen,
                                    env: Env, rs: R.RegFile, m: Mem, tr: Trace)
    returns (rs': R.RegFile)
    requires w.Valid() && Good(g) && w.Fits(TransCond(c, ifso, ifnot, g).1) && OperandsOk(c)
    requires w.Holds(env, rs) && CodeCond(w.o, env, m, c) == Some(b)
    ensures var (n, h) := TransCond(c, ifso, ifnot, g);
      Branches(w, n, if b then ifso else ifnot, g.nextReg, h.nextReg, rs, rs', m, tr)
    decreases CSize(c), 1
  {
    match TranslateCondition(c)
    case Some((cc, args)) =>
      SimpleIsOk(c);
      rs' := SimpleRuns(w, c, cc, args, ifso, ifnot, g, env, rs, m, tr);
    case None =>
      assert TransCond(c, ifso, ifnot, g) == TransCompound(c, ifso, ifnot, g);
      if c.CondNot? {
        GoesNowhere(w.f, R.Running(ifso, rs, m, tr));
        rs' := rs;
      } else {
        rs' := CompoundRuns(w, c, b, ifso, ifnot, g, env, rs, m, tr);
      }
  }

  lemma {:induction false} CompoundRuns(w: World, c: Cond, b: bool, ifso: R.Node, ifnot: R.Node, g: Gen,
                                        env: Env, rs: R.RegFile, m: Mem, tr: Trace)
    returns (rs': R.RegFile)
    requires w.Valid() && Good(g) && w.Fits(TransCompound(c, ifso, ifnot, g).1) && OperandsOk(c) && (c.CondAnd? || c.CondOr?)
    requires w.Holds(env, rs) && CodeCond(w.o, env, m, c) == Some(b)
    ensures var (n, h) := TransCompound(c, ifso, ifnot, g);
      Branches(w, n, if b then ifso else ifnot, g.nextReg, h.nextReg, rs, rs', m, tr)
    decreases CSize(c), 0
  {
    var (inner, g1) := TransCond(c.r, ifso, ifnot, g);
    var yes, no := if c.CondAnd? then inner else ifso, if c.CondAnd? then ifnot else inner;
    var (n, h) := TransCond(c.l, yes, no, g1);
    assert TransCompound(c, ifso, ifnot, g) == (n, h);
    CondGrows(c.r, ifso, ifnot, g);
    CondGrows(c.l, yes, no, g1);
    FitsEarlier(w, g1, h);
    var t := CodeCond(w.o, env, m, c.l).value;
    var rs1 := CodeRuns(w, c.l, t, yes, no, g1, env, rs, m, tr);
    HoldsStill(w, env, rs, rs1, g1.nextReg, h.nextReg, {});
    KeptWider(w, rs, rs1, g1.nextReg, h.nextReg, {}, g.nextReg, h.nextReg, {});
    rs' := rs1;
    if t == c.CondAnd? {
      rs' := CodeRuns(w, c.r, b, ifso, ifnot, g, env, rs1, m, tr);
      var target := if b then ifso else ifnot;
      GoesOn(w.f, R.Running(n, rs, m, tr), R.Running(inner, rs1, m, tr), R.Running(target, rs', m, tr));
      KeptWider(w, rs1, rs', g.nextReg, g1.nextReg, {}, g.nextReg, h.nextReg, {});
      KeptTwice(w, rs, rs1, rs', g.nextReg, h.nextReg, {});
    }
  }

  lemma {:induction false} SimpleRuns(w: World, c: Cond, cc: ConditionCode, args: seq<Expr>, ifso: R.Node, ifnot: R.Node, g: Gen,
                                      env: Env, rs: R.RegFile, m: Mem, tr: Trace)
    returns (rs': R.RegFile)
    requires TranslateCondition(c) == Some((cc, args)) && CondOk(c)
    requires w.Valid() && Good(g) && w.Fits(TransCond(c, ifso, ifnot, g).1)
    requires w.Holds(env, rs) && EvalCond(w.o, env, m, c).Some?
    ensures var (n, h) := TransCond(c, ifso, ifnot, g);
      Branches(w, n, if EvalCond(w.o, env, m, c).value then ifso else ifnot, g.nextReg, h.nextReg, rs, rs', m, tr)
    decreases LSize(args), 1
  {
    var k := |args|;
    var regs := RegsFrom(g.nextReg, k);
    var i := R.Icond(cc, regs, ifso, ifnot);
    var (node, g2) := TransList(args, regs, g.nextNode, g.SkipNode().SkipRegs(k)).1.Emit(i);
    var (n, h) := TransList(args, regs, node, g2);
    SkipGrows(g, 0);
    TwiceFacts(w, args, g.nextNode, g.SkipNode(), i);
    ConditionMeans(w.o, env, m, c, cc, args);
    rs' := ListRuns(w, args, regs, node, g2, env, rs, m, tr);
    BranchFinishes(w, n, node, i, g.nextReg, g2.nextReg, h.nextReg, EvalCond(w.o, env, m, c).value, rs, rs', m, tr);
  }

  lemma BranchFinishes(w: World, n: R.Node, node: R.Node, i: R.Instr, lo: nat, mid: nat, hi: nat, t: bool,
                                          rs: R.RegFile, rs1: R.RegFile, m: Mem, tr: Trace)
    requires w.Valid() && i.Icond? && node in w.code && w.code[node] == i
    requires Goes(w.f, R.Running(n, rs, m, tr), R.Running(node, rs1, m, tr)) && w.Kept(rs, rs1, mid, hi, RegSet(i.args))
    requires lo <= mid <= hi && forall d | d in RegSet(i.args) :: lo <= d < mid && w.IsTemp(d)
    requires EvalCondCode(w.o, i.cond, GetAll(rs1, i.args)) == Some(t)
    ensures Branches(w, n, if t then i.ifso else i.ifnot, lo, hi, rs, rs1, m, tr)
  {
    InstrRuns(w, node, i, rs1, m, tr);
    GoesOn(w.f, R.Running(n, rs, m, tr), R.Running(node, rs1, m, tr), R.Running(if t then i.ifso else i.ifnot, rs1, m, tr));
    KeptWider(w, rs, rs1, mid, hi, RegSet(i.args), lo, hi, {});
  }

  /** The condition code on the operands is the condition. */
  lemma {:induction false} ConditionMeans(o: Oracle, env: Env, m: Mem, c: Cond, cc: ConditionCode, args: seq<Expr>)
    requires IntConstants(o) && TranslateCondition(c) == Some((cc, args)) && CondOk(c) && EvalCond(o, env, m, c).Some?
    ensures ListOk(args) && EvalList(o, env, m, args).Some?
    ensures EvalCondCode(o, cc, EvalList(o, env, m, args).value) == EvalCond(o, env, m, c)
    ensures cc.Ccompimm? ==> !cc.kind.IsFloat()
  {
    match c
    case CondTrue => ConstantMeans(o, env, m, 1);
    case CondFalse => ConstantMeans(o, env, m, 0);
    case CondCmp(_, _, l, r) => PairMeans(o, env, m, l, r);
    case CondNot(a) =>
      var inner := TranslateCondition(a).value;
      ConditionMeans(o, env, m, a, inner.0, inner.1);
      NegationMeans(o, inner.0, EvalList(o, env, m, args).value);
    case _ =>
  }

  lemma ConstantMeans(o: Oracle, env: Env, m: Mem, n: int)
    requires IntConstants(o) && 0 <= n <= 1
    ensures var args := [Econst(Ointconst(n))]; ListOk(args) && EvalList(o, env, m, args) == Some([Vnum(n)])
    ensures EvalCondCode(o, Ccompimm(Kint, Cne, 0), [Vnum(n)]) == Some(n == 1)
  {
    var args := [Econst(Ointconst(n))];
    assert args[..0] == [] && ListOk(args[..0]) && ExprOk(args[0]);
    assert ConstantIs(o, n, m);
    assert EvalList(o, env, m, []) == Some([]);
    assert [] + [Vnum(n)] == [Vnum(n)];
  }

  lemma PairMeans(o: Oracle, env: Env, m: Mem, l: Expr, r: Expr)
    requires ExprOk(l) && ExprOk(r) && EvalExpr(o, env, m, l).Some? && EvalExpr(o, env, m, r).Some?
    ensures ListOk([l, r])
    ensures EvalList(o, env, m, [l, r]) == Some([EvalExpr(o, env, m, l).value, EvalExpr(o, env, m, r).value])
  {
    var x, y := EvalExpr(o, env, m, l).value, EvalExpr(o, env, m, r).value;
    assert [l, r][..1] == [l] && [l][..0] == [];
    assert EvalList(o, env, m, []) == Some([]);
    assert [] + [x] == [x];
    assert EvalList(o, env, m, [l]) == Some([x]);
    assert [x] + [y] == [x, y];
  }

  lemma NegationMeans(o: Oracle, cc: ConditionCode, vs: seq<Val>)
    requires EvalCondCode(o, cc, vs).Some? && (cc.Ccompimm? ==> !cc.kind.IsFloat())
    ensures EvalCondCode(o, NegateCode(cc), vs) == Not(EvalCondCode(o, cc, vs))
  {
  }

  // --- Negated conjunctions and disjunctions ---

  /** In this world, the code for the condition, run here, gets to the node that the condition selects. */
  ghost predicate BranchesOn(w: World, c: Cond, ifso: R.Node, ifnot: R.Node, g: Gen, env: Env, rs: R.RegFile, m: Mem) {
    w.Valid() && Good(g) && w.Fits(TransCond(c, ifso, ifnot, g).1) && w.Holds(env, rs) && EvalCond(w.o, env, m, c).Some? ==>
      Gets(w.f, R.Running(TransCond(c, ifso, ifnot, g).0, rs, m, []), if EvalCond(w.o, env, m, c).value then ifso else ifnot, m)
  }

  ghost predicate Gets(f: R.State -> R.State, s: R.State, n: R.Node, m: Mem) {
    exists rs :: Goes(f, s, R.Running(n, rs, m, []))
  }

  ghost predicate BranchesRightly(c: Cond) {
    forall w, ifso, ifnot, g, env, rs, m :: BranchesOn(w, c, ifso, ifnot, g, env, rs, m)
  }

  /** Nothing makes the condition true. */
  ghost predicate NeverTrue(c: Cond) {
    forall o, env, m | IntConstants(o) :: EvalCond(o, env, m, c) != Some(true)
  }

  /** A negation is compiled rightly exactly if it is the negation of a comparison or constant, or if it always holds. */
  lemma NegationIsRightIff(c: Cond)
    requires OperandsOk(c)
    ensures BranchesRightly(CondNot(c)) <==> IsSimple(c) || NeverTrue(c)
  {
    if IsSimple(c) {
      SimpleNegationIsRight(c);
    } else if NeverTrue(c) {
      HoldingNegationIsRight(c);
    } else {
      var o, env, m :| IntConstants(o) && EvalCond(o, env, m, c) == Some(true);
      IgnoredNegation(o, env, m, c);
    }
  }

  lemma SimpleNegationIsRight(c: Cond)
    requires OperandsOk(c) && IsSimple(c)
    ensures BranchesRightly(CondNot(c))
  {
    SimpleIsOk(c);
    forall w: World, ifso, ifnot, g, env, rs, m
      ensures BranchesOn(w, CondNot(c), ifso, ifnot, g, env, rs, m)
    {
      if w.Valid() && Good(g) && w.Fits(TransCond(CondNot(c), ifso, ifnot, g).1) && w.Holds(env, rs) && EvalCond(w.o, env, m, CondNot(c)).Some? {
        var rs' := CondRuns(w, CondNot(c), ifso, ifnot, g, env, rs, m, []);
      }
    }
  }

  lemma HoldingNegationIsRight(c: Cond)
    requires OperandsOk(c) && NeverTrue(c)
    ensures IsSimple(c) || BranchesRightly(CondNot(c))
  {
    if !IsSimple(c) {
      forall w: World, ifso, ifnot, g, env, rs, m
        ensures BranchesOn(w, CondNot(c), ifso, ifnot, g, env, rs, m)
      {
        if w.Valid() && Good(g) && w.Fits(TransCond(CondNot(c), ifso, ifnot, g).1) && w.Holds(env, rs) && EvalCond(w.o, env, m, CondNot(c)).Some? {
          assert EvalCond(w.o, env, m, CondNot(c)).value;
          var rs' := CodeRuns(w, CondNot(c), true, ifso, ifnot, g, env, rs, m, []);
        }
      }
    }
  }

  /** Where a conjunction or disjunction holds, its negation takes the wrong branch. */
  lemma {:induction false} IgnoredNegation(o: Oracle, env: Env, m: Mem, c: Cond)
    requires !IsSimple(c) && IntConstants(o) && EvalCond(o, env, m, c) == Some(true)
    ensures !BranchesRightly(CondNot(c))
  {
    var w, g := World(R.Stepper(o, map[]), o, map[], map[]), Gen(1, map[], 1, map[]);
    var start := R.Running(1, map[], m, []);
    assert TranslateCondition(CondNot(c)) == None;
    assert TransCond(CondNot(c), 1, 2, g) == (1, g);
    forall rs', k: nat
      ensures Iterate(w.f, start, k) != R.Running(2, rs', m, [])
    {
      if k > 0 {
        StuckThere(w.f, o, k - 1);
      }
    }
    assert !BranchesOn(w, CondNot(c), 1, 2, g, env, map[], m);
  }

  lemma {:induction false} StuckThere(f: R.State -> R.State, o: Oracle, k: nat)
    requires f == R.Stepper(o, map[])
    ensures Iterate(f, R.Stuck, k) == R.Stuck
    decreases k
  {
    if k == 0 {
    } else {
      assert f(R.Stuck) == R.Stuck;
      StuckThere(f, o, k - 1);
    }
  }

  /** Numbers stand for themselves, and nothing but constants can be computed. */
  function PlainOracle(): Oracle {
    Oracle((op: Operation, vs: seq<Val>, _: Mem) => if op.Oconst? && op.c.Ointconst? && vs == [] then Some(Vnum(op.c.n)) else None,
           (_, _, _, _) => None, (_, _, _, _, _) => None, (_, _, _) => None, (_, _, _) => None,
           (_: CmpKind, v: Val) => if v.Vnum? then Some(v.n) else None,
           (_, _, _, _) => None, (_, _, _) => map[])
  }

  /** For instance !(x == y && x == y), with 1 in both variables: the code goes on as if it held. */
  lemma NegatedConjunctionGoesWrong()
    ensures var same := CondCmp(Kint, Ceq, Evar("x"), Evar("y"));
      var env: Env := map["x" := Vnum(1), "y" := Vnum(1)];
      && EvalCond(PlainOracle(), env, map[], CondNot(CondAnd(same, same))) == Some(false)
      && CodeCond(PlainOracle(), env, map[], CondNot(CondAnd(same, same))) == Some(true)
      && !BranchesRightly(CondNot(CondAnd(same, same)))
  {
    var same := CondCmp(Kint, Ceq, Evar("x"), Evar("y"));
    var env: Env := map["x" := Vnum(1), "y" := Vnum(1)];
    assert EvalCond(PlainOracle(), env, map[], same) == Some(true);
    assert IntConstants(PlainOracle()) by {
      assert forall n, m :: ConstantIs(PlainOracle(), n, m);
    }
    IgnoredNegation(PlainOracle(), env, map[], CondAnd(same, same));
  }
}
