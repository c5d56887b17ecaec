/** The Mach code for each instruction does what the instruction does. */
module StackingProof {
  import opened Values
  import opened Runs
  import opened Frame
  import opened Mach
  import opened Prolog
  import opened Stacking
  import L = LTL
  import Lin = Linear

  // --- What is asked of the code ---

  predicate IsOperand(l: L.Loc) {
    match l
    case R(r) => !IsTemp(r)
    case S(_, ofs, _) => ofs >= 0
    case Nowhere => false
  }

  /** Locations are registers other than X16 and X17, or slots. */
  ghost predicate OperandsOk(code: Lin.Code) {
    forall i, l | i in code && l in Lin.Operands(i) :: IsOperand(l)
  }

  /** Different slots do not overlap. */
  ghost predicate SlotsSeparate(code: Lin.Code) {
    forall a, b | Uses(code, a) && Uses(code, b) && a != b :: Differ(Slot(a), Slot(b))
  }

  /** Tail calls do not go through registers that are restored before. */
  ghost predicate TailCallsSafe(code: Lin.Code, regs: seq<MReg>) {
    forall i | i in code && i.Ltailcall? && i.fn.FunLoc? && i.fn.loc.R? :: i.fn.loc.reg !in regs
  }

  ghost predicate CodeOk(p: Plan) {
    && OperandsOk(p.code) && SlotsSeparate(p.code) && AllFit(p.layout, p.code)
    && SavesEnough(p.code, p.regs) && TailCallsSafe(p.code, p.regs)
  }

  // --- How states correspond ---

  /** A function's code, and what its caller had in the registers. */
  datatype World = World(o: Oracle, p: Plan, entry: map<MReg, Val>) {
    ghost predicate Valid() {
      p.Valid() && CodeOk(p)
    }

    ghost predicate IsSlot(l: L.Loc) {
      Uses(p.code, l)
    }

    function At(l: L.Loc): int {
      OffsetOf(p.layout, Slot(l))
    }

    /** Registers and slots hold what they should. */
    ghost predicate Holds(ls: L.LocSet, t: Machine) {
      && (forall r {:trigger Get(t.regs, r)} | !IsTemp(r) :: Get(t.regs, r) == Get(ls, L.R(r)))
      && (forall l | IsSlot(l) :: Peek(t.stack, At(l), l.ty) == Get(ls, l))
    }

    /** What the caller had in callee-saved registers is there or in the frame. */
    ghost predicate Keeps(t: Machine) {
      && (forall i | 0 <= i < |p.regs| :: Peek(t.stack, SaveOffset(i), L.Tlong) == Get(entry, p.regs[i]))
      && (forall r | L.IsCalleeSaved(r) && r !in p.regs :: Get(t.regs, r) == Get(entry, r))
    }

    ghost predicate Agree(s: L.Machine, t: Machine) {
      Holds(s.ls, t) && Keeps(t) && t.m == s.m && t.tr == s.tr
    }
  }

  lemma SavedAreCalleeSaved(p: Plan, r: MReg)
    requires p.Valid() && r in p.regs
    ensures L.IsCalleeSaved(r) && !IsTemp(r)
  {
  }

  /** The slot lies apart from other slots and from the saved registers. */
  ghost predicate IsClear(w: World, l: L.Loc)
    requires l.S?
  {
    && DisjointRanges(w.At(l), SlotSize(l.ty), -8 * |w.p.regs|, 8 * |w.p.regs|)
    && forall a | w.IsSlot(a) && a != l :: DisjointRanges(w.At(a), SlotSize(a.ty), w.At(l), SlotSize(l.ty))
  }

  /** Slots lie apart from each other and from the saved registers. */
  lemma SlotsApart(w: World, l: L.Loc)
    requires w.Valid() && w.IsSlot(l)
    ensures IsClear(w, l)
    ensures l.slot.SlotOutgoing? <==> w.p.layout.StackPointer() <= w.At(l) < w.p.layout.localOffset
  {
    SlotIsOperand(w, l);
    forall a | w.IsSlot(a) && a != l
      ensures DisjointRanges(w.At(a), SlotSize(a.ty), w.At(l), SlotSize(l.ty))
    {
      SlotIsOperand(w, a);
      PlacesApart(w.p.layout, InfoOf(AllLocs(w.p.code)), w.p.code, |w.p.regs|, Slot(a), Slot(l));
    }
  }

  lemma SlotIsOperand(w: World, l: L.Loc)
    requires w.Valid() && w.IsSlot(l)
    ensures l.S? && l.ofs >= 0 && Fits(w.p.layout, l)
  {
    var i :| i in w.p.code && l in Lin.Operands(i);
    assert IsOperand(l);
  }

  // --- Writing ---

  lemma WriteReg(w: World, ls: L.LocSet, t: Machine, r: MReg, v: Val)
    requires w.Holds(ls, t) && w.Keeps(t) && !IsTemp(r) && (L.IsCalleeSaved(r) ==> r in w.p.regs)
    ensures w.Holds(ls[L.R(r) := v], t.(regs := t.regs[r := v])) && w.Keeps(t.(regs := t.regs[r := v]))
  {
    var ls', t' := ls[L.R(r) := v], t.(regs := t.regs[r := v]);
    forall l | w.IsSlot(l)
      ensures Peek(t'.stack, w.At(l), l.ty) == Get(ls', l)
    {
      assert l.S? && l != L.R(r);
    }
    forall x | !IsTemp(x)
      ensures Get(t'.regs, x) == Get(ls', L.R(x))
    {
      assert Get(t.regs, x) == Get(ls, L.R(x));
    }
    forall x | L.IsCalleeSaved(x) && x !in w.p.regs
      ensures Get(t'.regs, x) == Get(w.entry, x)
    {
      assert Get(t.regs, x) == Get(w.entry, x);
    }
  }

  lemma WriteSlot(w: World, ls: L.LocSet, t: Machine, l: L.Loc, v: Val)
    requires w.Holds(ls, t) && w.Keeps(t) && w.IsSlot(l) && IsClear(w, l)
    ensures var t' := t.(stack := Put(t.stack, w.At(l), l.ty, v)); w.Holds(ls[l := v], t') && w.Keeps(t')
  {
    var ls', t' := ls[l := v], t.(stack := Put(t.stack, w.At(l), l.ty, v));
    PeekPut(t.stack, w.At(l), l.ty, v);
    forall a | w.IsSlot(a)
      ensures Peek(t'.stack, w.At(a), a.ty) == Get(ls', a)
    {
      assert Peek(t.stack, w.At(a), a.ty) == Get(ls, a);
    }
    forall i | 0 <= i < |w.p.regs|
      ensures Peek(t'.stack, SaveOffset(i), L.Tlong) == Get(w.entry, w.p.regs[i])
    {
      assert Peek(t.stack, SaveOffset(i), L.Tlong) == Get(w.entry, w.p.regs[i]);
    }
  }

  /** Only X16 and X17 have changed. */
  ghost predicate SameButTemps(t: Machine, u: Machine) {
    u.stack == t.stack && u.m == t.m && u.tr == t.tr && forall r {:trigger Get(u.regs, r)} | !IsTemp(r) :: Get(u.regs, r) == Get(t.regs, r)
  }

  lemma TempsDoNotMatter(w: World, ls: L.LocSet, t: Machine, u: Machine)
    requires w.Holds(ls, t) && w.Keeps(t) && SameButTemps(t, u)
    ensures w.Holds(ls, u) && w.Keeps(u)
  {
  }

  // --- Reading ---

  /** Slots have different temporaries. */
  ghost predicate Rising(locs: seq<L.Loc>, ks: seq<nat>)
    requires |ks| == |locs|
  {
    forall i, j | 0 <= i < j < |locs| && locs[i].S? && locs[j].S? :: ks[i] < ks[j]
  }

  ghost predicate AreOperands(w: World, locs: seq<L.Loc>) {
    forall l | l in locs :: IsOperand(l) && (l.S? ==> w.IsSlot(l))
  }

  /** The registers hold what the locations do. */
  ghost predicate Loaded(ls: L.LocSet, t: Machine, locs: seq<L.Loc>, ks: seq<nat>, regs: seq<MReg>)
    requires |ks| == |locs| == |regs|
  {
    forall i | 0 <= i < |locs| :: Get(t.regs, regs[i]) == Get(ls, locs[i]) && regs[i] == RegFor(locs[i], ks[i])
  }

  function RegFor(l: L.Loc, k: nat): MReg {
    match l
    case R(r) => r
    case _ => Temp(k)
  }

  lemma LoadOne(w: World, ls: L.LocSet, t: Machine, l: L.Loc, k: nat)
    requires w.Holds(ls, t) && IsOperand(l) && (l.S? ==> w.IsSlot(l)) && InReg(w.p.layout, l, k).Some?
    ensures var (code, r) := InReg(w.p.layout, l, k).value;
      && (forall c | c in code :: c.IsStraight())
      && r == RegFor(l, k)
      && (l.R? ==> code == [] && Get(t.regs, r) == Get(ls, l))
      && ExecAll(w.o, w.p.layout, code, t) == Some(if l.S? then t.(regs := t.regs[Temp(k) := Get(ls, l)]) else t)
      && (l.S? ==> k < NUM_TEMPS)
  {
    var (code, r) := InReg(w.p.layout, l, k).value;
    if l.S? {
      ExecOne(w.o, w.p.layout, code[0], t);
    }
  }

  lemma {:induction false} LoadAll(w: World, ls: L.LocSet, t: Machine, locs: seq<L.Loc>, ks: seq<nat>) returns (u: Machine)
    requires w.Holds(ls, t) && |ks| == |locs| && AreOperands(w, locs) && Rising(locs, ks)
    requires InRegs(w.p.layout, locs, ks).Some?
    ensures var (code, regs) := InRegs(w.p.layout, locs, ks).value;
      && ExecAll(w.o, w.p.layout, code, t) == Some(u) && (forall c | c in code :: c.IsStraight())
      && SameButTemps(t, u) && Loaded(ls, u, locs, ks, regs)
    decreases |locs|
  {
    if locs == [] {
      u := t;
    } else {
      var n := |locs| - 1;
      var (code, regs) := InRegs(w.p.layout, locs[..n], ks[..n]).value;
      var (more, reg) := InReg(w.p.layout, locs[n], ks[n]).value;
      assert locs[n] in locs && forall l | l in locs[..n] :: l in locs;
      var t1 := LoadAll(w, ls, t, locs[..n], ks[..n]);
      HoldsStill(w, ls, t, t1);
      LoadOne(w, ls, t1, locs[n], ks[n]);
      u := if locs[n].S? then t1.(regs := t1.regs[Temp(ks[n]) := Get(ls, locs[n])]) else t1;
      ThenExec(w, code, more, t, t1, u);
      StillSame(t, t1, u, ks[n], Get(ls, locs[n]));
      LoadedMore(w, ls, t1, u, locs, ks, regs, reg);
    }
  }

  lemma StillSame(t: Machine, t1: Machine, u: Machine, k: nat, v: Val)
    requires SameButTemps(t, t1) && (u == t1 || (k < NUM_TEMPS && u == t1.(regs := t1.regs[Temp(k) := v])))
    ensures SameButTemps(t, u)
  {
    forall r | !IsTemp(r)
      ensures Get(u.regs, r) == Get(t.regs, r)
    {
      assert Get(t1.regs, r) == Get(t.regs, r);
    }
  }

  lemma ThenExec(w: World, a: Code, b: Code, t: Machine, t1: Machine, u: Machine)
    requires ExecAll(w.o, w.p.layout, a, t) == Some(t1) && ExecAll(w.o, w.p.layout, b, t1) == Some(u)
    requires (forall c | c in a :: c.IsStraight()) && (forall c | c in b :: c.IsStraight())
    ensures ExecAll(w.o, w.p.layout, a + b, t) == Some(u) && forall c | c in a + b :: c.IsStraight()
  {
    ExecAllAppend(w.o, w.p.layout, a, b, t);
  }

  lemma HoldsStill(w: World, ls: L.LocSet, t: Machine, u: Machine)
    requires w.Holds(ls, t) && SameButTemps(t, u)
    ensures w.Holds(ls, u)
  {
  }

  lemma LoadedMore(w: World, ls: L.LocSet, t: Machine, u: Machine, locs: seq<L.Loc>, ks: seq<nat>, regs: seq<MReg>, reg: MReg)
    requires |ks| == |locs| == |regs| + 1 && AreOperands(w, locs) && Rising(locs, ks)
    requires var n := |regs|;
      && Loaded(ls, t, locs[..n], ks[..n], regs) && reg == RegFor(locs[n], ks[n])
      && u == (if locs[n].S? then t.(regs := t.regs[Temp(ks[n]) := Get(ls, locs[n])]) else t)
      && (locs[n].R? ==> Get(t.regs, reg) == Get(ls, locs[n]))
      && (locs[n].S? ==> ks[n] < NUM_TEMPS)
    ensures Loaded(ls, u, locs, ks, regs + [reg])
  {
    var n := |regs|;
    forall i | 0 <= i < |locs|
      ensures Get(u.regs, (regs + [reg])[i]) == Get(ls, locs[i]) && (regs + [reg])[i] == RegFor(locs[i], ks[i])
    {
      assert locs[i] in locs && locs[n] in locs;
      if i < n {
        assert locs[..n][i] == locs[i] && ks[..n][i] == ks[i];
      }
    }
  }

  lemma LoadedAre(ls: L.LocSet, u: Machine, locs: seq<L.Loc>, ks: seq<nat>, regs: seq<MReg>)
    requires |ks| == |locs| == |regs| && Loaded(ls, u, locs, ks, regs)
    ensures GetAll(u.regs, regs) == GetAll(ls, locs)
  {
  }

  lemma PositionsRise(locs: seq<L.Loc>)
    ensures Rising(locs, Positions(0, |locs|))
  {
  }

  lemma {:induction false} CountGrows(locs: seq<L.Loc>, i: nat, j: nat)
    requires i < j <= |locs| && locs[i].S?
    ensures CountSlots(locs[..i]) < CountSlots(locs[..j])
    decreases j
  {
    assert locs[..j][..j - 1] == locs[..j - 1];
    if i < j - 1 {
      CountGrows(locs, i, j - 1);
    }
  }

  lemma SlotNumbersRise(locs: seq<L.Loc>)
    ensures Rising(locs, SlotNumbers(locs))
  {
    forall i, j | 0 <= i < j < |locs| && locs[i].S? && locs[j].S?
      ensures SlotNumbers(locs)[i] < SlotNumbers(locs)[j]
    {
      CountGrows(locs, i, j);
    }
  }

  // --- Straight instructions ---

  /** The piece runs to its end, and does what r is, or gets stuck. */
  ghost predicate Does(w: World, piece: Code, r: Option<L.Machine>, t: Machine) {
    var e := ExecAll(w.o, w.p.layout, piece, t);
    && (forall c | c in piece :: c.IsStraight())
    && if r.Some? then e.Some? && w.Agree(r.value, e.value) else e.None?
  }

  /** A location that may be written. */
  ghost predicate IsTarget(w: World, l: L.Loc) {
    && IsOperand(l) && (l.S? ==> w.IsSlot(l) && IsClear(w, l))
    && (l.R? && L.IsCalleeSaved(l.reg) ==> l.reg in w.p.regs)
  }

  lemma TargetIs(w: World, i: Lin.Instr, l: L.Loc)
    requires w.Valid() && i in w.p.code && l in Lin.Operands(i) && (l.R? ==> l.reg in WrittenRegs(i))
    ensures IsTarget(w, l)
  {
    assert IsOperand(l);
    if l.S? {
      assert w.IsSlot(l);
      SlotsApart(w, l);
    }
  }

  /** A result, computed into its register, gets to its location. */
  lemma ResultArrives(w: World, ls: L.LocSet, t: Machine, dest: L.Loc, v: Val) returns (u: Machine)
    requires w.Holds(ls, t) && w.Keeps(t) && IsTarget(w, dest)
    ensures ExecAll(w.o, w.p.layout, ResultCode(w.p.layout, dest), t.(regs := t.regs[ResultReg(dest) := v])) == Some(u)
    ensures w.Holds(ls[dest := v], u) && w.Keeps(u) && u.m == t.m && u.tr == t.tr
    ensures forall c | c in ResultCode(w.p.layout, dest) :: c.IsStraight()
  {
    var t1 := t.(regs := t.regs[ResultReg(dest) := v]);
    if dest.R? {
      WriteReg(w, ls, t, dest.reg, v);
      u := t1;
    } else {
      StillSame(t, t, t1, 0, v);
      TempsDoNotMatter(w, ls, t, t1);
      WriteSlot(w, ls, t1, dest, v);
      var store := ResultCode(w.p.layout, dest)[0];
      ExecOne(w.o, w.p.layout, store, t1);
      u := t1.(stack := Put(t1.stack, w.At(dest), dest.ty, v));
    }
  }

  /** Loads, an instruction, and what becomes of its result. */
  lemma ThreeParts(w: World, a: Code, i: Instr, c: Code, t: Machine, u: Machine)
    requires ExecAll(w.o, w.p.layout, a, t) == Some(u)
    ensures ExecAll(w.o, w.p.layout, a + [i] + c, t) ==
            match Exec(w.o, w.p.layout, i, u) case Some(u') => ExecAll(w.o, w.p.layout, c, u') case None => None
  {
    ExecAllLast(w.o, w.p.layout, a, i, t);
    ExecAllAppend(w.o, w.p.layout, a + [i], c, t);
  }

  /** The operands are loaded, and nothing else has happened. */
  lemma OperandsLoaded(w: World, s: L.Machine, t: Machine, locs: seq<L.Loc>, ks: seq<nat>) returns (u: Machine)
    requires w.Agree(s, t) && |ks| == |locs| && AreOperands(w, locs) && Rising(locs, ks) && InRegs(w.p.layout, locs, ks).Some?
    ensures var (code, regs) := InRegs(w.p.layout, locs, ks).value;
      && ExecAll(w.o, w.p.layout, code, t) == Some(u) && (forall c | c in code :: c.IsStraight())
      && GetAll(u.regs, regs) == GetAll(s.ls, locs)
    ensures w.Agree(s, u)
  {
    var (code, regs) := InRegs(w.p.layout, locs, ks).value;
    u := LoadAll(w, s.ls, t, locs, ks);
    LoadedAre(s.ls, u, locs, ks, regs);
    TempsDoNotMatter(w, s.ls, t, u);
  }

  /** A value, and the memory and trace that come with it. */
  type Effect = Option<(Val, Mem, Trace)>

  function OnRegs(e: Effect, r: MReg, u: Machine): Option<Machine> {
    match e
    case Some((v, m, tr)) => Some(Machine(u.regs[r := v], u.stack, m, tr))
    case None => None
  }

  function OnLocs(e: Effect, l: L.Loc, s: L.Machine): Option<L.Machine> {
    match e
    case Some((v, m, tr)) => Some(L.Machine(s.ls[l := v], m, tr))
    case None => None
  }

  lemma ComputationDoes(w: World, code: Code, i: Instr, dest: L.Loc, s: L.Machine, t: Machine, u: Machine, e: Effect)
    requires ExecAll(w.o, w.p.layout, code, t) == Some(u) && (forall c | c in code :: c.IsStraight())
    requires i.IsStraight() && w.Agree(s, u) && IsTarget(w, dest)
    requires Exec(w.o, w.p.layout, i, u) == OnRegs(e, ResultReg(dest), u)
    ensures Does(w, code + [i] + ResultCode(w.p.layout, dest), OnLocs(e, dest, s), t)
  {
    ThreeParts(w, code, i, ResultCode(w.p.layout, dest), t, u);
    match e
    case None => assert forall c | c in ResultCode(w.p.layout, dest) :: c.IsStraight();
    case Some((v, m, tr)) =>
      var u1 := Machine(u.regs, u.stack, m, tr);
      HoldsStill(w, s.ls, u, u1.(m := u.m, tr := u.tr));
      var u' := ResultArrives(w, s.ls, u1, dest, v);
  }

  function OpEffect(o: Oracle, op: Operation, vs: seq<Val>, m: Mem, tr: Trace): Effect {
    match EvalOp(o, op, vs, m)
    case Some(v) => Some((v, m, tr))
    case None => None
  }

  function LoadEffect(o: Oracle, chunk: Chunk, addr: AddrMode, vs: seq<Val>, m: Mem, tr: Trace): Effect {
    match o.load(chunk, addr, vs, m)
    case Some(v) => Some((v, m, tr))
    case None => None
  }

  function BuiltinEffect(o: Oracle, name: string, vs: seq<Val>, m: Mem, tr: Trace): Effect {
    match o.builtin(name, vs, m)
    case Some((v, m')) => Some((v, m', tr + [EvBuiltin(name, vs)]))
    case None => None
  }

  lemma OpsExec(o: Oracle, layout: FrameLayout, op: Operation, regs: seq<MReg>, r: MReg, u: Machine, args: seq<L.Loc>, dest: L.Loc, s: L.Machine)
    requires GetAll(u.regs, regs) == GetAll(s.ls, args) && u.m == s.m && u.tr == s.tr
    ensures var e := OpEffect(o, op, GetAll(s.ls, args), s.m, s.tr);
      && Exec(o, layout, Mop(op, regs, r), u) == OnRegs(e, r, u)
      && Lin.Exec(o, Lin.Lop(op, args, dest), s) == OnLocs(e, dest, s)
  {
  }

  lemma LoadsExec(o: Oracle, layout: FrameLayout, chunk: Chunk, addr: AddrMode, regs: seq<MReg>, r: MReg, u: Machine,
                  args: seq<L.Loc>, dest: L.Loc, s: L.Machine)
    requires GetAll(u.regs, regs) == GetAll(s.ls, args) && u.m == s.m && u.tr == s.tr
    ensures var e := LoadEffect(o, chunk, addr, GetAll(s.ls, args), s.m, s.tr);
      && Exec(o, layout, Mload(chunk, addr, regs, r), u) == OnRegs(e, r, u)
      && Lin.Exec(o, Lin.Lload(chunk, addr, args, dest), s) == OnLocs(e, dest, s)
  {
  }

  lemma BuiltinsExec(o: Oracle, layout: FrameLayout, name: string, regs: seq<MReg>, r: MReg, u: Machine,
                     args: seq<L.Loc>, dest: L.Loc, s: L.Machine)
    requires GetAll(u.regs, regs) == GetAll(s.ls, args) && u.m == s.m && u.tr == s.tr
    ensures var e := BuiltinEffect(o, name, GetAll(s.ls, args), s.m, s.tr);
      && Exec(o, layout, Mbuiltin(name, regs, Some(r)), u) == OnRegs(e, r, u)
      && Lin.Exec(o, Lin.Lbuiltin(name, args, Some(dest)), s) == OnLocs(e, dest, s)
  {
  }

  lemma OpDoes(w: World, op: Operation, args: seq<L.Loc>, dest: L.Loc, s: L.Machine, t: Machine)
    requires w.Agree(s, t) && AreOperands(w, args) && IsTarget(w, dest) && InRegs(w.p.layout, args, SlotNumbers(args)).Some?
    ensures var (code, regs) := InRegs(w.p.layout, args, SlotNumbers(args)).value;
      Does(w, code + [Mop(op, regs, ResultReg(dest))] + ResultCode(w.p.layout, dest), Lin.Exec(w.o, Lin.Lop(op, args, dest), s), t)
  {
    var (code, regs) := InRegs(w.p.layout, args, SlotNumbers(args)).value;
    SlotNumbersRise(args);
    var u := OperandsLoaded(w, s, t, args, SlotNumbers(args));
    OpsExec(w.o, w.p.layout, op, regs, ResultReg(dest), u, args, dest, s);
    ComputationDoes(w, code, Mop(op, regs, ResultReg(dest)), dest, s, t, u, OpEffect(w.o, op, GetAll(s.ls, args), s.m, s.tr));
  }

  lemma LoadDoes(w: World, chunk: Chunk, addr: AddrMode, args: seq<L.Loc>, dest: L.Loc, s: L.Machine, t: Machine)
    requires w.Agree(s, t) && AreOperands(w, args) && IsTarget(w, dest) && InRegs(w.p.layout, args, Positions(0, |args|)).Some?
    ensures var (code, regs) := InRegs(w.p.layout, args, Positions(0, |args|)).value;
      Does(w, code + [Mload(chunk, addr, regs, ResultReg(dest))] + ResultCode(w.p.layout, dest),
           Lin.Exec(w.o, Lin.Lload(chunk, addr, args, dest), s), t)
  {
    var (code, regs) := InRegs(w.p.layout, args, Positions(0, |args|)).value;
    PositionsRise(args);
    var u := OperandsLoaded(w, s, t, args, Positions(0, |args|));
    LoadsExec(w.o, w.p.layout, chunk, addr, regs, ResultReg(dest), u, args, dest, s);
    ComputationDoes(w, code, Mload(chunk, addr, regs, ResultReg(dest)), dest, s, t, u,
                    LoadEffect(w.o, chunk, addr, GetAll(s.ls, args), s.m, s.tr));
  }

  lemma BuiltinDoes(w: World, name: string, args: seq<L.Loc>, dest: L.Loc, s: L.Machine, t: Machine)
    requires w.Agree(s, t) && AreOperands(w, args) && IsTarget(w, dest) && InRegs(w.p.layout, args, Positions(0, |args|)).Some?
    ensures var (code, regs) := InRegs(w.p.layout, args, Positions(0, |args|)).value;
      Does(w, code + [Mbuiltin(name, regs, Some(ResultReg(dest)))] + ResultCode(w.p.layout, dest),
           Lin.Exec(w.o, Lin.Lbuiltin(name, args, Some(dest)), s), t)
  {
    var (code, regs) := InRegs(w.p.layout, args, Positions(0, |args|)).value;
    PositionsRise(args);
    var u := OperandsLoaded(w, s, t, args, Positions(0, |args|));
    BuiltinsExec(w.o, w.p.layout, name, regs, ResultReg(dest), u, args, dest, s);
    ComputationDoes(w, code, Mbuiltin(name, regs, Some(ResultReg(dest))), dest, s, t, u,
                    BuiltinEffect(w.o, name, GetAll(s.ls, args), s.m, s.tr));
  }

  // --- Memory only ---

  type Change = Option<(Mem, Trace)>

  function OnMach(e: Change, u: Machine): Option<Machine> {
    match e
    case Some((m, tr)) => Some(u.(m := m, tr := tr))
    case None => None
  }

  function OnLinear(e: Change, s: L.Machine): Option<L.Machine> {
    match e
    case Some((m, tr)) => Some(L.Machine(s.ls, m, tr))
    case None => None
  }

  /** Loads and an instruction that changes memory only. */
  lemma ChangeDoes(w: World, code: Code, i: Instr, s: L.Machine, t: Machine, u: Machine, e: Change)
    requires ExecAll(w.o, w.p.layout, code, t) == Some(u) && (forall c | c in code :: c.IsStraight())
    requires i.IsStraight() && w.Agree(s, u) && Exec(w.o, w.p.layout, i, u) == OnMach(e, u)
    ensures Does(w, code + [i], OnLinear(e, s), t)
  {
    ExecAllLast(w.o, w.p.layout, code, i, t);
    if e.Some? {
      HoldsStill(w, s.ls, u, u);
    }
  }

  function SilentEffect(o: Oracle, name: string, vs: seq<Val>, m: Mem, tr: Trace): Change {
    match o.builtin(name, vs, m)
    case Some((_, m')) => Some((m', tr + [EvBuiltin(name, vs)]))
    case None => None
  }

  function StoreEffect(o: Oracle, chunk: Chunk, addr: AddrMode, vs: seq<Val>, v: Val, m: Mem, tr: Trace): Change {
    match o.store(chunk, addr, vs, v, m)
    case Some(m') => Some((m', tr))
    case None => None
  }

  lemma SilentExec(o: Oracle, layout: FrameLayout, name: string, regs: seq<MReg>, u: Machine, args: seq<L.Loc>, s: L.Machine)
    requires GetAll(u.regs, regs) == GetAll(s.ls, args) && u.m == s.m && u.tr == s.tr
    ensures var e := SilentEffect(o, name, GetAll(s.ls, args), s.m, s.tr);
      && Exec(o, layout, Mbuiltin(name, regs, None), u) == OnMach(e, u)
      && Lin.Exec(o, Lin.Lbuiltin(name, args, None), s) == OnLinear(e, s)
  {
  }

  lemma StoresExec(o: Oracle, layout: FrameLayout, chunk: Chunk, addr: AddrMode, regs: seq<MReg>, r: MReg, u: Machine,
                   args: seq<L.Loc>, src: L.Loc, s: L.Machine)
    requires GetAll(u.regs, regs) == GetAll(s.ls, args) && Get(u.regs, r) == Get(s.ls, src) && u.m == s.m && u.tr == s.tr
    ensures var e := StoreEffect(o, chunk, addr, GetAll(s.ls, args), Get(s.ls, src), s.m, s.tr);
      && Exec(o, layout, Mstore(chunk, addr, regs, r), u) == OnMach(e, u)
      && Lin.Exec(o, Lin.Lstore(chunk, addr, args, src), s) == OnLinear(e, s)
  {
  }

  lemma SilentBuiltinDoes(w: World, name: string, args: seq<L.Loc>, s: L.Machine, t: Machine)
    requires w.Agree(s, t) && AreOperands(w, args) && InRegs(w.p.layout, args, Positions(0, |args|)).Some?
    ensures var (code, regs) := InRegs(w.p.layout, args, Positions(0, |args|)).value;
      Does(w, code + [Mbuiltin(name, regs, None)], Lin.Exec(w.o, Lin.Lbuiltin(name, args, None), s), t)
  {
    var (code, regs) := InRegs(w.p.layout, args, Positions(0, |args|)).value;
    PositionsRise(args);
    var u := OperandsLoaded(w, s, t, args, Positions(0, |args|));
    SilentExec(w.o, w.p.layout, name, regs, u, args, s);
    ChangeDoes(w, code, Mbuiltin(name, regs, None), s, t, u, SilentEffect(w.o, name, GetAll(s.ls, args), s.m, s.tr));
  }

  lemma StoreDoes(w: World, chunk: Chunk, addr: AddrMode, args: seq<L.Loc>, src: L.Loc, s: L.Machine, t: Machine)
    requires w.Agree(s, t) && AreOperands(w, args + [src]) && InRegs(w.p.layout, args + [src], Positions(0, |args| + 1)).Some?
    ensures var (code, regs) := InRegs(w.p.layout, args + [src], Positions(0, |args| + 1)).value;
      Does(w, code + [Mstore(chunk, addr, regs[..|args|], regs[|args|])], Lin.Exec(w.o, Lin.Lstore(chunk, addr, args, src), s), t)
  {
    var locs, ks := args + [src], Positions(0, |args| + 1);
    var (code, regs) := InRegs(w.p.layout, locs, ks).value;
    PositionsRise(locs);
    var u := OperandsLoaded(w, s, t, locs, ks);
    LastApart(u.regs, s.ls, regs, args, src);
    StoresExec(w.o, w.p.layout, chunk, addr, regs[..|args|], regs[|args|], u, args, src, s);
    ChangeDoes(w, code, Mstore(chunk, addr, regs[..|args|], regs[|args|]), s, t, u,
               StoreEffect(w.o, chunk, addr, GetAll(s.ls, args), Get(s.ls, src), s.m, s.tr));
  }

  lemma LastApart(rs: map<MReg, Val>, ls: L.LocSet, regs: seq<MReg>, args: seq<L.Loc>, l: L.Loc)
    requires |regs| == |args| + 1 && GetAll(rs, regs) == GetAll(ls, args + [l])
    ensures GetAll(rs, regs[..|args|]) == GetAll(ls, args) && Get(rs, regs[|args|]) == Get(ls, l)
  {
    var vs := GetAll(ls, args + [l]);
    assert vs[|args|] == Get(ls, l);
    forall k | 0 <= k < |args|
      ensures Get(rs, regs[k]) == Get(ls, args[k])
    {
      assert vs[k] == Get(ls, args[k]);
    }
  }

  lemma GetstackDoes(w: World, slot: L.SlotKind, ofs: int, ty: L.Typ, reg: MReg, s: L.Machine, t: Machine)
    requires w.Agree(s, t) && w.IsSlot(L.S(slot, ofs, ty)) && IsTarget(w, L.R(reg))
    ensures Does(w, [Getstack(w.p.layout, slot, ofs, ty, reg)], Lin.Exec(w.o, Lin.Lgetstack(slot, ofs, ty, reg), s), t)
  {
    var l, load := L.S(slot, ofs, ty), Getstack(w.p.layout, slot, ofs, ty, reg);
    ExecOne(w.o, w.p.layout, load, t);
    assert Peek(t.stack, w.At(l), ty) == Get(s.ls, l);
    WriteReg(w, s.ls, t, reg, Get(s.ls, l));
  }

  lemma SetstackDoes(w: World, src: MReg, slot: L.SlotKind, ofs: int, ty: L.Typ, s: L.Machine, t: Machine)
    requires w.Agree(s, t) && IsTarget(w, L.S(slot, ofs, ty)) && IsOperand(L.R(src))
    ensures Does(w, [Setstack(w.p.layout, src, slot, ofs, ty)], Lin.Exec(w.o, Lin.Lsetstack(src, slot, ofs, ty), s), t)
  {
    var l, store := L.S(slot, ofs, ty), Setstack(w.p.layout, src, slot, ofs, ty);
    ExecOne(w.o, w.p.layout, store, t);
    assert Get(t.regs, src) == Get(s.ls, L.R(src));
    WriteSlot(w, s.ls, t, l, Get(s.ls, L.R(src)));
  }

  // --- Calls ---

  lemma CalleeIs(w: World, fn: L.FunRef, s: L.Machine, t: Machine)
    requires w.Agree(s, t) && TransformFunRef(fn).Some? && (fn.FunLoc? ==> IsOperand(fn.loc))
    ensures CalleeOf(TransformFunRef(fn).value, t.regs) == L.CalleeOf(fn, s.ls)
  {
    if fn.FunLoc? {
      assert Get(t.regs, fn.loc.reg) == Get(s.ls, fn.loc);
    }
  }

  lemma ArgumentsAre(w: World, n: nat, s: L.Machine, t: Machine)
    requires w.Agree(s, t) && forall i | 8 <= i < n :: w.IsSlot(Lin.ArgPlace(i))
    ensures Arguments(w.p.layout, n, t) == GetAll(s.ls, Lin.ArgPlaces(n))
  {
    forall i: nat | i < n
      ensures ArgumentAt(w.p.layout, i, t) == Get(s.ls, Lin.ArgPlace(i))
    {
      if i < 8 {
        assert Get(t.regs, i) == Get(s.ls, L.R(i));
      } else {
        var l := Lin.ArgPlace(i);
        assert Peek(t.stack, w.At(l), l.ty) == Get(s.ls, l);
      }
    }
  }

  /** Outgoing slots are lost in a call, and only they. */
  ghost predicate CallsLoseOutgoing(w: World) {
    && (forall l | w.IsSlot(l) :: l.S? && (l.slot.SlotOutgoing? <==> w.p.layout.StackPointer() <= w.At(l) < w.p.layout.localOffset))
    && w.p.layout.localOffset <= -8 * |w.p.regs|
  }

  lemma CallsDo(w: World)
    requires w.Valid()
    ensures CallsLoseOutgoing(w)
  {
    forall l | w.IsSlot(l)
      ensures l.S? && (l.slot.SlotOutgoing? <==> w.p.layout.StackPointer() <= w.At(l) < w.p.layout.localOffset)
    {
      SlotIsOperand(w, l);
      SlotsApart(w, l);
    }
  }

  lemma RegAfterCall(regs: map<MReg, Val>, ls: L.LocSet, res: Val, junk: map<MReg, Val>, r: MReg)
    requires Get(regs, r) == Get(ls, L.R(r))
    ensures Get(RegsAfterCall(regs, res, junk), r) == Get(L.AfterCall(ls, res, junk), L.R(r))
  {
    RegIs(regs, res, junk, r);
    LocIs(ls, res, junk, r);
  }

  lemma RegIs(regs: map<MReg, Val>, res: Val, junk: map<MReg, Val>, r: MReg)
    ensures Get(RegsAfterCall(regs, res, junk), r) ==
            if r == L.X0 then res else if L.IsCalleeSaved(r) then Get(regs, r) else Get(junk, r)
  {
  }

  lemma LocIs(ls: L.LocSet, res: Val, junk: map<MReg, Val>, r: MReg)
    ensures Get(L.AfterCall(ls, res, junk), L.R(r)) ==
            if r == L.X0 then res else if L.IsCalleeSaved(r) then Get(ls, L.R(r)) else Get(junk, r)
  {
  }

  lemma SavedRegAfterCall(regs: map<MReg, Val>, res: Val, junk: map<MReg, Val>, r: MReg)
    requires L.IsCalleeSaved(r)
    ensures Get(RegsAfterCall(regs, res, junk), r) == Get(regs, r)
  {
  }

  lemma SlotAfterCall(ls: L.LocSet, res: Val, junk: map<MReg, Val>, l: L.Loc)
    requires l.S?
    ensures Get(L.AfterCall(ls, res, junk), l) == if l.slot.SlotOutgoing? then Vundef else Get(ls, l)
  {
  }

  lemma AfterCallHolds(w: World, ls: L.LocSet, t: Machine, res: Val, junk: map<MReg, Val>, t': Machine)
    requires w.Holds(ls, t) && w.Keeps(t) && CallsLoseOutgoing(w)
    requires t'.regs == RegsAfterCall(t.regs, res, junk) && t'.stack == StackAfterCall(w.p.layout, t.stack)
    ensures w.Holds(L.AfterCall(ls, res, junk), t') && w.Keeps(t')
  {
    forall r | !IsTemp(r)
      ensures Get(t'.regs, r) == Get(L.AfterCall(ls, res, junk), L.R(r))
    {
      RegAfterCall(t.regs, ls, res, junk, r);
    }
    forall l | w.IsSlot(l)
      ensures Peek(t'.stack, w.At(l), l.ty) == Get(L.AfterCall(ls, res, junk), l)
    {
      assert Peek(t.stack, w.At(l), l.ty) == Get(ls, l);
      SlotAfterCall(ls, res, junk, l);
    }
    SavedAfterCall(w, t, res, junk, t');
  }

  lemma SavedAfterCall(w: World, t: Machine, res: Val, junk: map<MReg, Val>, t': Machine)
    requires w.Keeps(t) && CallsLoseOutgoing(w)
    requires t'.regs == RegsAfterCall(t.regs, res, junk) && t'.stack == StackAfterCall(w.p.layout, t.stack)
    ensures w.Keeps(t')
  {
    forall i | 0 <= i < |w.p.regs|
      ensures Peek(t'.stack, SaveOffset(i), L.Tlong) == Get(w.entry, w.p.regs[i])
    {
      assert Peek(t.stack, SaveOffset(i), L.Tlong) == Get(w.entry, w.p.regs[i]);
    }
    forall r | L.IsCalleeSaved(r) && r !in w.p.regs
      ensures Get(t'.regs, r) == Get(w.entry, r)
    {
      SavedRegAfterCall(t.regs, res, junk, r);
    }
  }

  lemma LinearCall(o: Oracle, sig: Sig, fn: L.FunRef, s: L.Machine)
    ensures Lin.Exec(o, Lin.Lcall(sig, fn), s) == L.DoCall(o, L.CalleeOf(fn, s.ls), GetAll(s.ls, Lin.ArgPlaces(sig.nargs)), s)
  {
  }

  lemma MachCall(o: Oracle, layout: FrameLayout, sig: Sig, f: FunRef, t: Machine)
    ensures Exec(o, layout, Mcall(sig, f), t) == DoCall(o, layout, CalleeOf(f, t.regs), Arguments(layout, sig.nargs, t), t)
  {
  }

  lemma CallAgrees(w: World, callee: Callee, vs: seq<Val>, s: L.Machine, t: Machine)
    requires w.Agree(s, t) && CallsLoseOutgoing(w)
    ensures match L.DoCall(w.o, callee, vs, s)
      case Some(s') => DoCall(w.o, w.p.layout, callee, vs, t).Some? && w.Agree(s', DoCall(w.o, w.p.layout, callee, vs, t).value)
      case None => DoCall(w.o, w.p.layout, callee, vs, t).None?
  {
    var r := w.o.call(callee, vs, s.m);
    if r.Some? {
      AfterCallHolds(w, s.ls, t, r.value.0, w.o.junk(callee, vs, s.m), DoCall(w.o, w.p.layout, callee, vs, t).value);
    }
  }

  lemma CallDoes(w: World, sig: Sig, fn: L.FunRef, s: L.Machine, t: Machine)
    requires w.Agree(s, t) && CallsLoseOutgoing(w) && TransformFunRef(fn).Some? && (fn.FunLoc? ==> IsOperand(fn.loc))
    requires forall i | 8 <= i < sig.nargs :: w.IsSlot(Lin.ArgPlace(i))
    ensures Does(w, [Mcall(sig, TransformFunRef(fn).value)], Lin.Exec(w.o, Lin.Lcall(sig, fn), s), t)
  {
    var f, callee, vs := TransformFunRef(fn).value, L.CalleeOf(fn, s.ls), GetAll(s.ls, Lin.ArgPlaces(sig.nargs));
    ExecOne(w.o, w.p.layout, Mcall(sig, f), t);
    CalleeIs(w, fn, s, t);
    ArgumentsAre(w, sig.nargs, s, t);
    LinearCall(w.o, sig, fn, s);
    MachCall(w.o, w.p.layout, sig, f, t);
    CallAgrees(w, callee, vs, s, t);
  }

  // --- All straight instructions ---

  ghost predicate Matches(w: World, i: Lin.Instr, piece: Code, s: L.Machine, t: Machine) {
    w.Valid() && i in w.p.code && TransformInstr(w.p.layout, w.p.restore, i) == Some(piece) && w.Agree(s, t)
  }

  lemma OperandsAre(w: World, i: Lin.Instr, locs: seq<L.Loc>)
    requires w.Valid() && i in w.p.code && forall l | l in locs :: l in Lin.Operands(i)
    ensures AreOperands(w, locs)
  {
    forall l | l in locs
      ensures IsOperand(l) && (l.S? ==> w.IsSlot(l))
    {
      assert l in Lin.Operands(i);
    }
  }

  lemma SlotMovesDo(w: World, i: Lin.Instr, piece: Code, s: L.Machine, t: Machine)
    requires Matches(w, i, piece, s, t) && (i.Lgetstack? || i.Lsetstack?)
    ensures Does(w, piece, Lin.Exec(w.o, i, s), t)
  {
    var l := L.S(i.slot, i.ofs, i.ty);
    assert l in Lin.Operands(i) && w.IsSlot(l);
    match i
    case Lgetstack(slot, ofs, ty, reg) =>
      assert Lin.Operands(i)[1] == L.R(reg) && L.R(reg) in [L.R(reg)];
      TargetIs(w, i, L.R(reg));
      GetstackDoes(w, slot, ofs, ty, reg, s, t);
    case Lsetstack(src, slot, ofs, ty) =>
      assert Lin.Operands(i)[0] == L.R(src) && IsOperand(L.R(src));
      TargetIs(w, i, l);
      SetstackDoes(w, src, slot, ofs, ty, s, t);
  }

  lemma ComputationsDo(w: World, i: Lin.Instr, piece: Code, s: L.Machine, t: Machine)
    requires Matches(w, i, piece, s, t) && (i.Lop? || i.Lload?)
    ensures Does(w, piece, Lin.Exec(w.o, i, s), t)
  {
    OperandsAre(w, i, i.args);
    assert Lin.Operands(i)[|i.args|] == i.dest && i.dest in [i.dest];
    TargetIs(w, i, i.dest);
    match i
    case Lop(op, args, dest) => OpDoes(w, op, args, dest, s, t);
    case Lload(chunk, addr, args, dest) => LoadDoes(w, chunk, addr, args, dest, s, t);
  }

  lemma BuiltinsDo(w: World, i: Lin.Instr, piece: Code, s: L.Machine, t: Machine)
    requires Matches(w, i, piece, s, t) && i.Lbuiltin?
    ensures Does(w, piece, Lin.Exec(w.o, i, s), t)
  {
    OperandsAre(w, i, i.args);
    match i.res
    case Some(dest) =>
      assert Lin.Operands(i)[|i.args|] == dest && dest in [dest];
      TargetIs(w, i, dest);
      BuiltinDoes(w, i.name, i.args, dest, s, t);
    case None => SilentBuiltinDoes(w, i.name, i.args, s, t);
  }

  lemma CallsDoAll(w: World, i: Lin.Instr, piece: Code, s: L.Machine, t: Machine)
    requires Matches(w, i, piece, s, t) && i.Lcall?
    ensures Does(w, piece, Lin.Exec(w.o, i, s), t)
  {
    CallsDo(w);
    var locs := L.CalleeLocs(i.fn);
    forall k | 8 <= k < i.sig.nargs
      ensures w.IsSlot(Lin.ArgPlace(k))
    {
      assert Lin.ArgPlaces(i.sig.nargs)[k] in Lin.ArgPlaces(i.sig.nargs);
      assert Lin.ArgPlace(k) in Lin.Operands(i);
    }
    if i.fn.FunLoc? {
      assert i.fn.loc in locs && i.fn.loc in Lin.Operands(i);
    }
    CallDoes(w, i.sig, i.fn, s, t);
  }

  /** The piece for a straight instruction does what the instruction does. */
  lemma StraightDoes(w: World, i: Lin.Instr, piece: Code, s: L.Machine, t: Machine)
    requires Matches(w, i, piece, s, t) && i.IsStraight()
    ensures Does(w, piece, Lin.Exec(w.o, i, s), t)
  {
    match i
    case Lgetstack(_, _, _, _) => SlotMovesDo(w, i, piece, s, t);
    case Lsetstack(_, _, _, _) => SlotMovesDo(w, i, piece, s, t);
    case Lop(_, _, _) => ComputationsDo(w, i, piece, s, t);
    case Lload(_, _, _, _) => ComputationsDo(w, i, piece, s, t);
    case Lstore(chunk, addr, args, src) =>
      OperandsAre(w, i, args + [src]);
      StoreDoes(w, chunk, addr, args, src, s, t);
    case Lbuiltin(_, _, _) => BuiltinsDo(w, i, piece, s, t);
    case Lcall(_, _) => CallsDoAll(w, i, piece, s, t);
  }
}
