/** Mach code does what the Linear code does, and keeps the callee-saved registers. */
module StackingRuns {
  import opened Values
  import opened Runs
  import opened Frame
  import opened Mach
  import opened Prolog
  import opened Stacking
  import opened StackingProof
  import opened Conventions
  import L = LTL
  import Lin = Linear

  // --- Where the pieces are ---

  function Position(p: Plan, k: nat): nat
    requires k <= |p.pieces|
  {
    |p.save| + |Join(p.pieces[..k])|
  }

  lemma {:induction false} JoinPrefix(pieces: seq<Code>, k: nat)
    requires k <= |pieces|
    ensures Join(pieces[..k]) <= Join(pieces)
    decreases |pieces|
  {
    if k < |pieces| {
      var last := |pieces| - 1;
      JoinPrefix(pieces[..last], k);
      assert pieces[..last][..k] == pieces[..k];
    } else {
      assert pieces[..k] == pieces;
    }
  }

  lemma PieceAt(p: Plan, k: nat)
    requires k < |p.pieces|
    ensures CodeAt(p.Output(), Position(p, k), p.pieces[k]) && Position(p, k + 1) == Position(p, k) + |p.pieces[k]|
  {
    var before := Join(p.pieces[..k]);
    assert p.pieces[..k + 1][..k] == p.pieces[..k];
    assert Join(p.pieces[..k + 1]) == before + p.pieces[k];
    JoinPrefix(p.pieces, k + 1);
    var all := Join(p.pieces);
    assert all[..|before| + |p.pieces[k]|] == before + p.pieces[k];
    assert all[|before|..|before| + |p.pieces[k]|] == p.pieces[k];
  }

  // --- Labels ---

  lemma {:induction false} NotInJoin(pieces: seq<Code>, c: Instr)
    requires forall k | 0 <= k < |pieces| :: c !in pieces[k]
    ensures c !in Join(pieces)
    decreases |pieces|
  {
    if pieces != [] {
      NotInJoin(pieces[..|pieces| - 1], c);
    }
  }

  lemma {:induction false} LoadsHaveNoLabel(layout: FrameLayout, locs: seq<L.Loc>, ks: seq<nat>)
    requires |ks| == |locs| && InRegs(layout, locs, ks).Some?
    ensures forall c | c in InRegs(layout, locs, ks).value.0 :: !c.Mlabel?
    decreases |locs|
  {
    if locs != [] {
      LoadsHaveNoLabel(layout, locs[..|locs| - 1], ks[..|locs| - 1]);
    }
  }

  /** Only labels have labels. */
  lemma LabelsAreLabels(layout: FrameLayout, restore: Code, i: Lin.Instr, piece: Code, l: Lin.Label)
    requires (forall c | c in restore :: !c.Mlabel?) && TransformInstr(layout, restore, i) == Some(piece)
    ensures Mlabel(l) in piece <==> i == Lin.Llabel(l)
  {
    match i
    case Lop(_, args, _) => LoadsHaveNoLabel(layout, args, SlotNumbers(args));
    case Lload(_, _, args, _) => LoadsHaveNoLabel(layout, args, Positions(0, |args|));
    case Lstore(_, _, args, src) => LoadsHaveNoLabel(layout, args + [src], Positions(0, |args| + 1));
    case Lbuiltin(_, args, _) => LoadsHaveNoLabel(layout, args, Positions(0, |args|));
    case Lcond(_, args, _) => LoadsHaveNoLabel(layout, args, Positions(0, |args|));
    case _ =>
  }

  ghost predicate HasPieces(p: Plan) {
    && (forall c | c in p.save :: !c.Mlabel?) && (forall c | c in p.restore :: !c.Mlabel?)
    && ArePieces(p.layout, p.restore, p.code, p.pieces)
  }

  lemma NoLabelIn(p: Plan, l: Lin.Label, k: nat)
    requires HasPieces(p) && k <= |p.code| && Lin.Llabel(l) !in p.code[..k]
    ensures Mlabel(l) !in Join(p.pieces[..k])
  {
    forall j | 0 <= j < k
      ensures Mlabel(l) !in p.pieces[..k][j]
    {
      LabelsAreLabels(p.layout, p.restore, p.code[j], p.pieces[j], l);
      assert p.code[..k][j] == p.code[j];
    }
    NotInJoin(p.pieces[..k], Mlabel(l));
  }

  lemma LabelIsThere(p: Plan, l: Lin.Label, k: nat)
    requires HasPieces(p) && k < |p.code| && p.code[k] == Lin.Llabel(l) && Lin.Llabel(l) !in p.code[..k]
    ensures FindLabel(p.Output(), l) == Some(Position(p, k))
  {
    NoLabelIn(p, l, k);
    PieceAt(p, k);
    JoinPrefix(p.pieces, k);
    var before := p.save + Join(p.pieces[..k]);
    assert p.Output()[..Position(p, k)] == before;
    assert Mlabel(l) !in before;
    assert TransformInstr(p.layout, p.restore, p.code[k]) == Some([Mlabel(l)]);
    FoundAt(p.Output(), l, Position(p, k));
  }

  lemma NoLabelThere(p: Plan, l: Lin.Label)
    requires HasPieces(p) && Lin.Llabel(l) !in p.code
    ensures FindLabel(p.Output(), l) == None
  {
    assert p.code[..|p.code|] == p.code && p.pieces[..|p.code|] == p.pieces;
    NoLabelIn(p, l, |p.code|);
    NotFound(p.Output(), l);
  }

  /** A label is found in the piece for it. */
  lemma LabelFound(p: Plan, l: Lin.Label)
    requires HasPieces(p)
    ensures match Lin.FindLabel(p.code, l)
      case Some(k) => FindLabel(p.Output(), l) == Some(Position(p, k))
      case None => FindLabel(p.Output(), l) == None
  {
    match Lin.FindLabel(p.code, l)
    case Some(k) => LabelIsThere(p, l, k);
    case None => NoLabelThere(p, l);
  }

  // --- How states correspond ---

  ghost predicate CalleeSavedKept(entry: map<MReg, Val>, regs: map<MReg, Val>) {
    forall r | L.IsCalleeSaved(r) :: Get(regs, r) == Get(entry, r)
  }

  /** The other registers are as in the Linear code, except X16 and X17. */
  ghost predicate OthersAgree(ls: L.LocSet, regs: map<MReg, Val>) {
    forall r | !L.IsCalleeSaved(r) && !IsTemp(r) :: Get(regs, r) == Get(ls, L.R(r))
  }

  ghost predicate Match(w: World, s: Lin.State, t: State)
    requires |w.p.pieces| == |w.p.code|
  {
    match s
    case Running(pc, ls, m, tr) =>
      t.Running? && pc <= |w.p.code| && t.pc == Position(w.p, pc)
      && w.Agree(L.Machine(ls, m, tr), Machine(t.regs, t.stack, t.m, t.tr))
    case Returned(ls, m, tr) => t.Returned? && t.m == m && t.tr == tr && CalleeSavedKept(w.entry, t.regs) && OthersAgree(ls, t.regs)
    case TailCalled(callee, m, tr) => t.TailCalled? && t.callee == callee && t.m == m && t.tr == tr && CalleeSavedKept(w.entry, t.regs)
    case Stuck => t.Stuck?
  }

  /** Straight code, and one instruction more. */
  lemma RunThen(o: Oracle, layout: FrameLayout, out: Code, at: nat, part: Code, i: Instr, t: Machine, u: Machine)
    requires CodeAt(out, at, part + [i]) && (forall c | c in part :: c.IsStraight())
    requires ExecAll(o, layout, part, t) == Some(u)
    ensures Iterate(Stepper(o, layout, out), RunningAt(at, t), |part| + 1) == StepInstr(o, layout, out, i, at + |part|, u)
  {
    CodeAtSplit(out, at, part, [i]);
    RunStraight(o, layout, out, at, part, t);
    IterateLast(Stepper(o, layout, out), RunningAt(at, t), |part|);
    assert out[at + |part|] == [i][0];
    StepIs(o, layout, out, at + |part|, u);
  }

  lemma StepIs(o: Oracle, layout: FrameLayout, out: Code, pc: nat, u: Machine)
    requires pc < |out|
    ensures Step(o, layout, out, RunningAt(pc, u)) == StepInstr(o, layout, out, out[pc], pc, u)
  {
    assert Machine(u.regs, u.stack, u.m, u.tr) == u;
  }

  /** The whole piece at pc. */
  lemma RunPiece(w: World, pc: nat, part: Code, i: Instr, t: Machine, u: Machine)
    requires pc < |w.p.pieces| && w.p.pieces[pc] == part + [i] && (forall c | c in part :: c.IsStraight())
    requires ExecAll(w.o, w.p.layout, part, t) == Some(u)
    ensures Iterate(Stepper(w.o, w.p.layout, w.p.Output()), RunningAt(Position(w.p, pc), t), |part| + 1) ==
            StepInstr(w.o, w.p.layout, w.p.Output(), i, Position(w.p, pc) + |part|, u)
    ensures Position(w.p, pc + 1) == Position(w.p, pc) + |part| + 1
  {
    PieceAt(w.p, pc);
    RunThen(w.o, w.p.layout, w.p.Output(), Position(w.p, pc), part, i, t, u);
  }

  lemma CodeAtSplit(code: Code, at: nat, a: Code, b: Code)
    requires CodeAt(code, at, a + b)
    ensures CodeAt(code, at, a) && CodeAt(code, at + |a|, b)
  {
    var part := code[at..at + |a + b|];
    assert part[..|a|] == a && part[|a|..] == b;
  }

  lemma JumpMatches(w: World, l: Lin.Label, s: L.Machine, u: Machine)
    requires HasPieces(w.p) && w.Agree(s, u)
    ensures Match(w, Lin.Jump(w.p.code, l, s), Jump(w.p.Output(), l, u))
  {
    LabelFound(w.p, l);
  }

  /** Some positive number of Mach steps from there leads to a state that corresponds to s. */
  ghost predicate CatchesUp(w: World, s: Lin.State, at: nat, t: Machine)
    requires |w.p.pieces| == |w.p.code|
  {
    exists j: nat :: j > 0 && Match(w, s, Iterate(Stepper(w.o, w.p.layout, w.p.Output()), RunningAt(at, t), j))
  }

  /** The piece at pc, and where it is. */
  ghost predicate IsAt(w: World, pc: nat, s: L.Machine, t: Machine) {
    w.Valid() && pc < |w.p.code| && w.Agree(s, t)
  }

  lemma StraightMatches(w: World, pc: nat, s: L.Machine, t: Machine)
    requires IsAt(w, pc, s, t) && w.p.code[pc].IsStraight()
    ensures CatchesUp(w, Lin.StepInstr(w.o, w.p.code, w.p.code[pc], pc, s), Position(w.p, pc), t)
  {
    var i, piece := w.p.code[pc], w.p.pieces[pc];
    assert i in w.p.code;
    StraightDoes(w, i, piece, s, t);
    PieceIsThere(w.p, i, piece);
    PieceRuns(w, pc, i, piece, s, t);
  }

  lemma PieceRuns(w: World, pc: nat, i: Lin.Instr, piece: Code, s: L.Machine, t: Machine)
    requires |w.p.pieces| == |w.p.code| && pc < |w.p.code| && w.p.pieces[pc] == piece && piece != []
    requires i.IsStraight() && Does(w, piece, Lin.Exec(w.o, i, s), t)
    ensures CatchesUp(w, Lin.StepInstr(w.o, w.p.code, i, pc, s), Position(w.p, pc), t)
  {
    PieceAt(w.p, pc);
    RunStraight(w.o, w.p.layout, w.p.Output(), Position(w.p, pc), piece, t);
    assert |piece| > 0;
  }

  lemma PieceIsThere(p: Plan, i: Lin.Instr, piece: Code)
    requires TransformInstr(p.layout, p.restore, i) == Some(piece)
    ensures piece != []
  {
  }

  lemma ValidHasPieces(p: Plan)
    requires p.Valid()
    ensures HasPieces(p)
  {
  }

  lemma LabelMatches(w: World, pc: nat, l: Lin.Label, s: L.Machine, t: Machine)
    requires HasPieces(w.p) && w.Agree(s, t) && pc < |w.p.code| && w.p.code[pc] == Lin.Llabel(l)
    ensures CatchesUp(w, Lin.StepInstr(w.o, w.p.code, w.p.code[pc], pc, s), Position(w.p, pc), t)
  {
    assert w.p.pieces[pc] == [] + [Mlabel(l)];
    RunPiece(w, pc, [], Mlabel(l), t, t);
  }

  lemma GotoMatches(w: World, pc: nat, l: Lin.Label, s: L.Machine, t: Machine)
    requires HasPieces(w.p) && w.Agree(s, t) && pc < |w.p.code| && w.p.code[pc] == Lin.Lgoto(l)
    ensures CatchesUp(w, Lin.StepInstr(w.o, w.p.code, w.p.code[pc], pc, s), Position(w.p, pc), t)
  {
    assert w.p.pieces[pc] == [] + [Mgoto(l)];
    RunPiece(w, pc, [], Mgoto(l), t, t);
    JumpMatches(w, l, s, t);
  }

  /** If the last instruction of a piece leads to a corresponding state, the piece does. */
  lemma PieceCatchesUp(w: World, pc: nat, part: Code, i: Instr, s: Lin.State, t: Machine, u: Machine)
    requires |w.p.pieces| == |w.p.code| && pc < |w.p.code| && w.p.pieces[pc] == part + [i]
    requires (forall c | c in part :: c.IsStraight()) && ExecAll(w.o, w.p.layout, part, t) == Some(u)
    requires Match(w, s, StepInstr(w.o, w.p.layout, w.p.Output(), i, Position(w.p, pc) + |part|, u))
    ensures CatchesUp(w, s, Position(w.p, pc), t)
  {
    RunPiece(w, pc, part, i, t, u);
    assert |part| + 1 > 0;
  }

  lemma CondStep(w: World, pc: nat, i: Lin.Instr, regs: seq<MReg>, s: L.Machine, u: Machine, at: nat)
    requires i.Lcond? && w.Agree(s, u) && GetAll(u.regs, regs) == GetAll(s.ls, i.args)
    requires |w.p.pieces| == |w.p.code| && pc < |w.p.code| && at + 1 == Position(w.p, pc + 1)
    requires Match(w, Lin.Jump(w.p.code, i.ifso, s), Jump(w.p.Output(), i.ifso, u))
    ensures Match(w, Lin.StepInstr(w.o, w.p.code, i, pc, s), StepInstr(w.o, w.p.layout, w.p.Output(), Mcond(i.cond, regs, i.ifso), at, u))
  {
  }

  lemma CondPiece(p: Plan, pc: nat, i: Lin.Instr)
    requires HasPieces(p) && pc < |p.code| && p.code[pc] == i && i.Lcond?
    ensures var r := InRegs(p.layout, i.args, Positions(0, |i.args|));
      r.Some? && p.pieces[pc] == r.value.0 + [Mcond(i.cond, r.value.1, i.ifso)]
  {
    assert TransformInstr(p.layout, p.restore, i) == Some(p.pieces[pc]);
  }

  lemma CondMatches(w: World, pc: nat, s: L.Machine, t: Machine)
    requires HasPieces(w.p) && w.Agree(s, t) && pc < |w.p.code| && w.p.code[pc].Lcond? && AreOperands(w, w.p.code[pc].args)
    ensures CatchesUp(w, Lin.StepInstr(w.o, w.p.code, w.p.code[pc], pc, s), Position(w.p, pc), t)
  {
    var i := w.p.code[pc];
    var ks := Positions(0, |i.args|);
    CondPiece(w.p, pc, i);
    PositionsRise(i.args);
    var (code, regs) := InRegs(w.p.layout, i.args, ks).value;
    var u := OperandsLoaded(w, s, t, i.args, ks);
    LoadedBranches(w, pc, i, code, regs, s, t, u);
  }

  lemma LoadedBranches(w: World, pc: nat, i: Lin.Instr, code: Code, regs: seq<MReg>, s: L.Machine, t: Machine, u: Machine)
    requires HasPieces(w.p) && pc < |w.p.code| && i.Lcond? && w.p.pieces[pc] == code + [Mcond(i.cond, regs, i.ifso)]
    requires (forall c | c in code :: c.IsStraight()) && ExecAll(w.o, w.p.layout, code, t) == Some(u)
    requires w.Agree(s, u) && GetAll(u.regs, regs) == GetAll(s.ls, i.args)
    ensures CatchesUp(w, Lin.StepInstr(w.o, w.p.code, i, pc, s), Position(w.p, pc), t)
  {
    var branch := Mcond(i.cond, regs, i.ifso);
    JumpMatches(w, i.ifso, s, u);
    RunPiece(w, pc, code, branch, t, u);
    CondStep(w, pc, i, regs, s, u, Position(w.p, pc) + |code|);
    PieceCatchesUp(w, pc, code, branch, Lin.StepInstr(w.o, w.p.code, i, pc, s), t, u);
  }

  lemma JumptableStep(w: World, pc: nat, i: Lin.Instr, r: MReg, s: L.Machine, u: Machine, at: nat)
    requires i.Ljumptable? && w.Agree(s, u) && Get(u.regs, r) == Get(s.ls, i.arg) && HasPieces(w.p)
    ensures Match(w, Lin.StepInstr(w.o, w.p.code, i, pc, s), StepInstr(w.o, w.p.layout, w.p.Output(), Mjumptable(r, i.targets), at, u))
  {
    var v := Get(s.ls, i.arg);
    if v.Vnum? && 0 <= v.n < |i.targets| {
      JumpMatches(w, i.targets[v.n], s, u);
    }
  }

  /** The index in a register. */
  lemma IndexLoaded(w: World, s: L.Machine, t: Machine, l: L.Loc) returns (u: Machine)
    requires w.Agree(s, t) && IsOperand(l) && (l.S? ==> w.IsSlot(l)) && InReg(w.p.layout, l, 0).Some?
    ensures var (code, r) := InReg(w.p.layout, l, 0).value;
      && ExecAll(w.o, w.p.layout, code, t) == Some(u) && (forall c | c in code :: c.IsStraight())
      && Get(u.regs, r) == Get(s.ls, l)
    ensures w.Agree(s, u)
  {
    LoadOne(w, s.ls, t, l, 0);
    u := if l.S? then t.(regs := t.regs[Temp(0) := Get(s.ls, l)]) else t;
    StillSame(t, t, u, 0, Get(s.ls, l));
    TempsDoNotMatter(w, s.ls, t, u);
  }

  lemma JumptablePiece(p: Plan, pc: nat, i: Lin.Instr)
    requires HasPieces(p) && pc < |p.code| && p.code[pc] == i && i.Ljumptable?
    ensures var r := InReg(p.layout, i.arg, 0);
      r.Some? && p.pieces[pc] == r.value.0 + [Mjumptable(r.value.1, i.targets)]
  {
    assert TransformInstr(p.layout, p.restore, i) == Some(p.pieces[pc]);
  }

  lemma JumptableMatches(w: World, pc: nat, i: Lin.Instr, s: L.Machine, t: Machine)
    requires HasPieces(w.p) && w.Agree(s, t) && pc < |w.p.code| && w.p.code[pc] == i && i.Ljumptable?
    requires IsOperand(i.arg) && (i.arg.S? ==> w.IsSlot(i.arg))
    ensures CatchesUp(w, Lin.StepInstr(w.o, w.p.code, i, pc, s), Position(w.p, pc), t)
  {
    JumptablePiece(w.p, pc, i);
    var (code, r) := InReg(w.p.layout, i.arg, 0).value;
    var u := IndexLoaded(w, s, t, i.arg);
    JumptableStep(w, pc, i, r, s, u, Position(w.p, pc) + |code|);
    PieceCatchesUp(w, pc, code, Mjumptable(r, i.targets), Lin.StepInstr(w.o, w.p.code, i, pc, s), t, u);
  }

  /** The state after the epilogue. */
  ghost predicate IsRestored(w: World, s: L.Machine, t: Machine, u: Machine) {
    && ExecAll(w.o, w.p.layout, w.p.restore, t) == Some(u) && (forall c | c in w.p.restore :: c.IsStraight())
    && u.m == s.m && u.tr == s.tr && CalleeSavedKept(w.entry, u.regs) && OthersAgree(s.ls, u.regs)
  }

  /** The epilogue gives the caller its registers back. */
  lemma EpilogueRestores(w: World, s: L.Machine, t: Machine) returns (u: Machine)
    requires w.p.Valid() && w.Agree(s, t)
    ensures IsRestored(w, s, t, u)
    ensures forall r | r !in w.p.regs :: Get(u.regs, r) == Get(t.regs, r)
  {
    assert RestoresOn(w.p.regs, 0, w.p.restore, w.o, w.p.layout, t);
    u := ExecAll(w.o, w.p.layout, w.p.restore, t).value;
    assert w.p.regs[0..] == w.p.regs;
    forall r | L.IsCalleeSaved(r)
      ensures Get(u.regs, r) == Get(w.entry, r)
    {
      if r in w.p.regs {
        assert HoldsPlace(w.p.regs, 0, t, u, r);
      }
    }
    forall r | !L.IsCalleeSaved(r) && !IsTemp(r)
      ensures Get(u.regs, r) == Get(s.ls, L.R(r))
    {
      if r in w.p.regs {
        SavedAreCalleeSaved(w.p, r);
      }
      assert Get(t.regs, r) == Get(s.ls, L.R(r));
    }
  }

  /** A callee in a register that is restored is lost: what is called is what the caller had there. */
  lemma RestoredCalleeIsLost(w: World, s: L.Machine, t: Machine, r: MReg) returns (u: Machine)
    requires w.p.Valid() && w.Agree(s, t) && r in w.p.regs
    ensures ExecAll(w.o, w.p.layout, w.p.restore, t) == Some(u) && CalleeOf(FunReg(r), u.regs) == ToAddress(Get(w.entry, r))
    ensures CalleeOf(FunReg(r), u.regs) == L.CalleeOf(L.FunLoc(L.R(r)), s.ls) <==> Get(s.ls, L.R(r)) == Get(w.entry, r)
  {
    u := EpilogueRestores(w, s, t);
    SavedAreCalleeSaved(w.p, r);
  }

  lemma ReturnMatches(w: World, pc: nat, s: L.Machine, t: Machine, u: Machine)
    requires HasPieces(w.p) && pc < |w.p.code| && w.p.code[pc].Lreturn? && IsRestored(w, s, t, u)
    ensures CatchesUp(w, Lin.StepInstr(w.o, w.p.code, w.p.code[pc], pc, s), Position(w.p, pc), t)
  {
    assert w.p.pieces[pc] == w.p.restore + [Mreturn];
    RunPiece(w, pc, w.p.restore, Mreturn, t, u);
  }

  lemma TailcallPiece(p: Plan, pc: nat, i: Lin.Instr)
    requires HasPieces(p) && pc < |p.code| && p.code[pc] == i && i.Ltailcall?
    ensures TransformFunRef(i.fn).Some? && p.pieces[pc] == p.restore + [Mtailcall(i.sig, TransformFunRef(i.fn).value)]
  {
    assert TransformInstr(p.layout, p.restore, i) == Some(p.pieces[pc]);
  }

  /** The callee is not among the registers restored. */
  lemma TailCalleeIs(w: World, i: Lin.Instr, s: L.Machine, t: Machine, u: Machine)
    requires w.Valid() && i in w.p.code && i.Ltailcall? && TransformFunRef(i.fn).Some? && w.Agree(s, t)
    requires forall r | r !in w.p.regs :: Get(u.regs, r) == Get(t.regs, r)
    ensures CalleeOf(TransformFunRef(i.fn).value, u.regs) == L.CalleeOf(i.fn, s.ls)
  {
    if i.fn.FunLoc? {
      assert i.fn.loc in L.CalleeLocs(i.fn) && i.fn.loc in Lin.Operands(i) && IsOperand(i.fn.loc);
      assert i.fn.loc.reg !in w.p.regs;
      assert Get(t.regs, i.fn.loc.reg) == Get(s.ls, i.fn.loc);
    }
  }

  lemma TailcallMatches(w: World, pc: nat, s: L.Machine, t: Machine, u: Machine)
    requires HasPieces(w.p) && pc < |w.p.code| && w.p.code[pc].Ltailcall? && IsRestored(w, s, t, u)
    requires var fn := w.p.code[pc].fn;
      TransformFunRef(fn).Some? ==> CalleeOf(TransformFunRef(fn).value, u.regs) == L.CalleeOf(fn, s.ls)
    ensures CatchesUp(w, Lin.StepInstr(w.o, w.p.code, w.p.code[pc], pc, s), Position(w.p, pc), t)
  {
    var i := w.p.code[pc];
    TailcallPiece(w.p, pc, i);
    RunPiece(w, pc, w.p.restore, Mtailcall(i.sig, TransformFunRef(i.fn).value), t, u);
  }

  /** Leaving the function: first the epilogue. */
  lemma LeavingMatches(w: World, pc: nat, s: L.Machine, t: Machine)
    requires IsAt(w, pc, s, t) && (w.p.code[pc].Lreturn? || w.p.code[pc].Ltailcall?)
    ensures CatchesUp(w, Lin.StepInstr(w.o, w.p.code, w.p.code[pc], pc, s), Position(w.p, pc), t)
  {
    var i := w.p.code[pc];
    ValidHasPieces(w.p);
    var u := EpilogueRestores(w, s, t);
    if i.Lreturn? {
      ReturnMatches(w, pc, s, t, u);
    } else {
      TailcallPiece(w.p, pc, i);
      TailCalleeIs(w, i, s, t, u);
      TailcallMatches(w, pc, s, t, u);
    }
  }

  lemma RunningMatches(w: World, pc: nat, s: L.Machine, t: Machine)
    requires IsAt(w, pc, s, t)
    ensures CatchesUp(w, Lin.StepInstr(w.o, w.p.code, w.p.code[pc], pc, s), Position(w.p, pc), t)
  {
    ValidHasPieces(w.p);
    match w.p.code[pc]
    case Llabel(l) => LabelMatches(w, pc, l, s, t);
    case Lgoto(l) => GotoMatches(w, pc, l, s, t);
    case Lcond(_, args, _) =>
      OperandsAre(w, w.p.code[pc], args);
      CondMatches(w, pc, s, t);
    case Ljumptable(arg, _) =>
      OperandsAre(w, w.p.code[pc], [arg]);
      assert arg in [arg];
      JumptableMatches(w, pc, w.p.code[pc], s, t);
    case Lreturn => LeavingMatches(w, pc, s, t);
    case Ltailcall(_, _) => LeavingMatches(w, pc, s, t);
    case _ => StraightMatches(w, pc, s, t);
  }

  /** Each step of the Linear code takes at least one step of the Mach code. */
  lemma StepMatches(w: World, s: Lin.State, t: State) returns (j: nat)
    requires w.Valid() && Match(w, s, t)
    ensures j > 0 && Match(w, Lin.Step(w.o, w.p.code, s), Iterate(Stepper(w.o, w.p.layout, w.p.Output()), t, j))
  {
    var g := Stepper(w.o, w.p.layout, w.p.Output());
    if s.Running? && s.pc < |w.p.code| {
      RunningMatches(w, s.pc, L.Machine(s.ls, s.m, s.tr), Machine(t.regs, t.stack, t.m, t.tr));
      j :| j > 0 && Match(w, Lin.Step(w.o, w.p.code, s), Iterate(g, t, j));
    } else {
      j := 1;
      assert w.p.pieces[..|w.p.code|] == w.p.pieces;
      OneStep(g, t);
    }
  }

  lemma OneStep<S>(f: S -> S, s: S)
    ensures Iterate(f, s, 1) == f(s)
  {
    assert Iterate(f, f(s), 0) == f(s);
  }

  /** Some number of Mach steps from t, at least k, corresponds to k Linear ones from s. */
  ghost predicate Follows(w: World, s: Lin.State, t: State, k: nat)
    requires |w.p.pieces| == |w.p.code|
  {
    exists j: nat :: j >= k && Match(w, Iterate(Lin.Stepper(w.o, w.p.code), s, k), Iterate(Stepper(w.o, w.p.layout, w.p.Output()), t, j))
  }

  ghost function Matching(w: World): (Lin.State, State) -> bool
    requires |w.p.pieces| == |w.p.code|
  {
    (s, t) => Match(w, s, t)
  }

  lemma StepsExpand(w: World)
    requires w.Valid()
    ensures Expands(Lin.Stepper(w.o, w.p.code), Stepper(w.o, w.p.layout, w.p.Output()), Matching(w))
  {
    var f, g, r := Lin.Stepper(w.o, w.p.code), Stepper(w.o, w.p.layout, w.p.Output()), Matching(w);
    forall s, t | r(s, t)
      ensures Catches(g, r, f(s), t)
    {
      var j := StepMatches(w, s, t);
      assert r(f(s), Iterate(g, t, j));
    }
  }

  /** And so for any number of steps. */
  lemma StackedRuns(w: World, s: Lin.State, t: State, k: nat)
    requires w.Valid() && Match(w, s, t)
    ensures Follows(w, s, t, k)
  {
    StepsExpand(w);
    var f, g, r := Lin.Stepper(w.o, w.p.code), Stepper(w.o, w.p.layout, w.p.Output()), Matching(w);
    var j := Expansion(f, g, r, s, t, k);
    assert Match(w, Iterate(f, s, k), Iterate(g, t, j));
  }

  // --- From the caller's state ---

  function UsedSlots(code: Lin.Code): set<L.Loc> {
    set i, l | i in code && l in Lin.Operands(i) && l.S? :: l
  }

  /** Slots among the places where n arguments arrive. */
  function ArrivalSlots(n: nat): set<L.Loc> {
    set i: nat | i < n && ArgLocation(i).S? :: ArgLocation(i)
  }

  function SlotContents(layout: FrameLayout, slots: set<L.Loc>, stack: Stack): L.LocSet {
    map l | l in slots && l.S? :: Peek(stack, OffsetOf(layout, Slot(l)), l.ty)
  }

  function RegContents(regs: map<MReg, Val>): L.LocSet {
    map r | r in regs :: L.R(r) := regs[r]
  }

  /** What the locations hold when a function with n parameters is called: registers and stack as the caller left them. */
  function StartLocs(p: Plan, n: nat, regs: map<MReg, Val>, stack: Stack): L.LocSet {
    SlotContents(p.layout, UsedSlots(p.code) + ArrivalSlots(n), stack) + RegContents(regs)
  }

  lemma StartReg(p: Plan, n: nat, regs: map<MReg, Val>, stack: Stack, r: MReg)
    ensures Get(StartLocs(p, n, regs, stack), L.R(r)) == Get(regs, r)
  {
    assert L.R(r) in RegContents(regs) <==> r in regs;
  }

  lemma StartSlot(p: Plan, n: nat, regs: map<MReg, Val>, stack: Stack, l: L.Loc)
    requires l.S? && l in UsedSlots(p.code) + ArrivalSlots(n)
    ensures Get(StartLocs(p, n, regs, stack), l) == Peek(stack, OffsetOf(p.layout, Slot(l)), l.ty)
  {
    assert l !in RegContents(regs);
  }

  /** What a caller passes as argument i: in a register, or above the frame. */
  function PassedAt(regs: map<MReg, Val>, stack: Stack, i: nat): Val {
    if i < NUM_ARG_REGS then Get(regs, i) else Peek(stack, 16 + (i - NUM_ARG_REGS) * 8, L.Tlong)
  }

  lemma StartArgument(p: Plan, n: nat, regs: map<MReg, Val>, stack: Stack, i: nat)
    requires i < n
    ensures Get(StartLocs(p, n, regs, stack), ArgLocation(i)) == PassedAt(regs, stack, i)
  {
    if i < NUM_ARG_REGS {
      StartReg(p, n, regs, stack, i);
    } else {
      StartSlot(p, n, regs, stack, ArgLocation(i));
    }
  }

  /** The states after some steps from the caller's state t. */
  function LinearAt(w: World, n: nat, t: Machine, k: nat): Lin.State {
    Iterate(Lin.Stepper(w.o, w.p.code), Lin.Running(0, StartLocs(w.p, n, t.regs, t.stack), t.m, t.tr), k)
  }

  function MachAt(w: World, t: Machine, j: nat): State {
    Iterate(Stepper(w.o, w.p.layout, w.p.Output()), RunningAt(0, t), j)
  }

  /** After the prologue the Mach machine stands where the Linear one starts. */
  lemma PrologueMatches(w: World, n: nat, t: Machine)
    requires w.Valid() && w.entry == t.regs
    ensures Match(w, LinearAt(w, n, t, 0), MachAt(w, t, |w.p.save|))
  {
    assert SavesOn(w.p.regs, |w.p.regs|, w.p.save, w.o, w.p.layout, t);
    var u := ExecAll(w.o, w.p.layout, w.p.save, t).value;
    assert w.p.Output()[0..|w.p.save|] == w.p.save;
    RunStraight(w.o, w.p.layout, w.p.Output(), 0, w.p.save, t);
    assert w.p.pieces[..0] == [];
    StartHolds(w, n, t, u);
  }

  lemma StartHolds(w: World, n: nat, t: Machine, u: Machine)
    requires w.Valid() && w.entry == t.regs && Saved(w.p.regs, |w.p.regs|, t, u)
    ensures w.Agree(L.Machine(StartLocs(w.p, n, t.regs, t.stack), t.m, t.tr), u)
  {
    var ls := StartLocs(w.p, n, t.regs, t.stack);
    forall r | !IsTemp(r)
      ensures Get(u.regs, r) == Get(ls, L.R(r))
    {
      StartReg(w.p, n, t.regs, t.stack, r);
    }
    forall l | w.IsSlot(l)
      ensures Peek(u.stack, w.At(l), l.ty) == Get(ls, l)
    {
      var i :| i in w.p.code && l in Lin.Operands(i);
      assert l in UsedSlots(w.p.code);
      StartSlot(w.p, n, t.regs, t.stack, l);
      SlotsApart(w, l);
    }
  }

  /** The run of w's code from the caller's state ends in e. */
  ghost predicate LinearEnds(w: World, n: nat, t: Machine, e: Lin.State) {
    !e.Running? && exists k: nat :: LinearAt(w, n, t, k) == e
  }

  ghost predicate MachEnds(w: World, t: Machine, e: State) {
    !e.Running? && exists k: nat :: MachAt(w, t, k) == e
  }

  lemma MachGoesOn(w: World, t: Machine, j: nat, i: nat)
    ensures MachAt(w, t, j + i) == Iterate(Stepper(w.o, w.p.layout, w.p.Output()), MachAt(w, t, j), i)
  {
    IterateAdd(Stepper(w.o, w.p.layout, w.p.Output()), RunningAt(0, t), j, i);
  }

  lemma LinearGoesOn(w: World, n: nat, t: Machine, k: nat)
    ensures LinearAt(w, n, t, k) == Iterate(Lin.Stepper(w.o, w.p.code), LinearAt(w, n, t, 0), k)
  {
  }

  /** Some number of Mach steps, at least k, corresponds to k Linear ones. */
  ghost predicate KeepsPace(w: World, n: nat, t: Machine, k: nat)
    requires |w.p.pieces| == |w.p.code|
  {
    exists j: nat :: j >= k && Match(w, LinearAt(w, n, t, k), MachAt(w, t, j))
  }

  lemma RunsFromStart(w: World, n: nat, t: Machine, k: nat)
    requires w.Valid() && w.entry == t.regs
    ensures KeepsPace(w, n, t, k)
  {
    PrologueMatches(w, n, t);
    StackedRuns(w, LinearAt(w, n, t, 0), MachAt(w, t, |w.p.save|), k);
    var i: nat :| i >= k && Match(w, Iterate(Lin.Stepper(w.o, w.p.code), LinearAt(w, n, t, 0), k),
                                  Iterate(Stepper(w.o, w.p.layout, w.p.Output()), MachAt(w, t, |w.p.save|), i));
    MachGoesOn(w, t, |w.p.save|, i);
    LinearGoesOn(w, n, t, k);
    assert |w.p.save| + i >= k;
  }

  lemma MachStays(w: World, t: Machine, k: nat, j: nat)
    requires j >= k && !MachAt(w, t, k).Running?
    ensures MachAt(w, t, j) == MachAt(w, t, k)
  {
    MachGoesOn(w, t, k, j - k);
    EndStays(w.o, w.p.layout, w.p.Output(), MachAt(w, t, k), j - k);
  }

  lemma MatchingEnds(w: World, s: Lin.State, t: State)
    requires |w.p.pieces| == |w.p.code| && Match(w, s, t)
    ensures s.Running? <==> t.Running?
  {
  }

  /** However the function ends, it ends so after stacking, with the caller's registers restored. */
  lemma StackedEnds(w: World, n: nat, t: Machine, e: Lin.State) returns (f: State)
    requires w.Valid() && w.entry == t.regs && LinearEnds(w, n, t, e)
    ensures MachEnds(w, t, f) && Match(w, e, f)
  {
    var k: nat :| LinearAt(w, n, t, k) == e;
    RunsFromStart(w, n, t, k);
    var j: nat :| j >= k && Match(w, LinearAt(w, n, t, k), MachAt(w, t, j));
    f := MachAt(w, t, j);
    MatchingEnds(w, e, f);
  }

  /** And it does not end in any other way. */
  lemma EndsBefore(w: World, n: nat, t: Machine, e: State) returns (f: Lin.State)
    requires w.Valid() && w.entry == t.regs && MachEnds(w, t, e)
    ensures LinearEnds(w, n, t, f) && Match(w, f, e)
  {
    var k: nat :| MachAt(w, t, k) == e;
    RunsFromStart(w, n, t, k);
    var j: nat :| j >= k && Match(w, LinearAt(w, n, t, k), MachAt(w, t, j));
    MachStays(w, t, k, j);
    f := LinearAt(w, n, t, k);
    MatchingEnds(w, f, e);
  }

  // --- Runs that do not end ---

  lemma TraceGrows(w: World, t: State)
    requires !Step(w.o, w.p.layout, w.p.Output(), t).Stuck?
    ensures !t.Stuck? && t.tr <= Step(w.o, w.p.layout, w.p.Output(), t).tr
  {
  }

  lemma {:induction false} TraceGrowsOn(w: World, t: State, k: nat)
    requires !Iterate(Stepper(w.o, w.p.layout, w.p.Output()), t, k).Stuck?
    ensures !t.Stuck? && t.tr <= Iterate(Stepper(w.o, w.p.layout, w.p.Output()), t, k).tr
    decreases k
  {
    if k > 0 {
      TraceGrowsOn(w, Step(w.o, w.p.layout, w.p.Output(), t), k - 1);
      TraceGrows(w, t);
    }
  }

  /** The run has come so far without getting stuck. */
  ghost predicate LinearEmits(w: World, n: nat, t: Machine, tr: Trace) {
    exists k: nat :: !LinearAt(w, n, t, k).Stuck? && tr <= LinearAt(w, n, t, k).tr
  }

  ghost predicate MachEmits(w: World, t: Machine, tr: Trace) {
    exists k: nat :: !MachAt(w, t, k).Stuck? && tr <= MachAt(w, t, k).tr
  }

  lemma MatchingTraces(w: World, s: Lin.State, t: State)
    requires |w.p.pieces| == |w.p.code| && Match(w, s, t)
    ensures (s.Stuck? <==> t.Stuck?) && (!s.Stuck? ==> s.tr == t.tr)
  {
  }

  /** Unless the code gets stuck, the same is called and built in, be it forever. */
  lemma StackedEmits(w: World, n: nat, t: Machine, tr: Trace)
    requires w.Valid() && w.entry == t.regs && forall k: nat :: !LinearAt(w, n, t, k).Stuck?
    ensures LinearEmits(w, n, t, tr) <==> MachEmits(w, t, tr)
  {
    if LinearEmits(w, n, t, tr) {
      var k: nat :| !LinearAt(w, n, t, k).Stuck? && tr <= LinearAt(w, n, t, k).tr;
      RunsFromStart(w, n, t, k);
      var j: nat :| j >= k && Match(w, LinearAt(w, n, t, k), MachAt(w, t, j));
      MatchingTraces(w, LinearAt(w, n, t, k), MachAt(w, t, j));
    }
    if MachEmits(w, t, tr) {
      var k: nat :| !MachAt(w, t, k).Stuck? && tr <= MachAt(w, t, k).tr;
      RunsFromStart(w, n, t, k);
      var j: nat :| j >= k && Match(w, LinearAt(w, n, t, k), MachAt(w, t, j));
      MatchingTraces(w, LinearAt(w, n, t, k), MachAt(w, t, j));
      TraceStays(w, t, k, j);
      assert tr <= LinearAt(w, n, t, k).tr;
    }
  }

  lemma TraceStays(w: World, t: Machine, k: nat, j: nat)
    requires j >= k && !MachAt(w, t, j).Stuck?
    ensures !MachAt(w, t, k).Stuck? && MachAt(w, t, k).tr <= MachAt(w, t, j).tr
  {
    MachGoesOn(w, t, k, j - k);
    TraceGrowsOn(w, MachAt(w, t, k), j - k);
  }
}
