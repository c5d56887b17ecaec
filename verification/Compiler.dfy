/** From CminorSel to Mach: the whole function, as its caller sees it. */
module Compiler {
  import opened Values
  import opened Conventions
  import opened Frame
  import opened Mach
  import opened Prolog
  import opened Stacking
  import opened StackingProof
  import opened StackingRuns
  import opened Words
  import opened Params
  import opened Pipeline
  import OutputWords
  import Backend
  import CminorSel
  import Coloring
  import Gen
  import GenCalls
  import GenExprs
  import GenFunction
  import Interference
  import Irc
  import Liveness
  import Moves
  import RegTransform
  import Rounds
  import RtlGen
  import Runs
  import L = LTL
  import Lin = Linear
  import R = RTL

  // --- What is left to ask of the Linear code ---

  /** Slots fit into the frame, all callee-saved registers written are saved, and tail calls do not go through these. */
  ghost predicate StackOk(p: Plan) {
    AllFit(p.layout, p.code) && SavesEnough(p.code, p.regs) && TailCallsSafe(p.code, p.regs)
  }

  /** For compiled code, that is all. */
  lemma WordsSuffice(p: Plan)
    requires StackOk(p) && CodeIsWords(p.code)
    ensures CodeOk(p)
  {
    forall i, l | i in p.code && l in Lin.Operands(i)
      ensures IsOperand(l) && IsWord(l)
    {
    }
    forall a, b | Uses(p.code, a) && Uses(p.code, b) && a != b
      ensures Differ(Slot(a), Slot(b))
    {
      UsedIsWord(p.code, a);
      UsedIsWord(p.code, b);
    }
  }

  lemma UsedIsWord(code: Lin.Code, l: L.Loc)
    requires CodeIsWords(code) && Uses(code, l)
    ensures IsWordSlot(l)
  {
    var i :| i in code && l in Lin.Operands(i);
    assert IsWord(l);
  }

  // --- The compiler ---

  /** All the passes. */
  method Compile(src: CminorSel.Function, rounds: nat)
    returns (out: Option<Code>, ghost fn: R.Function, ghost info: Liveness.LivenessInfo, ghost alloc: Coloring.Places,
             ghost moves: seq<Moves.Move>, ghost run: seq<Rounds.Snapshot>, ghost p: Plan)
    ensures fn == Gen.TransFunction(src) && Irc.LoopRun(fn, info, rounds, run)
    ensures out.Some? <==> Rounds.Last(run).IsIdle() && forall i | i in p.code :: IsLowerable(i)
    ensures out.Some? ==> p.Valid() && out.value == p.Output()
    ensures Rounds.Last(run).IsIdle() && ParamsKeepPlaces(fn, Interference.LiveOutOfCalls(fn.code, info, fn.code.Keys)) ==>
      CompiledBy(fn, p.code, info, alloc, moves)
  {
    var rtl := RtlGen.TranslateFunction(src);
    fn := rtl;
    var linear, i, a, m, r := CompileFunction(rtl, rounds);
    info, alloc, moves, run := i, a, m, r;
    p := Plan([], [], FrameLayout(0, 0, 0, 0, 0), [], [], []);
    if linear.None? {
      return None, fn, info, alloc, moves, run, p;
    }
    var mach, plan := Transform(linear.value);
    return mach, fn, info, alloc, moves, run, plan;
  }

  // --- What the caller sees ---

  /** The Mach function has ended as the RTL function, and the caller has its callee-saved registers back. */
  ghost predicate EndsLike(s: R.State, entry: map<MReg, Val>, f: State) {
    match s
    case Running(_, _, _, _) => false
    case Returned(res, m, tr) =>
      && f.Returned? && f.m == m && f.tr == tr && CalleeSavedKept(entry, f.regs)
      && (res.Some? ==> Get(f.regs, L.X0) == res.value)
    case TailCalled(callee, _, m, tr) => f.TailCalled? && f.callee == callee && f.m == m && f.tr == tr && CalleeSavedKept(entry, f.regs)
    case Stuck => f.Stuck?
  }

  lemma EndsCompose(w: World, s: R.State, e: Lin.State, f: State)
    requires |w.p.pieces| == |w.p.code| && SameEnd(s, e) && Match(w, e, f)
    ensures EndsLike(s, w.entry, f)
  {
    if e.Returned? {
      assert !IsTemp(L.X0) && !L.IsCalleeSaved(L.X0);
    }
  }

  /** What a caller passes. */
  ghost predicate Passes(t: Machine, args: seq<Val>) {
    forall i | 0 <= i < |args| :: PassedAt(t.regs, t.stack, i) == args[i]
  }

  lemma LinearStart(w: World, n: nat, t: Machine) returns (s: L.Machine)
    ensures s.m == t.m && s.tr == t.tr && forall e :: Backend.LinearEnds(w.o, w.p.code, Lin.RunningAt(0, s), e) ==> LinearEnds(w, n, t, e)
    ensures forall i | 0 <= i < n :: Get(s.ls, ArgLocation(i)) == PassedAt(t.regs, t.stack, i)
  {
    s := L.Machine(StartLocs(w.p, n, t.regs, t.stack), t.m, t.tr);
    forall i | 0 <= i < n
      ensures Get(s.ls, ArgLocation(i)) == PassedAt(t.regs, t.stack, i)
    {
      StartArgument(w.p, n, t.regs, t.stack, i);
    }
    forall e | Backend.LinearEnds(w.o, w.p.code, Lin.RunningAt(0, s), e)
      ensures LinearEnds(w, n, t, e)
    {
      var k: nat :| Runs.Iterate(Lin.Stepper(w.o, w.p.code), Lin.RunningAt(0, s), k) == e;
      assert LinearAt(w, n, t, k) == e;
    }
  }

  /** If a CminorSel function ends when called with some arguments, then the Mach code made from it, entered with the
      arguments where callers put them, ends with the same result, memory and trace, and with the caller's callee-saved
      registers. */
  lemma CompilerKeepsConventions(o: Oracle, src: CminorSel.Function, args: seq<Val>, env: CminorSel.Env, fuel: nat,
                                 r: CminorSel.Result, fn: R.Function, info: Liveness.LivenessInfo, alloc: Coloring.Places,
                                 moves: seq<Moves.Move>, p: Plan, t: Machine)
    returns (f: State)
    requires GenExprs.IntConstants(o) && GenFunction.DistinctNames(src.params) && |args| == |src.params| && CminorSel.StmtOk(src.body, 0)
    requires GenFunction.IsCallEnv(src.params, args, env) && CminorSel.Exec(o, fuel, src.body, env, t.m, t.tr) == Some(r)
    requires fn == Gen.TransFunction(src) && CompiledBy(fn, p.code, info, alloc, moves)
    requires CallsSafe(fn, alloc) && RegTransform.EnteredOnce(fn, moves) && NothingUndefined(fn, info)
    requires p.Valid() && StackOk(p) && Passes(t, args)
    ensures MachEnds(World(o, p, t.regs), t, f) && EndsLike(GenFunction.EndState(r), t.regs, f)
  {
    var w := World(o, p, t.regs);
    OutputWords.CompiledWords(fn, p.code, info, alloc, moves);
    WordsSuffice(p);
    var s := LinearStart(w, |args|, t);
    CompilerPreservesMeaning(o, src, args, env, fuel, r, fn, p.code, info, alloc, moves, s);
    var e :| SameEnd(GenFunction.EndState(r), e) && Backend.LinearEnds(o, p.code, Lin.RunningAt(0, s), e);
    f := StackedEnds(w, |args|, t, e);
    EndsCompose(w, GenFunction.EndState(r), e, f);
  }
}
