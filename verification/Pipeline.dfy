/** The passes from CminorSel, through RTL and register allocation, to Linear code. */
module Pipeline {
  import opened Values
  import opened RTL
  import opened Runs
  import opened Liveness
  import opened Interference
  import opened Conventions
  import opened Params
  import opened Coloring
  import opened Irc
  import opened Moves
  import opened RegMoves
  import opened RegTransform
  import opened CallMoves
  import Rounds
  import L = LTL
  import Lin = Linear
  import Linearize
  import Backend
  import CminorSel
  import Gen
  import GenCalls
  import GenExprs
  import GenFunction

  /** The LTL function that an allocation makes. */
  function LtlOf(fn: Function, alloc: Places, moves: seq<Move>): L.Function {
    L.Function(ArrivalPlaces(|fn.params|), WithEntryMoves(TransformCode(fn.code, alloc), fn.entry, moves), fn.entry)
  }

  /** Every call has its operands where the argument moves can cope. */
  ghost predicate CallsSafe(fn: Function, alloc: Places) {
    forall n | n in fn.code && fn.code[n].Icall? :: InstrSafe(fn.code[n], alloc)
  }

  ghost predicate InstrSafe(i: Instr, alloc: Places) {
    i.Icall? ==> OperandsSafe(i.sig, TransformCallee(i.fn, alloc), TransformRegs(i.args, alloc))
  }

  lemma BlockIsSafe(i: Instr, alloc: Places)
    requires InstrSafe(i, alloc)
    ensures Linearize.IsSafeBlock(TransformInstr(i, alloc))
  {
  }

  lemma MovesAreSafe(moves: seq<Move>, b: L.Block)
    requires Linearize.IsSafeBlock(b)
    ensures Linearize.IsSafeBlock(MoveInstrs(moves) + b)
  {
    var c := MoveInstrs(moves) + b;
    forall i | 0 <= i < |c| - 1
      ensures Linearize.IsBodyInstr(c[i])
    {
      if i < |moves| {
        assert c[i] == MoveInstr(moves[i]);
      } else {
        assert c[i] == b[i - |moves|];
      }
    }
  }

  lemma AllBlocksSafe(fn: Function, alloc: Places, moves: seq<Move>)
    requires CallsSafe(fn, alloc)
    ensures Backend.ReachableSafe(LtlOf(fn, alloc, moves))
  {
    forall n | n in fn.code
      ensures Linearize.IsSafeBlock(LtlOf(fn, alloc, moves).code[n])
    {
      BlockIsSafe(fn.code[n], alloc);
      MovesAreSafe(moves, TransformInstr(fn.code[n], alloc));
    }
  }

  /** What the compiled code owes to. */
  ghost predicate CompiledBy(fn: Function, out: Lin.Code, info: LivenessInfo, alloc: Places, moves: seq<Move>) {
    && IsSolution(fn.code, info) && IsLeast(fn.code, info) && GoodAllocation(fn, info, alloc)
    && Distinct(fn.params)
    && IsParallel(moves, NeededMoves(ArrivalPlaces(|fn.params|), ParamPlaces(fn.params, alloc))) && MovesParams(moves, fn, alloc)
    && Backend.IsTransformed(LtlOf(fn, alloc, moves), out)
  }

  /** All the passes. */
  method CompileFunction(fn: Function, rounds: nat)
    returns (result: Option<Lin.Code>, ghost info: LivenessInfo, ghost alloc: Places, ghost moves: seq<Move>, ghost run: seq<Rounds.Snapshot>)
    ensures LoopRun(fn, info, rounds, run) && (result.Some? <==> Rounds.Last(run).IsIdle())
    ensures result.Some? && ParamsKeepPlaces(fn, LiveOutOfCalls(fn.code, info, fn.code.Keys)) ==>
      CompiledBy(fn, result.value, info, alloc, moves)
  {
    var ltl, info', alloc', moves', run' := TransformFunction(fn, rounds);
    info, alloc, moves, run := info', alloc', moves', run';
    if ltl.None? {
      return None, info, alloc, moves, run;
    }
    var linear := Backend.Transform(ltl.value);
    return Some(linear.code), info, alloc, moves, run;
  }

  // --- The theorem ---

  /** An RTL run has ended, and the Linear machine in the same way. */
  ghost predicate SameEnd(s: State, e: Lin.State) {
    match s
    case Running(_, _, _, _) => false
    case Returned(res, m, tr) => e.Returned? && e.m == m && e.tr == tr && (res.Some? ==> Get(e.ls, RETURN_LOCATION) == res.value)
    case TailCalled(callee, _, m, tr) => e == Lin.TailCalled(callee, m, tr)
    case Stuck => e.Stuck?
  }

  ghost predicate RtlEnds(o: Oracle, fn: Function, s: State, e: Lin.State) {
    exists k: nat :: SameEnd(Iterate(Stepper(o, fn.code), s, k), e)
  }

  lemma MatchingEnds(info: LivenessInfo, alloc: Places, s: State, t: L.State)
    requires Match(info, alloc, s, t)
    ensures s.Running? <==> Backend.Final(t).None?
    ensures !s.Running? ==> SameEnd(s, Backend.Final(t).value)
  {
  }

  /** RTL and LTL end alike. */
  lemma LtlEndsAlike(o: Oracle, fn: Function, info: LivenessInfo, alloc: Places, moves: seq<Move>,
                                        rs: RegFile, s: L.Machine)
    requires IsSolution(fn.code, info) && GoodAllocation(fn, info, alloc) && EnteredOnce(fn, moves)
    requires Agree(rs, CopyAll(moves, s.ls), alloc, At(info.liveIn, fn.entry))
    ensures var ltl, s0, t0 := LtlOf(fn, alloc, moves), Running(fn.entry, rs, s.m, s.tr), L.Running(fn.entry, s.ls, s.m, s.tr);
      && (forall e | Backend.LtlEnds(o, ltl.code, t0, e) :: RtlEnds(o, fn, s0, e))
      && (forall k: nat | !Iterate(Stepper(o, fn.code), s0, k).Running? ::
            exists e :: SameEnd(Iterate(Stepper(o, fn.code), s0, k), e) && Backend.LtlEnds(o, ltl.code, t0, e))
  {
    var ltl := LtlOf(fn, alloc, moves);
    var f, g, s0, t0 := Stepper(o, fn.code), L.Stepper(o, ltl.code), Running(fn.entry, rs, s.m, s.tr), L.Running(fn.entry, s.ls, s.m, s.tr);
    forall e | Backend.LtlEnds(o, ltl.code, t0, e)
      ensures RtlEnds(o, fn, s0, e)
    {
      var k: nat :| Backend.Final(Iterate(g, t0, k)) == Some(e);
      RunFromEntry(o, fn, info, alloc, moves, rs, s.ls, s.m, s.tr, k);
      MatchingEnds(info, alloc, Iterate(f, s0, k), Iterate(g, t0, k));
    }
    forall k: nat | !Iterate(f, s0, k).Running?
      ensures exists e :: SameEnd(Iterate(f, s0, k), e) && Backend.LtlEnds(o, ltl.code, t0, e)
    {
      RunFromEntry(o, fn, info, alloc, moves, rs, s.ls, s.m, s.tr, k);
      MatchingEnds(info, alloc, Iterate(f, s0, k), Iterate(g, t0, k));
      var e := Backend.Final(Iterate(g, t0, k)).value;
      assert SameEnd(Iterate(f, s0, k), e) && Backend.LtlEnds(o, ltl.code, t0, e);
    }
  }

  // --- Runs that may not end ---

  ghost predicate HasTrace(s: State, tr: Trace) {
    !s.Stuck? && tr <= s.tr
  }

  ghost predicate RtlEmits(o: Oracle, fn: Function, s: State, tr: Trace) {
    exists k: nat :: HasTrace(Iterate(Stepper(o, fn.code), s, k), tr)
  }

  ghost predicate RtlNeverStuck(o: Oracle, fn: Function, s: State) {
    forall k: nat :: !Iterate(Stepper(o, fn.code), s, k).Stuck?
  }

  /** RTL and LTL have the same trace after as many steps. */
  lemma SameTraceAfter(o: Oracle, fn: Function, info: LivenessInfo, alloc: Places, moves: seq<Move>,
                                          rs: RegFile, s: L.Machine, k: nat)
    requires IsSolution(fn.code, info) && GoodAllocation(fn, info, alloc) && EnteredOnce(fn, moves)
    requires Agree(rs, CopyAll(moves, s.ls), alloc, At(info.liveIn, fn.entry))
    ensures var (x, y) := (Iterate(Stepper(o, fn.code), Running(fn.entry, rs, s.m, s.tr), k),
                           Iterate(L.Stepper(o, LtlOf(fn, alloc, moves).code), L.Running(fn.entry, s.ls, s.m, s.tr), k));
      (x.Stuck? <==> y.Stuck?) && (!x.Stuck? ==> x.tr == y.tr)
  {
    RunFromEntry(o, fn, info, alloc, moves, rs, s.ls, s.m, s.tr, k);
  }

  lemma LtlEmitsAlike(o: Oracle, fn: Function, info: LivenessInfo, alloc: Places, moves: seq<Move>,
                                         rs: RegFile, s: L.Machine, tr: Trace)
    requires IsSolution(fn.code, info) && GoodAllocation(fn, info, alloc) && EnteredOnce(fn, moves)
    requires Agree(rs, CopyAll(moves, s.ls), alloc, At(info.liveIn, fn.entry))
    ensures RtlEmits(o, fn, Running(fn.entry, rs, s.m, s.tr), tr) <==>
            Backend.LtlEmits(o, LtlOf(fn, alloc, moves).code, L.Running(fn.entry, s.ls, s.m, s.tr), tr)
  {
    var f, s0 := Stepper(o, fn.code), Running(fn.entry, rs, s.m, s.tr);
    var g, t0 := L.Stepper(o, LtlOf(fn, alloc, moves).code), L.Running(fn.entry, s.ls, s.m, s.tr);
    forall k: nat
      ensures HasTrace(Iterate(f, s0, k), tr) <==> Backend.LtlHasTrace(Iterate(g, t0, k), tr)
    {
      SameTraceAfter(o, fn, info, alloc, moves, rs, s, k);
    }
  }

  lemma LtlNeverStuckEither(o: Oracle, fn: Function, info: LivenessInfo, alloc: Places, moves: seq<Move>,
                                               rs: RegFile, s: L.Machine)
    requires IsSolution(fn.code, info) && GoodAllocation(fn, info, alloc) && EnteredOnce(fn, moves)
    requires Agree(rs, CopyAll(moves, s.ls), alloc, At(info.liveIn, fn.entry))
    requires RtlNeverStuck(o, fn, Running(fn.entry, rs, s.m, s.tr))
    ensures Backend.LtlNeverStuck(o, LtlOf(fn, alloc, moves).code, L.Running(fn.entry, s.ls, s.m, s.tr))
  {
    forall k: nat
      ensures !Iterate(L.Stepper(o, LtlOf(fn, alloc, moves).code), L.Running(fn.entry, s.ls, s.m, s.tr), k).Stuck?
    {
      SameTraceAfter(o, fn, info, alloc, moves, rs, s, k);
    }
  }

  // --- RTL to Linear ---

  /** The RTL function and the Linear code end alike. */
  ghost predicate EndsAlike(o: Oracle, fn: Function, s0: State, out: Lin.Code, t0: Lin.State) {
    && (forall e | Backend.LinearEnds(o, out, t0, e) :: RtlEnds(o, fn, s0, e))
    && (forall k: nat | !Iterate(Stepper(o, fn.code), s0, k).Running? ::
          exists e :: SameEnd(Iterate(Stepper(o, fn.code), s0, k), e) && Backend.LinearEnds(o, out, t0, e))
  }

  /** Nothing is called or built in that the other does not, in the same order, be it forever. */
  ghost predicate EmitsAlike(o: Oracle, fn: Function, s0: State, out: Lin.Code, t0: Lin.State) {
    forall tr :: RtlEmits(o, fn, s0, tr) <==> Backend.Emits(o, out, t0, tr)
  }

  lemma CompiledEndsAlike(o: Oracle, fn: Function, out: Lin.Code, info: LivenessInfo, alloc: Places,
                                             moves: seq<Move>, rs: RegFile, s: L.Machine)
    requires CompiledBy(fn, out, info, alloc, moves) && CallsSafe(fn, alloc) && EnteredOnce(fn, moves) && fn.entry in fn.code
    requires Agree(rs, CopyAll(moves, s.ls), alloc, At(info.liveIn, fn.entry))
    ensures EndsAlike(o, fn, Running(fn.entry, rs, s.m, s.tr), out, Lin.RunningAt(0, s))
  {
    LtlEndsAlike(o, fn, info, alloc, moves, rs, s);
    AllBlocksSafe(fn, alloc, moves);
    forall e
      ensures Backend.LtlEnds(o, LtlOf(fn, alloc, moves).code, L.Running(fn.entry, s.ls, s.m, s.tr), e) <==>
              Backend.LinearEnds(o, out, Lin.RunningAt(0, s), e)
    {
      Backend.TransformPreservesMeaning(o, LtlOf(fn, alloc, moves), out, s, e);
    }
  }

  lemma CompiledEmitsAlike(o: Oracle, fn: Function, out: Lin.Code, info: LivenessInfo, alloc: Places,
                                              moves: seq<Move>, rs: RegFile, s: L.Machine)
    requires CompiledBy(fn, out, info, alloc, moves) && CallsSafe(fn, alloc) && EnteredOnce(fn, moves) && fn.entry in fn.code
    requires Agree(rs, CopyAll(moves, s.ls), alloc, At(info.liveIn, fn.entry))
    requires RtlNeverStuck(o, fn, Running(fn.entry, rs, s.m, s.tr))
    ensures EmitsAlike(o, fn, Running(fn.entry, rs, s.m, s.tr), out, Lin.RunningAt(0, s))
  {
    LtlNeverStuckEither(o, fn, info, alloc, moves, rs, s);
    AllBlocksSafe(fn, alloc, moves);
    forall tr
      ensures RtlEmits(o, fn, Running(fn.entry, rs, s.m, s.tr), tr) <==> Backend.Emits(o, out, Lin.RunningAt(0, s), tr)
    {
      LtlEmitsAlike(o, fn, info, alloc, moves, rs, s, tr);
      Backend.TransformPreservesTraces(o, LtlOf(fn, alloc, moves), out, s, tr);
    }
  }

  /** Compilation preserves meaning: for every oracle and every start, from registers that hold the arguments the
      RTL function ends if and only if the Linear code does, with the same result, memory and trace; and if it never
      gets stuck, the traces agree even if it never ends. */
  lemma CompilationPreservesMeaning(o: Oracle, fn: Function, out: Lin.Code, info: LivenessInfo, alloc: Places,
                                                       moves: seq<Move>, s: L.Machine)
    returns (rs: RegFile)
    requires CompiledBy(fn, out, info, alloc, moves) && CallsSafe(fn, alloc) && EnteredOnce(fn, moves) && fn.entry in fn.code
    ensures forall i | 0 <= i < |fn.params| :: Get(rs, fn.params[i]) == Get(s.ls, ArgLocation(i))
    ensures EndsAlike(o, fn, Running(fn.entry, rs, s.m, s.tr), out, Lin.RunningAt(0, s))
    ensures RtlNeverStuck(o, fn, Running(fn.entry, rs, s.m, s.tr)) ==>
      EmitsAlike(o, fn, Running(fn.entry, rs, s.m, s.tr), out, Lin.RunningAt(0, s))
  {
    rs := StartRegs(fn, alloc, s.ls, CopyAll(moves, s.ls));
    forall i | 0 <= i < |fn.params|
      ensures Get(rs, fn.params[i]) == Get(s.ls, ArgLocation(i))
    {
      StartHoldsArguments(fn, alloc, s.ls, CopyAll(moves, s.ls), i);
    }
    StartMatches(fn, info, alloc, moves, s.ls);
    CompiledEndsAlike(o, fn, out, info, alloc, moves, rs, s);
    if RtlNeverStuck(o, fn, Running(fn.entry, rs, s.m, s.tr)) {
      CompiledEmitsAlike(o, fn, out, info, alloc, moves, rs, s);
    }
  }

  // --- From CminorSel ---

  lemma {:induction false} StuckForGood(o: Oracle, code: Code, k: nat)
    ensures Iterate(Stepper(o, code), Stuck, k) == Stuck
    decreases k
  {
    if k == 0 {
    } else {
      StuckForGood(o, code, k - 1);
    }
  }

  /** Without an instruction to start with, a run gets nowhere. */
  lemma NoCodeSticks(o: Oracle, fn: Function, rs: RegFile, m: Mem, tr: Trace, k: nat)
    requires fn.entry !in fn.code
    ensures var t := Iterate(Stepper(o, fn.code), Running(fn.entry, rs, m, tr), k); t.Running? || t.Stuck?
  {
    var f, s := Stepper(o, fn.code), Running(fn.entry, rs, m, tr);
    assert f(s) == Stuck;
    if k > 0 {
      StuckForGood(o, fn.code, k - 1);
      assert Iterate(f, s, k) == Iterate(f, Stuck, k - 1);
    }
  }

  /** Only parameters are live at the entry: no variable is read before it is written. */
  ghost predicate NothingUndefined(fn: Function, info: LivenessInfo) {
    At(info.liveIn, fn.entry) <= Elements(fn.params)
  }

  lemma SameStart(fn: Function, info: LivenessInfo, args: seq<Val>, rs: RegFile, m: Mem, tr: Trace)
    requires NothingUndefined(fn, info) && |fn.params| == |args| && GetAll(GenFunction.ArgRegs(args), fn.params) == args
    requires forall i | 0 <= i < |args| :: Get(rs, fn.params[i]) == args[i]
    ensures SameRun(info, Running(fn.entry, GenFunction.ArgRegs(args), m, tr), Running(fn.entry, rs, m, tr))
  {
    forall r | r in At(info.liveIn, fn.entry)
      ensures Get(GenFunction.ArgRegs(args), r) == Get(rs, r)
    {
      var i :| 0 <= i < |fn.params| && fn.params[i] == r;
      assert Get(GenFunction.ArgRegs(args), fn.params[i]) == GetAll(GenFunction.ArgRegs(args), fn.params)[i];
    }
  }

  lemma EntryIsThere(o: Oracle, fn: Function, rs: RegFile, m: Mem, tr: Trace, k: nat)
    requires var t := Iterate(Stepper(o, fn.code), Running(fn.entry, rs, m, tr), k); !t.Running? && !t.Stuck?
    ensures fn.entry in fn.code
  {
    if fn.entry !in fn.code {
      NoCodeSticks(o, fn, rs, m, tr, k);
    }
  }

  lemma EndMeets(o: Oracle, fn: Function, s0: State, out: Lin.Code, t0: Lin.State, k: nat, e: State)
    requires EndsAlike(o, fn, s0, out, t0) && Iterate(Stepper(o, fn.code), s0, k) == e && !e.Running?
    ensures exists e' :: SameEnd(e, e') && Backend.LinearEnds(o, out, t0, e')
  {
  }

  lemma SameEndFrom(o: Oracle, fn: Function, info: LivenessInfo, s0: State, s1: State, k: nat, e: State)
    requires IsSolution(fn.code, info) && SameRun(info, s0, s1) && Iterate(Stepper(o, fn.code), s0, k) == e && !e.Running?
    ensures Iterate(Stepper(o, fn.code), s1, k) == e
  {
    LivenessSound(o, fn.code, info, s0, s1, k);
  }

  /** A run of the RTL function on some arguments ends as the Linear code does. */
  lemma CompiledRunEnds(o: Oracle, fn: Function, args: seq<Val>, k: nat, e: State,
                                           out: Lin.Code, info: LivenessInfo, alloc: Places, moves: seq<Move>, s: L.Machine)
    requires CompiledBy(fn, out, info, alloc, moves) && CallsSafe(fn, alloc) && EnteredOnce(fn, moves) && NothingUndefined(fn, info)
    requires |fn.params| == |args| && GetAll(GenFunction.ArgRegs(args), fn.params) == args
    requires forall i | 0 <= i < |args| :: Get(s.ls, ArgLocation(i)) == args[i]
    requires Iterate(Stepper(o, fn.code), Running(fn.entry, GenFunction.ArgRegs(args), s.m, s.tr), k) == e && !e.Running? && !e.Stuck?
    ensures exists e' :: SameEnd(e, e') && Backend.LinearEnds(o, out, Lin.RunningAt(0, s), e')
  {
    var rs0 := GenFunction.ArgRegs(args);
    var s0 := Running(fn.entry, rs0, s.m, s.tr);
    EntryIsThere(o, fn, rs0, s.m, s.tr, k);
    var rs := CompilationPreservesMeaning(o, fn, out, info, alloc, moves, s);
    SameStart(fn, info, args, rs, s.m, s.tr);
    SameEndFrom(o, fn, info, s0, Running(fn.entry, rs, s.m, s.tr), k, e);
    EndMeets(o, fn, Running(fn.entry, rs, s.m, s.tr), out, Lin.RunningAt(0, s), k, e);
  }

  /** The compiler preserves meaning: if a CminorSel function, called with some arguments, ends, then the Linear code
      made from it, started with the arguments in their places, ends with the same result, memory and trace. */
  lemma CompilerPreservesMeaning(o: Oracle, src: CminorSel.Function, args: seq<Val>, env: CminorSel.Env, fuel: nat,
                                                    r: CminorSel.Result, fn: Function, out: Lin.Code, info: LivenessInfo,
                                                    alloc: Places, moves: seq<Move>, s: L.Machine)
    requires GenExprs.IntConstants(o) && GenFunction.DistinctNames(src.params) && |args| == |src.params| && CminorSel.StmtOk(src.body, 0)
    requires GenFunction.IsCallEnv(src.params, args, env) && CminorSel.Exec(o, fuel, src.body, env, s.m, s.tr) == Some(r)
    requires fn == Gen.TransFunction(src)
    requires CompiledBy(fn, out, info, alloc, moves) && CallsSafe(fn, alloc) && EnteredOnce(fn, moves) && NothingUndefined(fn, info)
    requires forall i | 0 <= i < |args| :: Get(s.ls, ArgLocation(i)) == args[i]
    ensures exists e :: SameEnd(GenFunction.EndState(r), e) && Backend.LinearEnds(o, out, Lin.RunningAt(0, s), e)
  {
    var k := RtlEndsFirst(o, src, args, env, fuel, r, fn, s.m, s.tr);
    CompiledRunEnds(o, fn, args, k, GenFunction.EndState(r), out, info, alloc, moves, s);
  }

  lemma RtlEndsFirst(o: Oracle, src: CminorSel.Function, args: seq<Val>, env: CminorSel.Env, fuel: nat,
                                        r: CminorSel.Result, fn: Function, m: Mem, tr: Trace)
    returns (k: nat)
    requires GenExprs.IntConstants(o) && GenFunction.DistinctNames(src.params) && |args| == |src.params| && CminorSel.StmtOk(src.body, 0)
    requires GenFunction.IsCallEnv(src.params, args, env) && CminorSel.Exec(o, fuel, src.body, env, m, tr) == Some(r)
    requires fn == Gen.TransFunction(src)
    ensures |fn.params| == |args| && GetAll(GenFunction.ArgRegs(args), fn.params) == args
    ensures Iterate(Stepper(o, fn.code), Running(fn.entry, GenFunction.ArgRegs(args), m, tr), k) == GenFunction.EndState(r)
    ensures !GenFunction.EndState(r).Running? && !GenFunction.EndState(r).Stuck?
  {
    GenFunction.FunctionRuns(o, src, args, env, fuel, m, tr, r);
    k :| Iterate(Stepper(o, fn.code), Running(fn.entry, GenFunction.ArgRegs(args), m, tr), k) == GenFunction.EndState(r);
  }

  // --- Which calls are safe ---

  /** Calls by name with at most eight arguments are safe whatever the allocation. */
  lemma ByNameIsSafe(fn: Function, alloc: Places)
    requires GenCalls.AllByName(fn.code)
    ensures CallsSafe(fn, alloc)
  {
    forall n | n in fn.code && fn.code[n].Icall?
      ensures InstrSafe(fn.code[n], alloc)
    {
      var i := fn.code[n];
      assert GenCalls.IsByName(i);
      DirectCallIsSafe(i.sig, i.fn.name, TransformRegs(i.args, alloc));
    }
  }

  /** For source code whose calls are by name with at most eight arguments, nothing is asked about where the operands
      of calls are. */
  lemma CompilerPreservesCallsByName(o: Oracle, src: CminorSel.Function, args: seq<Val>, env: CminorSel.Env, fuel: nat,
                                                        r: CminorSel.Result, fn: Function, out: Lin.Code, info: LivenessInfo,
                                                        alloc: Places, moves: seq<Move>, s: L.Machine)
    requires GenExprs.IntConstants(o) && GenFunction.DistinctNames(src.params) && |args| == |src.params| && CminorSel.StmtOk(src.body, 0)
    requires GenFunction.IsCallEnv(src.params, args, env) && CminorSel.Exec(o, fuel, src.body, env, s.m, s.tr) == Some(r)
    requires fn == Gen.TransFunction(src) && GenCalls.CallsByName(src.body)
    requires CompiledBy(fn, out, info, alloc, moves) && EnteredOnce(fn, moves) && NothingUndefined(fn, info)
    requires forall i | 0 <= i < |args| :: Get(s.ls, ArgLocation(i)) == args[i]
    ensures exists e :: SameEnd(GenFunction.EndState(r), e) && Backend.LinearEnds(o, out, Lin.RunningAt(0, s), e)
  {
    GenCalls.FunctionCalls(src);
    ByNameIsSafe(fn, alloc);
    CompilerPreservesMeaning(o, src, args, env, fuel, r, fn, out, info, alloc, moves, s);
  }
}
