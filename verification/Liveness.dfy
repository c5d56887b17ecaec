/** Liveness analysis (pkg/regalloc/liveness.go). */
module Liveness {
  import opened Values
  import opened RTL
  import opened Runs

  type LiveMap = map<Node, set<Reg>>

  /** Live sets before and after every node. */
  datatype LivenessInfo = LivenessInfo(liveIn: LiveMap, liveOut: LiveMap)

  function Elements(rs: seq<Reg>): set<Reg> {
    set r | r in rs
  }

  lemma ElementsAppend(a: seq<Reg>, b: seq<Reg>)
    ensures Elements(a + b) == Elements(a) + Elements(b)
  {
    assert forall r | r in a + b :: r in a || r in b;
    assert forall r | r in a :: r in a + b;
    assert forall r | r in b :: r in a + b;
  }

  function CalleeUses(fn: FunRef): set<Reg> {
    match fn
    case FunReg(r) => {r}
    case FunSymbol(_) => {}
  }

  /** The registers an instruction reads. */
  function Uses(i: Instr): set<Reg> {
    match i
    case Inop(_) => {}
    case Iop(_, args, _, _) => Elements(args)
    case Iload(_, _, args, _, _) => Elements(args)
    case Istore(_, _, args, src, _) => Elements(args) + {src}
    case Icall(_, fn, args, _, _) => Elements(args) + CalleeUses(fn)
    case Itailcall(_, fn, args) => Elements(args) + CalleeUses(fn)
    case Ibuiltin(_, args, _, _) => Elements(args)
    case Icond(_, args, _, _) => Elements(args)
    case Ijumptable(arg, _) => {arg}
    case Ireturn(ret) => if ret.Some? then {ret.value} else {}
  }

  /** The registers an instruction writes. */
  function Defs(i: Instr): set<Reg> {
    match i
    case Iop(_, _, dest, _) => {dest}
    case Iload(_, _, _, dest, _) => {dest}
    case Icall(_, _, _, dest, _) => if dest != 0 then {dest} else {}
    case Ibuiltin(_, _, res, _) => if res.Some? then {res.value} else {}
    case _ => {}
  }

  function At(live: LiveMap, n: Node): set<Reg> {
    if n in live then live[n] else {}
  }

  /** What the live-in sets of the successors require after instruction i. */
  function LiveAfter(liveIn: LiveMap, i: Instr): set<Reg> {
    set s, r | s in i.Successors() && r in At(liveIn, s) :: r
  }

  function LiveBefore(liveIn: LiveMap, i: Instr): set<Reg> {
    Uses(i) + (LiveAfter(liveIn, i) - Defs(i))
  }

  ghost predicate HasKeys(code: Code, info: LivenessInfo) {
    info.liveIn.Keys == code.Keys && info.liveOut.Keys == code.Keys
  }

  /** The dataflow equations hold at every node. */
  ghost predicate IsSolution(code: Code, info: LivenessInfo) {
    && HasKeys(code, info)
    && forall n | n in code :: SolvedAt(code, info, n)
  }

  ghost predicate SolvedAt(code: Code, info: LivenessInfo, n: Node)
    requires HasKeys(code, info) && n in code
  {
    && info.liveOut[n] == LiveAfter(info.liveIn, code[n])
    && info.liveIn[n] == LiveBefore(info.liveIn, code[n])
  }

  /** The sets contain everything the equations ask for, and perhaps more. */
  ghost predicate IsClosed(code: Code, info: LivenessInfo) {
    && HasKeys(code, info)
    && forall n | n in code ::
         && LiveAfter(info.liveIn, code[n]) <= info.liveOut[n]
         && Uses(code[n]) + (info.liveOut[n] - Defs(code[n])) <= info.liveIn[n]
  }

  ghost predicate Below(info: LivenessInfo, other: LivenessInfo) {
    forall n | n in info.liveIn && n in info.liveOut && n in other.liveIn && n in other.liveOut ::
      info.liveIn[n] <= other.liveIn[n] && info.liveOut[n] <= other.liveOut[n]
  }

  ghost predicate IsLeast(code: Code, info: LivenessInfo) {
    forall other | IsClosed(code, other) :: Below(info, other)
  }

  /** Every fact in the sets is demanded by the equations: the analysis approaches the solution from below. */
  ghost predicate Justified(code: Code, info: LivenessInfo) {
    && HasKeys(code, info)
    && forall n | n in code ::
         && info.liveOut[n] <= LiveAfter(info.liveIn, code[n])
         && info.liveIn[n] <= LiveBefore(info.liveIn, code[n])
  }

  ghost function AllUses(code: Code): set<Reg> {
    set n, r | n in code && r in Uses(code[n]) :: r
  }

  ghost function Universe(code: Code): set<(bool, Node, Reg)> {
    set b: bool, n, r | b in {true, false} && n in code && r in AllUses(code) :: (b, n, r)
  }

  /** All facts recorded so far. */
  ghost function Facts(info: LivenessInfo): set<(bool, Node, Reg)> {
    (set n, r | n in info.liveIn && r in info.liveIn[n] :: (true, n, r)) +
    (set n, r | n in info.liveOut && r in info.liveOut[n] :: (false, n, r))
  }

  method UnionOverSuccessors(liveIn: LiveMap, i: Instr) returns (out: set<Reg>)
    ensures out == LiveAfter(liveIn, i)
  {
    out := {};
    var succs := i.Successors();
    for k := 0 to |succs|
      invariant out == set s, r | s in succs[..k] && r in At(liveIn, s) :: r
    {
      out := out + At(liveIn, succs[k]);
    }
  }

  /** The fixpoint iteration; nodes are visited in any order, as a Go map is. */
  method Analyze(code: Code) returns (info: LivenessInfo)
    ensures IsSolution(code, info)
    ensures IsLeast(code, info)
  {
    info := LivenessInfo(map n | n in code :: {}, map n | n in code :: {});
    var changed := true;
    while changed
      invariant Justified(code, info) && IsLeast(code, info)
      invariant Facts(info) <= Universe(code)
      invariant !changed ==> IsSolution(code, info)
      decreases Universe(code) - Facts(info), changed
    {
      changed := false;
      ghost var before := info;
      var todo := code.Keys;
      while todo != {}
        invariant todo <= code.Keys
        invariant Justified(code, info) && IsLeast(code, info)
        invariant Facts(info) <= Universe(code)
        invariant if changed then Facts(before) < Facts(info) else info == before
        invariant !changed ==> forall n | n in code && n !in todo :: SolvedAt(code, info, n)
        decreases todo
      {
        var n :| n in todo;
        todo := todo - {n};
        var newOut := UnionOverSuccessors(info.liveIn, code[n]);
        var newIn := Uses(code[n]) + (newOut - Defs(code[n]));
        if info.liveIn[n] != newIn || info.liveOut[n] != newOut {
          UpdateKeepsInvariants(code, info, n);
          changed := true;
          info := LivenessInfo(info.liveIn[n := newIn], info.liveOut[n := newOut]);
        }
      }
    }
  }

  ghost function Updated(code: Code, info: LivenessInfo, n: Node): LivenessInfo
    requires n in code
  {
    LivenessInfo(info.liveIn[n := LiveBefore(info.liveIn, code[n])],
                 info.liveOut[n := LiveAfter(info.liveIn, code[n])])
  }

  lemma LiveAfterMonotone(a: LiveMap, b: LiveMap, i: Instr)
    requires a.Keys <= b.Keys
    requires forall n | n in a :: a[n] <= b[n]
    ensures LiveAfter(a, i) <= LiveAfter(b, i)
  {
    forall r | r in LiveAfter(a, i)
      ensures r in LiveAfter(b, i)
    {
      var s :| s in i.Successors() && r in At(a, s);
      assert r in At(b, s);
    }
  }

  /** Recomputing one node adds at least one fact and nothing that the equations do not demand. */
  lemma UpdateKeepsInvariants(code: Code, info: LivenessInfo, n: Node)
    requires Justified(code, info) && IsLeast(code, info) && n in code
    requires Facts(info) <= Universe(code)
    ensures var info' := Updated(code, info, n);
            && Justified(code, info') && IsLeast(code, info')
            && Facts(info) <= Facts(info') <= Universe(code)
            && (info.liveIn[n] != info'.liveIn[n] || info.liveOut[n] != info'.liveOut[n] ==> Facts(info) < Facts(info'))
  {
    var info' := Updated(code, info, n);
    UpdateJustified(code, info, n);
    UpdateLeast(code, info, n);
    UpdateFacts(code, info, n);
  }

  lemma UpdateJustified(code: Code, info: LivenessInfo, n: Node)
    requires Justified(code, info) && n in code
    ensures Justified(code, Updated(code, info, n))
  {
    var info' := Updated(code, info, n);
    forall k | k in code
      ensures info'.liveOut[k] <= LiveAfter(info'.liveIn, code[k])
      ensures info'.liveIn[k] <= LiveBefore(info'.liveIn, code[k])
    {
      LiveAfterMonotone(info.liveIn, info'.liveIn, code[k]);
    }
  }

  lemma UpdateLeast(code: Code, info: LivenessInfo, n: Node)
    requires Justified(code, info) && IsLeast(code, info) && n in code
    ensures IsLeast(code, Updated(code, info, n))
  {
    var info' := Updated(code, info, n);
    forall other | IsClosed(code, other)
      ensures Below(info', other)
    {
      UpdateBelow(code, info, n, other);
    }
  }

  lemma UpdateBelow(code: Code, info: LivenessInfo, n: Node, other: LivenessInfo)
    requires Justified(code, info) && n in code && IsClosed(code, other) && Below(info, other)
    ensures Below(Updated(code, info, n), other)
  {
    LiveAfterMonotone(info.liveIn, other.liveIn, code[n]);
  }

  lemma LiveAfterIsUsed(code: Code, info: LivenessInfo, n: Node)
    requires HasKeys(code, info) && n in code
    requires Facts(info) <= Universe(code)
    ensures LiveAfter(info.liveIn, code[n]) <= AllUses(code)
  {
    forall r | r in LiveAfter(info.liveIn, code[n])
      ensures r in AllUses(code)
    {
      var s :| s in code[n].Successors() && r in At(info.liveIn, s);
      assert (true, s, r) in Facts(info);
    }
  }

  lemma UpdateFacts(code: Code, info: LivenessInfo, n: Node)
    requires Justified(code, info) && n in code
    requires Facts(info) <= Universe(code)
    ensures var info' := Updated(code, info, n);
            && Facts(info) <= Facts(info') <= Universe(code)
            && (info.liveIn[n] != info'.liveIn[n] || info.liveOut[n] != info'.liveOut[n] ==> Facts(info) < Facts(info'))
  {
    LiveAfterIsUsed(code, info, n);
    assert Uses(code[n]) <= AllUses(code);
    FactsGrow(code, info, n, LiveBefore(info.liveIn, code[n]), LiveAfter(info.liveIn, code[n]));
  }

  lemma FactsGrow(code: Code, info: LivenessInfo, n: Node, newIn: set<Reg>, newOut: set<Reg>)
    requires HasKeys(code, info) && n in code && Facts(info) <= Universe(code)
    requires info.liveIn[n] <= newIn <= AllUses(code)
    requires info.liveOut[n] <= newOut <= AllUses(code)
    ensures var info' := LivenessInfo(info.liveIn[n := newIn], info.liveOut[n := newOut]);
            && Facts(info) <= Facts(info') <= Universe(code)
            && (info.liveIn[n] != newIn || info.liveOut[n] != newOut ==> Facts(info) < Facts(info'))
  {
    var info' := LivenessInfo(info.liveIn[n := newIn], info.liveOut[n := newOut]);
    forall f | f in Facts(info')
      ensures f in Universe(code)
    {
      if f.1 != n {
        assert f in Facts(info);
      }
    }
    if info.liveIn[n] != newIn {
      var r :| r in newIn && r !in info.liveIn[n];
      assert (true, n, r) in Facts(info') && (true, n, r) !in Facts(info);
    } else if info.liveOut[n] != newOut {
      var r :| r in newOut && r !in info.liveOut[n];
      assert (false, n, r) in Facts(info') && (false, n, r) !in Facts(info);
    }
  }

  /** Nothing is live that no instruction reads. */
  lemma LiveIsUsed(code: Code, info: LivenessInfo)
    requires IsSolution(code, info) && IsLeast(code, info)
    ensures forall n | n in code :: info.liveIn[n] <= AllUses(code) && info.liveOut[n] <= AllUses(code)
  {
    var everywhere := map n | n in code :: AllUses(code);
    var other := LivenessInfo(everywhere, everywhere);
    forall n | n in code
      ensures LiveAfter(everywhere, code[n]) <= AllUses(code)
    {
      forall r | r in LiveAfter(everywhere, code[n])
        ensures r in AllUses(code)
      {
        var s :| s in code[n].Successors() && r in At(everywhere, s);
      }
    }
    assert IsClosed(code, other);
    assert Below(info, other);
  }

  ghost predicate AgreeOn(rs1: RegFile, rs2: RegFile, live: set<Reg>) {
    forall r | r in live :: Get(rs1, r) == Get(rs2, r)
  }

  /** The two states cannot be told apart by what is live. */
  ghost predicate SameRun(info: LivenessInfo, s1: State, s2: State) {
    if s1.Running? then
      s2.Running? && s1.pc == s2.pc && s1.m == s2.m && s1.tr == s2.tr && AgreeOn(s1.rs, s2.rs, At(info.liveIn, s1.pc))
    else
      s1 == s2
  }

  /** What StepAgrees needs of the live sets around instruction i. */
  ghost predicate Covers(info: LivenessInfo, i: Instr, live: set<Reg>) {
    && Uses(i) <= live
    && forall s | s in i.Successors() :: At(info.liveIn, s) - Defs(i) <= live
  }

  lemma StepAgrees(o: Oracle, code: Code, info: LivenessInfo, s1: State, s2: State)
    requires IsSolution(code, info) && SameRun(info, s1, s2)
    ensures SameRun(info, Step(o, code, s1), Step(o, code, s2))
  {
    if s1.Running? && s1.pc in code {
      var i := code[s1.pc];
      assert SolvedAt(code, info, s1.pc);
      forall s | s in i.Successors()
        ensures At(info.liveIn, s) - Defs(i) <= At(info.liveIn, s1.pc)
      {
        assert forall r | r in At(info.liveIn, s) :: r in LiveAfter(info.liveIn, i);
      }
      InstrAgrees(o, info, i, At(info.liveIn, s1.pc), s1.rs, s2.rs, s1.m, s1.tr);
    }
  }

  lemma InstrAgrees(o: Oracle, info: LivenessInfo, i: Instr, live: set<Reg>, rs1: RegFile, rs2: RegFile, m: Mem, tr: Trace)
    requires Covers(info, i, live) && AgreeOn(rs1, rs2, live)
    ensures SameRun(info, StepInstr(o, i, rs1, m, tr), StepInstr(o, i, rs2, m, tr))
  {
    match i
    case Inop(succ) => assert succ in i.Successors();
    case Iop(op, args, dest, succ) =>
      ArgsAgree(rs1, rs2, args);
      assert succ in i.Successors();
      match EvalOp(o, op, GetAll(rs1, args), m) {
        case Some(v) => WriteAgrees(rs1, rs2, live, dest, v, At(info.liveIn, succ));
        case None =>
      }
    case Iload(chunk, addr, args, dest, succ) =>
      ArgsAgree(rs1, rs2, args);
      assert succ in i.Successors();
      match o.load(chunk, addr, GetAll(rs1, args), m) {
        case Some(v) => WriteAgrees(rs1, rs2, live, dest, v, At(info.liveIn, succ));
        case None =>
      }
    case Istore(_, _, args, _, succ) =>
      ArgsAgree(rs1, rs2, args);
      assert succ in i.Successors();
    case Icall(_, _, _, _, _) => CallAgrees(o, info, i, live, rs1, rs2, m, tr);
    case Itailcall(_, _, args) => ArgsAgree(rs1, rs2, args);
    case Ibuiltin(name, args, res, succ) =>
      ArgsAgree(rs1, rs2, args);
      assert succ in i.Successors();
      if res.Some? {
        match o.builtin(name, GetAll(rs1, args), m) {
          case Some((v, _)) => WriteAgrees(rs1, rs2, live, res.value, v, At(info.liveIn, succ));
          case None =>
        }
      }
    case Icond(_, args, ifso, ifnot) =>
      ArgsAgree(rs1, rs2, args);
      assert ifso in i.Successors() && ifnot in i.Successors();
    case Ijumptable(arg, targets) =>
      var v := Get(rs1, arg);
      if v.Vnum? && 0 <= v.n < |targets| { assert targets[v.n] in i.Successors(); }
    case Ireturn(_) =>
  }

  lemma CallAgrees(o: Oracle, info: LivenessInfo, i: Instr, live: set<Reg>, rs1: RegFile, rs2: RegFile, m: Mem, tr: Trace)
    requires i.Icall? && Covers(info, i, live) && AgreeOn(rs1, rs2, live)
    ensures SameRun(info, StepInstr(o, i, rs1, m, tr), StepInstr(o, i, rs2, m, tr))
  {
    ArgsAgree(rs1, rs2, i.args);
    assert i.succ in i.Successors();
    if i.callDest != 0 {
      match o.call(CalleeOf(i.fn, rs1), GetAll(rs1, i.args), m)
      case Some((v, _)) => WriteAgrees(rs1, rs2, live, i.callDest, v, At(info.liveIn, i.succ));
      case None =>
    }
  }

  lemma WriteAgrees(rs1: RegFile, rs2: RegFile, live: set<Reg>, d: Reg, v: Val, after: set<Reg>)
    requires AgreeOn(rs1, rs2, live) && after - {d} <= live
    ensures AgreeOn(rs1[d := v], rs2[d := v], after)
  {
    forall r | r in after
      ensures Get(rs1[d := v], r) == Get(rs2[d := v], r)
    {
      if r != d { assert r in live; }
    }
  }

  lemma ArgsAgree(rs1: RegFile, rs2: RegFile, args: seq<Reg>)
    requires AgreeOn(rs1, rs2, Elements(args))
    ensures GetAll(rs1, args) == GetAll(rs2, args)
  {
    assert forall k | 0 <= k < |args| :: args[k] in Elements(args);
  }

  /** Soundness: register files that agree on the live registers give the same run. */
  lemma LivenessSound(o: Oracle, code: Code, info: LivenessInfo, s1: State, s2: State, k: nat)
    requires IsSolution(code, info) && SameRun(info, s1, s2)
    ensures SameRun(info, Iterate(Stepper(o, code), s1, k), Iterate(Stepper(o, code), s2, k))
  {
    var step := Stepper(o, code);
    var same := (t1, t2) => SameRun(info, t1, t2);
    forall t1, t2 | same(t1, t2)
      ensures same(step(t1), step(t2))
    {
      StepAgrees(o, code, info, t1, t2);
    }
    Lockstep(step, step, same, s1, s2, k);
  }
}
