/** From RTL to LTL by an allocation (pkg/regalloc/transform.go), and why that preserves meaning. */
module RegTransform {
  import opened Values
  import opened RTL
  import opened Runs
  import opened Liveness
  import opened Interference
  import opened Conventions
  import opened Params
  import opened Coloring
  import opened Irc
  import opened Moves
  import opened RegMoves
  import Rounds
  import L = LTL

  /** The place of r; Nowhere if it was not allocated. */
  function PlaceFor(alloc: Places, r: Reg): L.Loc {
    if r in alloc then alloc[r] else L.Nowhere
  }

  function TransformRegs(regs: seq<Reg>, alloc: Places): (locs: seq<L.Loc>)
    ensures |locs| == |regs|
  {
    seq(|regs|, i requires 0 <= i < |regs| => PlaceFor(alloc, regs[i]))
  }

  function TransformCallee(fn: FunRef, alloc: Places): L.FunRef {
    match fn
    case FunReg(r) => L.FunLoc(PlaceFor(alloc, r))
    case FunSymbol(name) => L.FunSymbol(name)
  }

  function MoveUnlessEqual(src: L.Loc, dst: L.Loc): seq<L.Instr> {
    if src == dst then [] else [L.Lop(Omove, [src], dst)]
  }

  function TransformInstr(i: Instr, alloc: Places): L.Block {
    match i
    case Inop(succ) => [L.Lbranch(succ)]
    case Iop(op, args, dest, succ) =>
      [L.Lop(op, TransformRegs(args, alloc), PlaceFor(alloc, dest)), L.Lbranch(succ)]
    case Iload(chunk, addr, args, dest, succ) =>
      [L.Lload(chunk, addr, TransformRegs(args, alloc), PlaceFor(alloc, dest)), L.Lbranch(succ)]
    case Istore(chunk, addr, args, src, succ) =>
      [L.Lstore(chunk, addr, TransformRegs(args, alloc), PlaceFor(alloc, src)), L.Lbranch(succ)]
    case Icall(sig, fn, args, dest, succ) =>
      [L.Lcall(sig, TransformCallee(fn, alloc), TransformRegs(args, alloc))] + ResultBlock(i, alloc)
    case Itailcall(sig, fn, args) =>
      [L.Ltailcall(sig, TransformCallee(fn, alloc), TransformRegs(args, alloc))]
    case Ibuiltin(name, args, res, succ) =>
      [L.Lbuiltin(name, TransformRegs(args, alloc), if res.Some? then Some(PlaceFor(alloc, res.value)) else None),
       L.Lbranch(succ)]
    case Icond(cond, args, ifso, ifnot) => [L.Lcond(cond, TransformRegs(args, alloc), ifso, ifnot)]
    case Ijumptable(arg, targets) => [L.Ljumptable(PlaceFor(alloc, arg), targets)]
    case Ireturn(ret) =>
      (if ret.Some? then MoveUnlessEqual(PlaceFor(alloc, ret.value), RETURN_LOCATION) else []) + [L.Lreturn]
  }

  function TransformCode(code: Code, alloc: Places): L.Code {
    map n | n in code :: TransformInstr(code[n], alloc)
  }

  /** The code with moves in front of the entry block. */
  function WithEntryMoves(code: L.Code, entry: Node, moves: seq<Move>): L.Code {
    if entry in code && moves != [] then code[entry := MoveInstrs(moves) + code[entry]] else code
  }

  function ParamPlaces(params: seq<Reg>, alloc: Places): seq<L.Loc> {
    TransformRegs(params, alloc)
  }

  function ArrivalPlaces(n: nat): (locs: seq<L.Loc>)
    ensures |locs| == n
  {
    seq(n, i requires 0 <= i < n => ArgLocation(i))
  }

  /** Registers that are live hold the values of their places. */
  ghost predicate Agree(rs: RegFile, ls: L.LocSet, alloc: Places, live: set<Reg>) {
    forall r | r in live :: Get(rs, r) == Get(ls, PlaceFor(alloc, r))
  }

  /** The LTL state stands for the RTL state. */
  ghost predicate Match(info: LivenessInfo, alloc: Places, s: State, t: L.State) {
    match s
    case Running(pc, rs, m, tr) =>
      t.Running? && t.pc == pc && t.m == m && t.tr == tr && Agree(rs, t.ls, alloc, At(info.liveIn, pc))
    case Returned(res, m, tr) =>
      t.Returned? && t.m == m && t.tr == tr && (res.Some? ==> Get(t.ls, RETURN_LOCATION) == res.value)
    case TailCalled(callee, args, m, tr) => t == L.TailCalled(callee, args, m, tr)
    case Stuck => t.Stuck?
  }

  /** What an instruction needs of the allocation: writing its result spares the other live registers,
      and they survive it if it is a call. */
  ghost predicate Spares(i: Instr, alloc: Places, after: set<Reg>) {
    && (forall d, r | d in Defs(i) && r in after && r != d && !IsMoveSource(i, r) :: PlaceFor(alloc, d) != PlaceFor(alloc, r))
    && (IsCall(i) ==> forall r | r in after :: SurvivesCall(PlaceFor(alloc, r)))
  }

  lemma GoodSpares(fn: Function, info: LivenessInfo, alloc: Places, n: Node)
    requires IsSolution(fn.code, info) && GoodAllocation(fn, info, alloc) && n in fn.code
    ensures Spares(fn.code[n], alloc, info.liveOut[n])
  {
    var i := fn.code[n];
    forall d, r | d in Defs(i) && r in info.liveOut[n] && r != d && !IsMoveSource(i, r)
      ensures PlaceFor(alloc, d) != PlaceFor(alloc, r)
    {
      assert ClashesAt(fn.code, info, n, d, r);
      assert Interferes(fn, info, d, r);
    }
    if IsCall(i) {
      forall r | r in info.liveOut[n]
        ensures SurvivesCall(PlaceFor(alloc, r))
      {
        assert r in LiveOutOfCalls(fn.code, info, fn.code.Keys);
      }
    }
  }

  lemma ArgsMatch(rs: RegFile, ls: L.LocSet, alloc: Places, live: set<Reg>, args: seq<Reg>)
    requires Agree(rs, ls, alloc, live) && Elements(args) <= live
    ensures GetAll(ls, TransformRegs(args, alloc)) == GetAll(rs, args)
  {
    forall k | 0 <= k < |args|
      ensures Get(ls, TransformRegs(args, alloc)[k]) == Get(rs, args[k])
    {
      assert args[k] in Elements(args);
    }
  }

  lemma CalleeMatches(rs: RegFile, ls: L.LocSet, alloc: Places, live: set<Reg>, fn: FunRef)
    requires Agree(rs, ls, alloc, live) && CalleeUses(fn) <= live
    ensures L.CalleeOf(TransformCallee(fn, alloc), ls) == CalleeOf(fn, rs)
  {
  }

  /** Writing d spares the other live registers. */
  lemma WriteMatches(rs: RegFile, ls: L.LocSet, alloc: Places, before: set<Reg>, after: set<Reg>, d: Reg, v: Val)
    requires Agree(rs, ls, alloc, before) && after - {d} <= before
    requires forall r | r in after && r != d && PlaceFor(alloc, r) == PlaceFor(alloc, d) :: Get(rs, r) == v
    ensures Agree(rs[d := v], ls[PlaceFor(alloc, d) := v], alloc, after)
  {
    forall r | r in after
      ensures Get(rs[d := v], r) == Get(ls[PlaceFor(alloc, d) := v], PlaceFor(alloc, r))
    {
      if r != d { assert r in before; }
    }
  }

  lemma CallMatches(rs: RegFile, ls: L.LocSet, alloc: Places, live: set<Reg>, res: Val, junk: map<MReg, Val>)
    requires Agree(rs, ls, alloc, live) && forall r | r in live :: SurvivesCall(PlaceFor(alloc, r))
    ensures Agree(rs, L.AfterCall(ls, res, junk), alloc, live)
    ensures Get(L.AfterCall(ls, res, junk), RETURN_LOCATION) == res
  {
    forall r | r in live
      ensures Get(rs, r) == Get(L.AfterCall(ls, res, junk), PlaceFor(alloc, r))
    {
      assert L.Preserved(PlaceFor(alloc, r));
    }
  }

  /** One RTL step against its block: the heart of the proof. */
  lemma InstrMatches(o: Oracle, info: LivenessInfo, alloc: Places, i: Instr, before: set<Reg>, after: set<Reg>,
        rs: RegFile, ls: L.LocSet, m: Mem, tr: Trace)
    requires Agree(rs, ls, alloc, before) && Spares(i, alloc, after)
    requires Uses(i) <= before && after - Defs(i) <= before
    requires forall s | s in i.Successors() :: At(info.liveIn, s) <= after
    ensures Match(info, alloc, StepInstr(o, i, rs, m, tr), L.StepBlock(o, TransformInstr(i, alloc), L.Machine(ls, m, tr)))
  {
    if i.Iop? || i.Iload? || i.Icall? || i.Ibuiltin? || i.Istore? || i.Inop? {
      assert i.succ in i.Successors();
    }
    match i
    case Inop(succ) => L.BlockOfOne(o, L.Lbranch(succ), L.Machine(ls, m, tr));
    case Iop(_, _, _, _) => OpMatches(o, info, alloc, i, before, after, rs, ls, m, tr);
    case Iload(_, _, _, _, _) => LoadMatches(o, info, alloc, i, before, after, rs, ls, m, tr);
    case Istore(_, _, _, _, _) => StoreMatches(o, info, alloc, i, before, after, rs, ls, m, tr);
    case Icall(_, _, _, _, _) => CallStepMatches(o, info, alloc, i, before, after, rs, ls, m, tr);
    case Ibuiltin(_, _, _, _) => BuiltinMatches(o, info, alloc, i, before, after, rs, ls, m, tr);
    case _ => ExitMatches(o, info, alloc, i, before, after, rs, ls, m, tr);
  }

  lemma StoreMatches(o: Oracle, info: LivenessInfo, alloc: Places, i: Instr, before: set<Reg>, after: set<Reg>,
        rs: RegFile, ls: L.LocSet, m: Mem, tr: Trace)
    requires i.Istore? && Agree(rs, ls, alloc, before) && Uses(i) <= before && At(info.liveIn, i.succ) <= before
    ensures Match(info, alloc, StepInstr(o, i, rs, m, tr), L.StepBlock(o, TransformInstr(i, alloc), L.Machine(ls, m, tr)))
  {
    ArgsMatch(rs, ls, alloc, before, i.args);
    L.BlockOfTwo(o, TransformInstr(i, alloc)[0], L.Lbranch(i.succ), L.Machine(ls, m, tr));
  }

  lemma ExitMatches(o: Oracle, info: LivenessInfo, alloc: Places, i: Instr, before: set<Reg>, after: set<Reg>,
        rs: RegFile, ls: L.LocSet, m: Mem, tr: Trace)
    requires i.Itailcall? || i.Icond? || i.Ijumptable? || i.Ireturn?
    requires Agree(rs, ls, alloc, before) && Uses(i) <= before
    requires forall s | s in i.Successors() :: At(info.liveIn, s) <= before
    ensures Match(info, alloc, StepInstr(o, i, rs, m, tr), L.StepBlock(o, TransformInstr(i, alloc), L.Machine(ls, m, tr)))
  {
    match i
    case Itailcall(_, fn, args) =>
      ArgsMatch(rs, ls, alloc, before, args);
      CalleeMatches(rs, ls, alloc, before, fn);
      L.BlockOfOne(o, TransformInstr(i, alloc)[0], L.Machine(ls, m, tr));
    case Icond(_, args, ifso, ifnot) =>
      ArgsMatch(rs, ls, alloc, before, args);
      L.BlockOfOne(o, TransformInstr(i, alloc)[0], L.Machine(ls, m, tr));
      assert ifso in i.Successors() && ifnot in i.Successors();
    case Ijumptable(arg, targets) =>
      L.BlockOfOne(o, TransformInstr(i, alloc)[0], L.Machine(ls, m, tr));
      var v := Get(rs, arg);
      if v.Vnum? && 0 <= v.n < |targets| { assert targets[v.n] in i.Successors(); }
    case Ireturn(_) => ReturnMatches(o, info, alloc, i, before, after, rs, ls, m, tr);
  }

  lemma ReturnMatches(o: Oracle, info: LivenessInfo, alloc: Places, i: Instr, before: set<Reg>, after: set<Reg>,
        rs: RegFile, ls: L.LocSet, m: Mem, tr: Trace)
    requires i.Ireturn? && Agree(rs, ls, alloc, before) && Uses(i) <= before
    ensures Match(info, alloc, StepInstr(o, i, rs, m, tr), L.StepBlock(o, TransformInstr(i, alloc), L.Machine(ls, m, tr)))
  {
    var t := ReturnBlock(o, i.ret, alloc, L.Machine(ls, m, tr));
    if i.ret.Some? {
      assert i.ret.value in Uses(i);
    }
  }

  lemma ReturnBlockIs(ret: Option<Reg>, alloc: Places)
    ensures TransformInstr(Ireturn(ret), alloc) ==
            if ret.Some? && PlaceFor(alloc, ret.value) != RETURN_LOCATION
            then [L.Lop(Omove, [PlaceFor(alloc, ret.value)], RETURN_LOCATION), L.Lreturn] else [L.Lreturn]
  {
  }

  /** A return leaves the value in X0. */
  lemma ReturnBlock(o: Oracle, ret: Option<Reg>, alloc: Places, s: L.Machine) returns (ls: L.LocSet)
    ensures L.StepBlock(o, TransformInstr(Ireturn(ret), alloc), s) == L.Returned(ls, s.m, s.tr)
    ensures ret.Some? ==> Get(ls, RETURN_LOCATION) == Get(s.ls, PlaceFor(alloc, ret.value))
  {
    ReturnBlockIs(ret, alloc);
    if ret.Some? && PlaceFor(alloc, ret.value) != RETURN_LOCATION {
      L.MoveAndReturn(o, PlaceFor(alloc, ret.value), RETURN_LOCATION, s);
      ls := s.ls[RETURN_LOCATION := Get(s.ls, PlaceFor(alloc, ret.value))];
    } else {
      L.BlockOfOne(o, L.Lreturn, s);
      ls := s.ls;
    }
  }

  lemma OpMatches(o: Oracle, info: LivenessInfo, alloc: Places, i: Instr, before: set<Reg>, after: set<Reg>,
                  rs: RegFile, ls: L.LocSet, m: Mem, tr: Trace)
    requires i.Iop? && Agree(rs, ls, alloc, before) && Spares(i, alloc, after)
    requires Uses(i) <= before && after - Defs(i) <= before && At(info.liveIn, i.succ) <= after
    ensures Match(info, alloc, StepInstr(o, i, rs, m, tr), L.StepBlock(o, TransformInstr(i, alloc), L.Machine(ls, m, tr)))
  {
    ArgsMatch(rs, ls, alloc, before, i.args);
    L.BlockOfTwo(o, TransformInstr(i, alloc)[0], L.Lbranch(i.succ), L.Machine(ls, m, tr));
    var r := EvalOp(o, i.op, GetAll(rs, i.args), m);
    if r.Some? {
      forall q | q in after && q != i.dest && PlaceFor(alloc, q) == PlaceFor(alloc, i.dest)
        ensures Get(rs, q) == r.value
      {
        assert i.dest in Defs(i);
        assert IsMoveSource(i, q);
        assert GetAll(rs, i.args) == [Get(rs, q)];
      }
      WriteMatches(rs, ls, alloc, before, after, i.dest, r.value);
    }
  }

  lemma LoadMatches(o: Oracle, info: LivenessInfo, alloc: Places, i: Instr, before: set<Reg>, after: set<Reg>,
                    rs: RegFile, ls: L.LocSet, m: Mem, tr: Trace)
    requires i.Iload? && Agree(rs, ls, alloc, before) && Spares(i, alloc, after)
    requires Uses(i) <= before && after - Defs(i) <= before && At(info.liveIn, i.succ) <= after
    ensures Match(info, alloc, StepInstr(o, i, rs, m, tr), L.StepBlock(o, TransformInstr(i, alloc), L.Machine(ls, m, tr)))
  {
    ArgsMatch(rs, ls, alloc, before, i.args);
    L.BlockOfTwo(o, TransformInstr(i, alloc)[0], L.Lbranch(i.succ), L.Machine(ls, m, tr));
    var r := o.load(i.chunk, i.addr, GetAll(rs, i.args), m);
    if r.Some? {
      assert i.dest in Defs(i);
      WriteMatches(rs, ls, alloc, before, after, i.dest, r.value);
    }
  }

  lemma BuiltinMatches(o: Oracle, info: LivenessInfo, alloc: Places, i: Instr, before: set<Reg>, after: set<Reg>,
                       rs: RegFile, ls: L.LocSet, m: Mem, tr: Trace)
    requires i.Ibuiltin? && Agree(rs, ls, alloc, before) && Spares(i, alloc, after)
    requires Uses(i) <= before && after - Defs(i) <= before && At(info.liveIn, i.succ) <= after
    ensures Match(info, alloc, StepInstr(o, i, rs, m, tr), L.StepBlock(o, TransformInstr(i, alloc), L.Machine(ls, m, tr)))
  {
    ArgsMatch(rs, ls, alloc, before, i.args);
    L.BlockOfTwo(o, TransformInstr(i, alloc)[0], L.Lbranch(i.succ), L.Machine(ls, m, tr));
    var r := o.builtin(i.name, GetAll(rs, i.args), m);
    if r.Some? && i.res.Some? {
      assert i.res.value in Defs(i);
      WriteMatches(rs, ls, alloc, before, after, i.res.value, r.value.0);
    }
  }

  lemma CallStepMatches(o: Oracle, info: LivenessInfo, alloc: Places, i: Instr, before: set<Reg>, after: set<Reg>,
                        rs: RegFile, ls: L.LocSet, m: Mem, tr: Trace)
    requires i.Icall? && Agree(rs, ls, alloc, before) && Spares(i, alloc, after)
    requires Uses(i) <= before && after - Defs(i) <= before && At(info.liveIn, i.succ) <= after
    ensures Match(info, alloc, StepInstr(o, i, rs, m, tr), L.StepBlock(o, TransformInstr(i, alloc), L.Machine(ls, m, tr)))
  {
    var s := L.Machine(ls, m, tr);
    ArgsMatch(rs, ls, alloc, before, i.args);
    CalleeMatches(rs, ls, alloc, before, i.fn);
    var call := L.Lcall(i.sig, TransformCallee(i.fn, alloc), TransformRegs(i.args, alloc));
    var callee, vs := CalleeOf(i.fn, rs), GetAll(rs, i.args);
    var kept := after - Defs(i);
    var rest := ResultBlock(i, alloc);
    assert TransformInstr(i, alloc) == [call] + rest;
    match L.ExecInstr(o, call, s)
    case None => L.BlockStuck(o, call, TransformInstr(i, alloc), s);
    case Some(s1) =>
      var v := o.call(callee, vs, m).value.0;
      CallMatches(rs, ls, alloc, kept, v, o.junk(callee, vs, m));
      assert s1.ls == L.AfterCall(ls, v, o.junk(callee, vs, m));
      ResultMatches(o, info, alloc, i, kept, after, rs, s1, v);
      L.BlockOfMore(o, call, rest, s, s1);
  }

  /** The block of a call after the call itself. */
  function ResultBlock(i: Instr, alloc: Places): (block: L.Block)
    requires i.Icall?
    ensures block != []
  {
    (if i.callDest != 0 then MoveUnlessEqual(RETURN_LOCATION, PlaceFor(alloc, i.callDest)) else []) + [L.Lbranch(i.succ)]
  }

  /** The rest of a call's block puts the result where it belongs. */
  lemma ResultMatches(o: Oracle, info: LivenessInfo, alloc: Places, i: Instr, kept: set<Reg>, after: set<Reg>,
                      rs: RegFile, s1: L.Machine, v: Val)
    requires i.Icall? && Agree(rs, s1.ls, alloc, kept) && Spares(i, alloc, after)
    requires kept == after - Defs(i) && At(info.liveIn, i.succ) <= after
    requires Get(s1.ls, RETURN_LOCATION) == v && RETURN_LOCATION in s1.ls
    ensures var rs' := if i.callDest != 0 then rs[i.callDest := v] else rs;
      Match(info, alloc, Running(i.succ, rs', s1.m, s1.tr), L.StepBlock(o, ResultBlock(i, alloc), s1))
  {
    var branch := L.Lbranch(i.succ);
    var d := i.callDest;
    if d == 0 {
      assert [] + [branch] == [branch];
      L.BlockOfOne(o, branch, s1);
    } else {
      assert d in Defs(i);
      WriteMatches(rs, s1.ls, alloc, kept, after, d, v);
      var place := PlaceFor(alloc, d);
      if place == RETURN_LOCATION {
        assert [] + [branch] == [branch];
        L.BlockOfOne(o, branch, s1);
        assert s1.ls[place := v] == s1.ls;
      } else {
        var move := L.Lop(Omove, [RETURN_LOCATION], place);
        assert [move] + [branch] == [move, branch];
        L.BlockOfTwo(o, move, branch, s1);
        L.MoveExec(o, RETURN_LOCATION, place, s1);
      }
    }
  }

  lemma StepMatches(o: Oracle, fn: Function, info: LivenessInfo, alloc: Places, s: State, t: L.State)
    requires IsSolution(fn.code, info) && GoodAllocation(fn, info, alloc)
    requires Match(info, alloc, s, t)
    ensures Match(info, alloc, Step(o, fn.code, s), L.Step(o, TransformCode(fn.code, alloc), t))
  {
    if s.Running? && s.pc in fn.code {
      var n := s.pc;
      var i := fn.code[n];
      GoodSpares(fn, info, alloc, n);
      assert SolvedAt(fn.code, info, n);
      forall x | x in i.Successors()
        ensures At(info.liveIn, x) <= info.liveOut[n]
      {
        assert forall r | r in At(info.liveIn, x) :: r in LiveAfter(info.liveIn, i);
      }
      InstrMatches(o, info, alloc, i, info.liveIn[n], info.liveOut[n], s.rs, t.ls, s.m, s.tr);
    }
  }

  /** The entry node is not the target of any branch, or there is nothing to do there. */
  ghost predicate EnteredOnce(fn: Function, moves: seq<Move>) {
    moves == [] || forall n | n in fn.code :: fn.entry !in fn.code[n].Successors()
  }

  /** Matching states, not at the entry again if that would repeat its moves. */
  ghost predicate MatchAfterEntry(fn: Function, info: LivenessInfo, alloc: Places, moves: seq<Move>, s: State, t: L.State) {
    Match(info, alloc, s, t) && (s.Running? && moves != [] ==> s.pc != fn.entry)
  }

  lemma StepStaysInside(o: Oracle, fn: Function, s: State)
    requires s.Running? && s.pc in fn.code && Step(o, fn.code, s).Running?
    ensures Step(o, fn.code, s).pc in fn.code[s.pc].Successors()
  {
  }

  lemma StepAfterEntry(o: Oracle, fn: Function, info: LivenessInfo, alloc: Places, moves: seq<Move>, s: State, t: L.State)
    requires IsSolution(fn.code, info) && GoodAllocation(fn, info, alloc) && EnteredOnce(fn, moves)
    requires MatchAfterEntry(fn, info, alloc, moves, s, t)
    ensures MatchAfterEntry(fn, info, alloc, moves, Step(o, fn.code, s),
              L.Step(o, WithEntryMoves(TransformCode(fn.code, alloc), fn.entry, moves), t))
  {
    StepMatches(o, fn, info, alloc, s, t);
    if s.Running? && s.pc in fn.code && Step(o, fn.code, s).Running? {
      StepStaysInside(o, fn, s);
    }
  }

  lemma RunAfterEntry(o: Oracle, fn: Function, info: LivenessInfo, alloc: Places, moves: seq<Move>, s: State, t: L.State, k: nat)
    requires IsSolution(fn.code, info) && GoodAllocation(fn, info, alloc) && EnteredOnce(fn, moves)
    requires MatchAfterEntry(fn, info, alloc, moves, s, t)
    ensures var code := WithEntryMoves(TransformCode(fn.code, alloc), fn.entry, moves);
      Match(info, alloc, Iterate(Stepper(o, fn.code), s, k), Iterate(L.Stepper(o, code), t, k))
  {
    var code := WithEntryMoves(TransformCode(fn.code, alloc), fn.entry, moves);
    var f, g := Stepper(o, fn.code), L.Stepper(o, code);
    var match' := (x, y) => MatchAfterEntry(fn, info, alloc, moves, x, y);
    forall x, y | match'(x, y)
      ensures match'(f(x), g(y))
    {
      StepAfterEntry(o, fn, info, alloc, moves, x, y);
    }
    Lockstep(f, g, match', s, t, k);
  }

  /** The first step at the entry makes the entry moves and then steps as usual. */
  lemma EntryStep(o: Oracle, code: L.Code, entry: Node, moves: seq<Move>, ls: L.LocSet, m: Mem, tr: Trace)
    requires entry in code && code[entry] != []
    ensures L.Step(o, WithEntryMoves(code, entry, moves), L.Running(entry, ls, m, tr)) ==
            L.Step(o, code, L.Running(entry, CopyAll(moves, ls), m, tr))
  {
    var block, s := code[entry], L.Machine(ls, m, tr);
    if moves != [] {
      var n := |block| - 1;
      var whole := MoveInstrs(moves) + block;
      assert whole[..|whole| - 1] == MoveInstrs(moves) + block[..n];
      L.ExecBodyAppend(o, MoveInstrs(moves), block[..n], s);
      ExecMoves(o, moves, s);
    }
  }

  lemma {:induction false} NeededMovesAre(src: seq<L.Loc>, dst: seq<L.Loc>, m: Move)
    requires |src| == |dst|
    ensures m in NeededMoves(src, dst) <==> exists i | 0 <= i < |src| :: src[i] != dst[i] && m == (src[i], dst[i])
    decreases |src|
  {
    if src != [] {
      var last := |src| - 1;
      NeededMovesAre(src[..last], dst[..last], m);
      if i :| 0 <= i < |src| && src[i] != dst[i] && m == (src[i], dst[i]) {
        assert i < last ==> src[..last][i] != dst[..last][i] && m == (src[..last][i], dst[..last][i]);
      }
    }
  }

  /** The destinations of moves that are needed differ. */
  ghost predicate NeededDiffer(src: seq<L.Loc>, dst: seq<L.Loc>)
    requires |src| == |dst|
  {
    forall i, j | 0 <= i < j < |src| && src[i] != dst[i] && src[j] != dst[j] :: dst[i] != dst[j]
  }

  lemma {:induction false} NeededTargetsDiffer(src: seq<L.Loc>, dst: seq<L.Loc>)
    requires |src| == |dst| && NeededDiffer(src, dst)
    ensures DistinctTargets(NeededMoves(src, dst))
    decreases |src|
  {
    if src != [] {
      var last := |src| - 1;
      assert NeededDiffer(src[..last], dst[..last]);
      NeededTargetsDiffer(src[..last], dst[..last]);
      var ms := NeededMoves(src[..last], dst[..last]);
      forall k | 0 <= k < |ms| && src[last] != dst[last]
        ensures ms[k].1 != dst[last]
      {
        NeededMovesAre(src[..last], dst[..last], ms[k]);
        assert ms[k] in ms;
      }
    }
  }

  /** A parameter that has to be moved is live across a call: it goes to a callee-saved register or to a
      slot, and it interferes with every other register. */
  lemma MovedParam(fn: Function, info: LivenessInfo, alloc: Places, j: nat)
    requires IsSolution(fn.code, info) && IsLeast(fn.code, info) && GoodAllocation(fn, info, alloc)
    requires Distinct(fn.params) && j < |fn.params| && ArgLocation(j) != PlaceFor(alloc, fn.params[j])
    ensures SurvivesCall(PlaceFor(alloc, fn.params[j]))
    ensures forall i | 0 <= i < |fn.params| && i != j :: PlaceFor(alloc, fn.params[i]) != PlaceFor(alloc, fn.params[j])
  {
    var q := fn.params[j];
    var lac := LiveOutOfCalls(fn.code, info, fn.code.Keys);
    assert LastIndex(fn.params, q) == j;
    assert q !in Precolored(fn.params, lac);
    assert q in lac;
    CrossingIsRead(fn, info);
    forall i | 0 <= i < |fn.params| && i != j
      ensures PlaceFor(alloc, fn.params[i]) != PlaceFor(alloc, q)
    {
      var p := fn.params[i];
      assert p in Elements(fn.params) && q in Elements(fn.params) && p != q;
      assert ParamClash(fn, Elements(fn.params), q, p);
      assert Interferes(fn, info, q, p);
    }
  }

  lemma ParamTargetsDiffer(fn: Function, info: LivenessInfo, alloc: Places)
    requires IsSolution(fn.code, info) && IsLeast(fn.code, info) && GoodAllocation(fn, info, alloc)
    requires Distinct(fn.params)
    ensures NeededDiffer(ArrivalPlaces(|fn.params|), ParamPlaces(fn.params, alloc))
  {
    var src, dst := ArrivalPlaces(|fn.params|), ParamPlaces(fn.params, alloc);
    forall i, j | 0 <= i < j < |src| && src[i] != dst[i] && src[j] != dst[j]
      ensures dst[i] != dst[j]
    {
      MovedParam(fn, info, alloc, j);
    }
  }

  /** An entry move goes from an argument's place to one that survives calls. */
  ghost predicate IsEntryMove(m: Move) {
    !IsTemp(m.0) && SurvivesCall(m.1) && !SurvivesCall(m.0)
  }

  lemma ArrivalIsEntryMove(i: nat, l: L.Loc)
    requires SurvivesCall(l)
    ensures IsEntryMove((ArgLocation(i), l))
  {
  }

  lemma NeededIsEntryMove(fn: Function, info: LivenessInfo, alloc: Places, m: Move)
    requires IsSolution(fn.code, info) && IsLeast(fn.code, info) && GoodAllocation(fn, info, alloc)
    requires Distinct(fn.params)
    requires m in NeededMoves(ArrivalPlaces(|fn.params|), ParamPlaces(fn.params, alloc))
    ensures IsEntryMove(m)
  {
    var src, dst := ArrivalPlaces(|fn.params|), ParamPlaces(fn.params, alloc);
    NeededMovesAre(src, dst, m);
    var i :| 0 <= i < |src| && src[i] != dst[i] && m == (src[i], dst[i]);
    MovedParam(fn, info, alloc, i);
    ArrivalIsEntryMove(i, dst[i]);
  }

  lemma EntryMovesAreFeasible(ms: seq<Move>)
    requires DistinctTargets(ms) && forall m | m in ms :: IsEntryMove(m)
    ensures Feasible(ms)
  {
    forall m | m in ms
      ensures m.0 !in Targets(ms)
    {
      assert forall t | t in ms :: IsEntryMove(t) && t.1 != m.0;
    }
    assert Clobbered(ms) == {};
  }

  /** The entry moves of a good allocation are within what the temporaries can do. */
  lemma EntryMovesFeasible(fn: Function, info: LivenessInfo, alloc: Places)
    requires IsSolution(fn.code, info) && IsLeast(fn.code, info) && GoodAllocation(fn, info, alloc)
    requires Distinct(fn.params)
    ensures Feasible(NeededMoves(ArrivalPlaces(|fn.params|), ParamPlaces(fn.params, alloc)))
  {
    var src, dst := ArrivalPlaces(|fn.params|), ParamPlaces(fn.params, alloc);
    ParamTargetsDiffer(fn, info, alloc);
    NeededTargetsDiffer(src, dst);
    forall m | m in NeededMoves(src, dst)
      ensures IsEntryMove(m)
    {
      NeededIsEntryMove(fn, info, alloc, m);
    }
    EntryMovesAreFeasible(NeededMoves(src, dst));
  }

  /** A parallel assignment brings every source to its destination, moved or not. */
  lemma AfterParallelMoves(src: seq<L.Loc>, dst: seq<L.Loc>, moves: seq<Move>, ls: L.LocSet, i: nat)
    requires |src| == |dst| && i < |src| && IsParallel(moves, NeededMoves(src, dst))
    requires src[i] == dst[i] ==> !IsTemp(dst[i]) && forall j | 0 <= j < |src| && src[j] != dst[j] :: dst[j] != dst[i]
    ensures Get(CopyAll(moves, ls), dst[i]) == Get(ls, src[i])
  {
    var ms := NeededMoves(src, dst);
    assert IsParallelOn(moves, ms, ls);
    if src[i] == dst[i] {
      forall m | m in ms
        ensures m.1 != dst[i]
      {
        NeededMovesAre(src, dst, m);
      }
      assert dst[i] !in Targets(ms);
    } else {
      NeededMovesAre(src, dst, (src[i], dst[i]));
      assert (src[i], dst[i]) in ms;
    }
  }

  /** After the entry moves every parameter is in its place. */
  lemma ParamInPlace(fn: Function, info: LivenessInfo, alloc: Places, moves: seq<Move>, ls: L.LocSet, i: nat)
    requires IsSolution(fn.code, info) && IsLeast(fn.code, info) && GoodAllocation(fn, info, alloc)
    requires Distinct(fn.params) && i < |fn.params|
    requires IsParallel(moves, NeededMoves(ArrivalPlaces(|fn.params|), ParamPlaces(fn.params, alloc)))
    ensures Get(CopyAll(moves, ls), PlaceFor(alloc, fn.params[i])) == Get(ls, ArgLocation(i))
  {
    var src, dst := ArrivalPlaces(|fn.params|), ParamPlaces(fn.params, alloc);
    forall j | 0 <= j < |src| && src[j] != dst[j] && src[i] == dst[i]
      ensures dst[j] != dst[i]
    {
      MovedParam(fn, info, alloc, j);
    }
    AfterParallelMoves(src, dst, moves, ls, i);
  }

  /** What the registers hold at the start: parameters what the caller passed, the rest whatever their
      places happen to hold. */
  ghost function StartRegs(fn: Function, alloc: Places, ls: L.LocSet, moved: L.LocSet): RegFile {
    map r | r in AllRegs(fn) ::
      if r in fn.params then Get(ls, ArgLocation(LastIndex(fn.params, r))) else Get(moved, PlaceFor(alloc, r))
  }

  lemma StartMatches(fn: Function, info: LivenessInfo, alloc: Places, moves: seq<Move>, ls: L.LocSet)
    requires IsSolution(fn.code, info) && IsLeast(fn.code, info) && GoodAllocation(fn, info, alloc)
    requires Distinct(fn.params)
    requires IsParallel(moves, NeededMoves(ArrivalPlaces(|fn.params|), ParamPlaces(fn.params, alloc)))
    ensures Agree(StartRegs(fn, alloc, ls, CopyAll(moves, ls)), CopyAll(moves, ls), alloc, At(info.liveIn, fn.entry))
  {
    LiveIsUsed(fn.code, info);
    var moved := CopyAll(moves, ls);
    forall r | r in At(info.liveIn, fn.entry)
      ensures Get(StartRegs(fn, alloc, ls, moved), r) == Get(moved, PlaceFor(alloc, r))
    {
      assert r in AllUses(fn.code) && r in AllRegs(fn);
      if r in fn.params {
        ParamInPlace(fn, info, alloc, moves, ls, LastIndex(fn.params, r));
      }
    }
  }

  lemma BlocksNotEmpty(code: Code, alloc: Places)
    ensures forall n | n in code :: TransformCode(code, alloc)[n] != []
  {
    forall n | n in code
      ensures TransformInstr(code[n], alloc) != []
    {
    }
  }

  lemma StartHoldsArguments(fn: Function, alloc: Places, ls: L.LocSet, moved: L.LocSet, i: nat)
    requires Distinct(fn.params) && i < |fn.params|
    ensures Get(StartRegs(fn, alloc, ls, moved), fn.params[i]) == Get(ls, ArgLocation(i))
  {
    assert LastIndex(fn.params, fn.params[i]) == i;
    assert fn.params[i] in Elements(fn.params);
  }

  /** The first step matches although it makes the entry moves too, and does not come back to the entry. */
  lemma FirstStep(o: Oracle, fn: Function, info: LivenessInfo, alloc: Places, moves: seq<Move>,
                  rs: RegFile, ls: L.LocSet, m: Mem, tr: Trace)
    requires IsSolution(fn.code, info) && GoodAllocation(fn, info, alloc) && EnteredOnce(fn, moves)
    requires Agree(rs, CopyAll(moves, ls), alloc, At(info.liveIn, fn.entry))
    ensures MatchAfterEntry(fn, info, alloc, moves, Step(o, fn.code, Running(fn.entry, rs, m, tr)),
              L.Step(o, WithEntryMoves(TransformCode(fn.code, alloc), fn.entry, moves), L.Running(fn.entry, ls, m, tr)))
  {
    var s := Running(fn.entry, rs, m, tr);
    StepMatches(o, fn, info, alloc, s, L.Running(fn.entry, CopyAll(moves, ls), m, tr));
    if fn.entry in fn.code {
      BlocksNotEmpty(fn.code, alloc);
      EntryStep(o, TransformCode(fn.code, alloc), fn.entry, moves, ls, m, tr);
      if Step(o, fn.code, s).Running? {
        StepStaysInside(o, fn, s);
      }
    }
  }

  lemma RunFromEntry(o: Oracle, fn: Function, info: LivenessInfo, alloc: Places, moves: seq<Move>,
                     rs: RegFile, ls: L.LocSet, m: Mem, tr: Trace, k: nat)
    requires IsSolution(fn.code, info) && GoodAllocation(fn, info, alloc) && EnteredOnce(fn, moves)
    requires Agree(rs, CopyAll(moves, ls), alloc, At(info.liveIn, fn.entry))
    ensures var code := WithEntryMoves(TransformCode(fn.code, alloc), fn.entry, moves);
      Match(info, alloc, Iterate(Stepper(o, fn.code), Running(fn.entry, rs, m, tr), k),
                         if k == 0 then L.Running(fn.entry, CopyAll(moves, ls), m, tr)
                         else Iterate(L.Stepper(o, code), L.Running(fn.entry, ls, m, tr), k))
  {
    var code := WithEntryMoves(TransformCode(fn.code, alloc), fn.entry, moves);
    var f, g := Stepper(o, fn.code), L.Stepper(o, code);
    var s, t := Running(fn.entry, rs, m, tr), L.Running(fn.entry, ls, m, tr);
    if k == 0 {
    } else {
      FirstStep(o, fn, info, alloc, moves, rs, ls, m, tr);
      RunAfterEntry(o, fn, info, alloc, moves, f(s), g(t), k - 1);
      assert Iterate(f, s, k) == Iterate(f, f(s), k - 1) && Iterate(g, t, k) == Iterate(g, g(t), k - 1);
    }
  }

  /** Register allocation preserves meaning: from the entry, k RTL steps and k LTL blocks lead to matching
      states, whatever is in the caller-saved registers after calls. */
  lemma AllocationPreservesMeaning(o: Oracle, fn: Function, info: LivenessInfo, alloc: Places, moves: seq<Move>,
                                   ls: L.LocSet, m: Mem, tr: Trace, k: nat) returns (rs: RegFile)
    requires IsSolution(fn.code, info) && IsLeast(fn.code, info) && GoodAllocation(fn, info, alloc)
    requires Distinct(fn.params) && EnteredOnce(fn, moves)
    requires IsParallel(moves, NeededMoves(ArrivalPlaces(|fn.params|), ParamPlaces(fn.params, alloc)))
    ensures forall i | 0 <= i < |fn.params| :: Get(rs, fn.params[i]) == Get(ls, ArgLocation(i))
    ensures var code := WithEntryMoves(TransformCode(fn.code, alloc), fn.entry, moves);
      Match(info, alloc, Iterate(Stepper(o, fn.code), Running(fn.entry, rs, m, tr), k),
                         if k == 0 then L.Running(fn.entry, CopyAll(moves, ls), m, tr)
                         else Iterate(L.Stepper(o, code), L.Running(fn.entry, ls, m, tr), k))
  {
    var code := WithEntryMoves(TransformCode(fn.code, alloc), fn.entry, moves);
    rs := StartRegs(fn, alloc, ls, CopyAll(moves, ls));
    forall i | 0 <= i < |fn.params|
      ensures Get(rs, fn.params[i]) == Get(ls, ArgLocation(i))
    {
      StartHoldsArguments(fn, alloc, ls, CopyAll(moves, ls), i);
    }
    StartMatches(fn, info, alloc, moves, ls);
    RunFromEntry(o, fn, info, alloc, moves, rs, ls, m, tr, k);
  }

  /** The block of every instruction. */
  method TransformBlocks(body: Code, places: Places) returns (code: L.Code)
    ensures code == TransformCode(body, places)
  {
    code := map[];
    var todo := body.Keys;
    while todo != {}
      invariant todo <= body.Keys && code.Keys == body.Keys - todo
      invariant forall n | n in code :: code[n] == TransformInstr(body[n], places)
      decreases todo
    {
      var n :| n in todo;
      todo := todo - {n};
      code := code[n := TransformInstr(body[n], places)];
    }
    assert code == TransformCode(body, places);
  }

  /** The moves touch only places of parameters, and temporaries. */
  ghost predicate MovesParams(moves: seq<Move>, fn: Function, places: Places) {
    StaysIn(moves, set l | l in ArrivalPlaces(|fn.params|) + ParamPlaces(fn.params, places))
  }

  /** The blocks of an allocated function, with the moves that take its parameters from where they arrive. */
  method TransformAllocated(fn: Function, ghost info: LivenessInfo, places: Places)
    returns (f: L.Function, ghost moves: seq<Move>)
    ensures f.entry == fn.entry && f.params == ArrivalPlaces(|fn.params|)
    ensures f.code == WithEntryMoves(TransformCode(fn.code, places), fn.entry, moves)
    ensures IsSolution(fn.code, info) && IsLeast(fn.code, info) && GoodAllocation(fn, info, places) && Distinct(fn.params) ==>
      IsParallel(moves, NeededMoves(ArrivalPlaces(|fn.params|), ParamPlaces(fn.params, places)))
    ensures MovesParams(moves, fn, places)
  {
    var code := TransformBlocks(fn.code, places);
    var entryMoves := ResolveParallelMoves(ArrivalPlaces(|fn.params|), ParamPlaces(fn.params, places));
    moves := entryMoves;
    if IsSolution(fn.code, info) && IsLeast(fn.code, info) && GoodAllocation(fn, info, places) && Distinct(fn.params) {
      EntryMovesFeasible(fn, info, places);
    }
    if fn.entry in code && |entryMoves| > 0 {
      code := code[fn.entry := MoveInstrs(entryMoves) + code[fn.entry]];
    }
    f := L.Function(ArrivalPlaces(|fn.params|), code, fn.entry);
  }

  /** TransformFunction: allocation, one block per node, and the entry moves. */
  method TransformFunction(fn: Function, rounds: nat)
    returns (result: Option<L.Function>, ghost info: LivenessInfo, ghost alloc: Places, ghost moves: seq<Move>, ghost run: seq<Rounds.Snapshot>)
    ensures LoopRun(fn, info, rounds, run) && (result.Some? <==> Rounds.Last(run).IsIdle())
    ensures result.Some? ==>
      && result.value.entry == fn.entry && result.value.params == ArrivalPlaces(|fn.params|)
      && result.value.code == WithEntryMoves(TransformCode(fn.code, alloc), fn.entry, moves)
      && Total(AllRegs(fn), alloc) && MovesParams(moves, fn, alloc)
    ensures result.Some? && ParamsKeepPlaces(fn, LiveOutOfCalls(fn.code, info, fn.code.Keys)) ==>
      && IsSolution(fn.code, info) && IsLeast(fn.code, info) && GoodAllocation(fn, info, alloc)
      && IsParallel(moves, NeededMoves(ArrivalPlaces(|fn.params|), ParamPlaces(fn.params, alloc)))
  {
    var live, allocation, loop := AllocateFunction(fn, rounds);
    info, run := live, loop;
    if allocation.None? {
      return None, info, map[], [], run;
    }
    alloc := allocation.value.regToLoc;
    var f, entryMoves := TransformAllocated(fn, info, allocation.value.regToLoc);
    return Some(f), info, alloc, entryMoves, run;
  }
}
