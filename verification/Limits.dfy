/** Functions on which the passes go wrong although all but one of the theorems' conditions hold. */
module Limits {
  import opened Values
  import opened RTL
  import opened Runs
  import opened Liveness
  import opened Interference
  import opened Conventions
  import opened Params
  import opened Coloring
  import opened Irc
  import opened Moves
  import opened RegMoves
  import opened RegTransform
  import opened CallMoves
  import opened Pipeline
  import L = LTL
  import Lin = Linear

  /** An allocation with different places for all registers is good, if those that cross calls survive and parameters stay. */
  lemma ApartIsGood(fn: Function, info: LivenessInfo, alloc: Places, lac: set<Reg>)
    requires IsSolution(fn.code, info) && AllRegs(fn) <= alloc.Keys && Total(alloc.Keys, alloc)
    requires forall n | n in fn.code :: info.liveOut[n] <= alloc.Keys
    requires forall a, b | a in alloc && b in alloc && a != b :: alloc[a] != alloc[b]
    requires lac == LiveOutOfCalls(fn.code, info, fn.code.Keys)
    requires CallSafe(lac, alloc) && ParamsStay(Precolored(fn.params, lac), alloc)
    ensures GoodAllocation(fn, info, alloc)
  {
    forall a, b | Interferes(fn, info, a, b)
      ensures a in alloc && b in alloc && a != b
    {
      if Clash(fn.code, info, fn.code.Keys, a, b) {
        assert a in AllDefs(fn.code);
      } else if Clash(fn.code, info, fn.code.Keys, b, a) {
        assert b in AllDefs(fn.code);
      }
    }
  }

  // --- A pointer in the way of an argument ---

  /** A function that calls its first parameter with its second. */
  function Apply(): Function {
    Function([1, 2], map[1 := Icall(Sig(1), FunReg(1), [2], 3, 2), 2 := Ireturn(Some(3))], 1)
  }

  /** The parameters where they arrive, and the result in X19, because it is live after the call. */
  function ApplyPlaces(): Places {
    map[1 := L.R(0), 2 := L.R(1), 3 := L.R(19)]
  }

  lemma ReturnedIsLive(info: LivenessInfo)
    requires IsSolution(Apply().code, info)
    ensures At(info.liveIn, 2) == {3} && info.liveOut[2] == {}
  {
    var i := Apply().code[2];
    assert SolvedAt(Apply().code, info, 2);
    assert LiveAfter(info.liveIn, i) == {} && Uses(i) == {3};
  }

  lemma ApplyLiveness(info: LivenessInfo)
    requires IsSolution(Apply().code, info)
    ensures info.liveOut[1] == {3} && LiveOutOfCalls(Apply().code, info, Apply().code.Keys) == {3}
  {
    var i := Apply().code[1];
    ReturnedIsLive(info);
    assert SolvedAt(Apply().code, info, 1);
    assert i.Successors() == [2] && 2 in i.Successors();
    assert LiveAfter(info.liveIn, i) == {3};
  }

  lemma ApplyKeepsPlaces()
    ensures ParamsKeepPlaces(Apply(), {3})
  {
    var fn := Apply();
    forall p | p in fn.params
      ensures p !in AllDefs(fn.code)
    {
      assert Defs(fn.code[1]) == {3} && Defs(fn.code[2]) == {};
    }
  }

  lemma ApplyRegs()
    ensures AllRegs(Apply()) == {1, 2, 3} && AllDefs(Apply().code) == {3}
  {
    var code := Apply().code;
    assert Defs(code[1]) == {3} && Defs(code[2]) == {};
    assert Uses(code[1]) == {1, 2} && Uses(code[2]) == {3};
    assert Elements([1, 2]) == {1, 2};
  }

  lemma ApplyPrecolored()
    ensures Precolored([1, 2], {3}) == map[1 := L.R(0), 2 := L.R(1)]
  {
    var params: seq<Reg> := [1, 2];
    assert params[0] == 1 && params[1] == 2;
    assert LastIndex(params, 1) == 0 && LastIndex(params, 2) == 1;
    assert Precolored(params, {3}).Keys == {1, 2};
  }

  lemma ApplyUnsafe(alloc: Places)
    requires ParamsStay(Precolored([1, 2], {3}), alloc)
    ensures !CallsSafe(Apply(), alloc)
  {
    ApplyPrecolored();
    assert 1 in Precolored([1, 2], {3}) && 2 in Precolored([1, 2], {3});
    var args := TransformRegs([2], alloc);
    assert args == [L.R(1)];
    assert Lin.ArgPlace(0) == L.R(0) && args[0] != L.R(0);
    assert !CalleeSafe(L.FunLoc(L.R(0)), args);
    assert !InstrSafe(Apply().code[1], alloc);
  }

  /** Its parameters may be placed where they arrive, and then every allocation that is good has the pointer in X0,
      which is also where the argument goes: the call is not safe.  There is such an allocation. */
  lemma PointerParameterIsLost(info: LivenessInfo, alloc: Places)
    requires IsSolution(Apply().code, info)
    ensures ParamsKeepPlaces(Apply(), LiveOutOfCalls(Apply().code, info, Apply().code.Keys))
    ensures GoodAllocation(Apply(), info, alloc) ==> !CallsSafe(Apply(), alloc)
    ensures GoodAllocation(Apply(), info, ApplyPlaces())
  {
    ApplyLiveness(info);
    ApplyKeepsPlaces();
    if GoodAllocation(Apply(), info, alloc) {
      ApplyUnsafe(alloc);
    }
    ApplyAllocation(info);
  }

  lemma ApplyAllocation(info: LivenessInfo)
    requires IsSolution(Apply().code, info)
    ensures GoodAllocation(Apply(), info, ApplyPlaces())
  {
    ApplyLiveness(info);
    ApplyRegs();
    ApplyBounds(info);
    ApplyPlacesFit();
    ApartIsGood(Apply(), info, ApplyPlaces(), {3});
  }

  lemma ApplyPlacesFit()
    ensures Total(ApplyPlaces().Keys, ApplyPlaces()) && CallSafe({3}, ApplyPlaces())
    ensures ParamsStay(Precolored(Apply().params, {3}), ApplyPlaces())
    ensures forall a, b | a in ApplyPlaces() && b in ApplyPlaces() && a != b :: ApplyPlaces()[a] != ApplyPlaces()[b]
  {
    ApplyPrecolored();
  }

  lemma ApplyBounds(info: LivenessInfo)
    requires IsSolution(Apply().code, info)
    ensures forall n | n in Apply().code :: info.liveOut[n] <= {1, 2, 3}
  {
    ApplyLiveness(info);
    ReturnedIsLive(info);
  }

  // --- An entry that is entered again ---

  /** A function that goes on calling f with its parameter. */
  function Again(): Function {
    Function([1], map[1 := Icall(Sig(1), FunSymbol("f"), [1], 2, 1)], 1)
  }

  function AgainInfo(): LivenessInfo {
    LivenessInfo(map[1 := {1}], map[1 := {1}])
  }

  /** The parameter in X19, because it is live across the call, and the result in X0. */
  function AgainPlaces(): Places {
    map[1 := L.R(19), 2 := L.R(0)]
  }

  lemma AgainLiveness()
    ensures IsSolution(Again().code, AgainInfo()) && IsLeast(Again().code, AgainInfo())
    ensures LiveOutOfCalls(Again().code, AgainInfo(), Again().code.Keys) == {1}
  {
    var code, info := Again().code, AgainInfo();
    var i := code[1];
    assert i.Successors() == [1] && 1 in i.Successors();
    assert Uses(i) == {1} && Defs(i) == {2};
    assert At(info.liveIn, 1) == {1};
    assert LiveAfter(info.liveIn, i) == {1};
    assert SolvedAt(code, info, 1);
    forall other | IsClosed(code, other)
      ensures Below(info, other)
    {
      assert 1 in Uses(i) && 1 in other.liveIn[1] && 1 in At(other.liveIn, 1);
      assert 1 in LiveAfter(other.liveIn, i);
    }
  }

  lemma AgainKeepsPlaces()
    ensures ParamsKeepPlaces(Again(), {1}) && AllRegs(Again()) == {1, 2}
  {
    var fn := Again();
    assert Uses(fn.code[1]) == {1} && Defs(fn.code[1]) == {2};
    assert 1 in AllUses(fn.code) && Elements([1]) == {1};
  }

  lemma AgainAllocation()
    ensures GoodAllocation(Again(), AgainInfo(), AgainPlaces())
  {
    AgainLiveness();
    AgainKeepsPlaces();
    AgainPlacesFit();
    ApartIsGood(Again(), AgainInfo(), AgainPlaces(), {1});
  }

  lemma AgainPlacesFit()
    ensures Total(AgainPlaces().Keys, AgainPlaces()) && CallSafe({1}, AgainPlaces())
    ensures ParamsStay(Precolored(Again().params, {1}), AgainPlaces())
  {
    assert Precolored([1], {1}) == map[];
  }

  lemma AgainMoves(moves: seq<Move>, ls: L.LocSet)
    requires IsParallel(moves, NeededMoves(ArrivalPlaces(1), ParamPlaces([1], AgainPlaces())))
    ensures Get(CopyAll(moves, ls), L.R(19)) == Get(ls, L.R(0))
  {
    var src, dst := ArrivalPlaces(1), ParamPlaces([1], AgainPlaces());
    assert src == [L.R(0)] && dst == [L.R(19)];
    assert src[..0] == [] && dst[..0] == [];
    var ms := NeededMoves(src, dst);
    assert ms == [(L.R(0), L.R(19))];
    assert ms[0] in ms;
    assert IsParallelOn(moves, ms, ls);
  }

  const AGAIN_CALL: L.Instr := L.Lcall(Sig(1), L.FunSymbol("f"), [L.R(19)])

  lemma AgainBlock()
    ensures TransformCode(Again().code, AgainPlaces()) == map[1 := [AGAIN_CALL, L.Lbranch(1)]]
  {
    var i := Again().code[1];
    assert TransformRegs([1], AgainPlaces()) == [L.R(19)];
    assert ResultBlock(i, AgainPlaces()) == [L.Lbranch(1)];
    assert TransformInstr(i, AgainPlaces()) == [AGAIN_CALL] + [L.Lbranch(1)] == [AGAIN_CALL, L.Lbranch(1)];
  }

  ghost function AgainCode(moves: seq<Move>): L.Code {
    WithEntryMoves(TransformCode(Again().code, AgainPlaces()), 1, moves)
  }

  /** One time through the block: the argument is what is in X0, and afterwards X0 holds the result. */
  lemma AgainOnce(o: Oracle, moves: seq<Move>, ls: L.LocSet, m: Mem, tr: Trace, x: Val, v: Val, m': Mem)
    returns (ls': L.LocSet)
    requires IsParallel(moves, NeededMoves(ArrivalPlaces(1), ParamPlaces([1], AgainPlaces())))
    requires x == Get(ls, L.R(0)) && o.call(ToSymbol("f"), [x], m) == Some((v, m'))
    ensures L.Step(o, AgainCode(moves), L.Running(1, ls, m, tr)) == L.Running(1, ls', m', tr + [EvCall(ToSymbol("f"), [x])])
    ensures Get(ls', L.R(0)) == v
  {
    AgainBlock();
    AgainMoves(moves, ls);
    var code := TransformCode(Again().code, AgainPlaces());
    EntryStep(o, code, 1, moves, ls, m, tr);
    ls' := AgainCalls(o, code, CopyAll(moves, ls), m, tr, x, v, m');
  }

  lemma AgainCalls(o: Oracle, code: L.Code, ls: L.LocSet, m: Mem, tr: Trace, x: Val, v: Val, m': Mem)
    returns (ls': L.LocSet)
    requires 1 in code && code[1] == [AGAIN_CALL, L.Lbranch(1)]
    requires x == Get(ls, L.R(19)) && o.call(ToSymbol("f"), [x], m) == Some((v, m'))
    ensures L.Step(o, code, L.Running(1, ls, m, tr)) == L.Running(1, ls', m', tr + [EvCall(ToSymbol("f"), [x])])
    ensures Get(ls', L.R(0)) == v
  {
    L.BlockOfTwo(o, AGAIN_CALL, L.Lbranch(1), L.Machine(ls, m, tr));
    ls' := CallOfOne(o, Sig(1), "f", L.R(19), L.Machine(ls, m, tr), v, m');
  }

  lemma CallOfOne(o: Oracle, sig: Sig, name: string, arg: L.Loc, s: L.Machine, v: Val, m': Mem) returns (ls': L.LocSet)
    requires o.call(ToSymbol(name), [Get(s.ls, arg)], s.m) == Some((v, m'))
    ensures L.ExecInstr(o, L.Lcall(sig, L.FunSymbol(name), [arg]), s) ==
            Some(L.Machine(ls', m', s.tr + [EvCall(ToSymbol(name), [Get(s.ls, arg)])]))
    ensures Get(ls', L.R(0)) == v
  {
    assert GetAll(s.ls, [arg]) == [Get(s.ls, arg)];
    var junk := o.junk(ToSymbol(name), [Get(s.ls, arg)], s.m);
    ls' := L.AfterCall(s.ls, v, junk);
    ResultInX0(s.ls, v, junk);
  }

  lemma ResultInX0(ls: L.LocSet, v: Val, junk: map<MReg, Val>)
    ensures Get(L.AfterCall(ls, v, junk), L.R(0)) == v
  {
  }

  /** Everything holds but that the entry is entered again, and in the second round f is called with its own result. */
  lemma EntryMovesAreRepeated(o: Oracle, moves: seq<Move>, ls: L.LocSet, m: Mem, tr: Trace, x: Val, v: Val, w: Val, m1: Mem, m2: Mem)
    requires IsParallel(moves, NeededMoves(ArrivalPlaces(1), ParamPlaces([1], AgainPlaces())))
    requires x == Get(ls, L.R(0)) && o.call(ToSymbol("f"), [x], m) == Some((v, m1)) && o.call(ToSymbol("f"), [v], m1) == Some((w, m2))
    ensures IsSolution(Again().code, AgainInfo()) && IsLeast(Again().code, AgainInfo())
    ensures GoodAllocation(Again(), AgainInfo(), AgainPlaces()) && CallsSafe(Again(), AgainPlaces()) && NothingUndefined(Again(), AgainInfo())
    ensures var t := Iterate(L.Stepper(o, AgainCode(moves)), L.Running(1, ls, m, tr), 2);
      t.Running? && t.tr == tr + [EvCall(ToSymbol("f"), [x])] + [EvCall(ToSymbol("f"), [v])]
  {
    AgainLiveness();
    AgainAllocation();
    AgainCallIsSafe();
    var ls1 := AgainOnce(o, moves, ls, m, tr, x, v, m1);
    var tr1 := tr + [EvCall(ToSymbol("f"), [x])];
    var ls2 := AgainOnce(o, moves, ls1, m1, tr1, v, w, m2);
    TwoSteps(L.Stepper(o, AgainCode(moves)), L.Running(1, ls, m, tr));
  }

  lemma AgainCallIsSafe()
    ensures CallsSafe(Again(), AgainPlaces())
  {
    DirectCallIsSafe(Sig(1), "f", TransformRegs([1], AgainPlaces()));
  }

  lemma TwoSteps<S>(f: S -> S, s: S)
    ensures Iterate(f, s, 2) == f(f(s))
  {
    assert Iterate(f, f(s), 1) == Iterate(f, f(f(s)), 0);
  }
}
