/** Callee-saved registers (pkg/stacking/calleesave.go, prolog.go): which are saved, where, and how they are
    restored. */
module Prolog {
  import opened Values
  import opened Frame
  import opened Mach
  import L = LTL
  import Lin = Linear

  // --- Which registers are saved ---

  function Regs(locs: seq<L.Loc>): set<MReg> {
    set l | l in locs && l.R? :: l.reg
  }

  /** The operands that are looked through for registers: not those of calls and built-ins. */
  function CollectedLocs(i: Lin.Instr): seq<L.Loc> {
    match i
    case Lcond(_, args, _) => args
    case Ljumptable(arg, _) => [arg]
    case Lcall(_, _) => []
    case Ltailcall(_, _) => []
    case Lbuiltin(_, _, _) => []
    case _ => Lin.Operands(i)
  }

  function UsedRegs(code: Lin.Code): set<MReg> {
    set i, r | i in code && r in Regs(CollectedLocs(i)) :: r
  }

  ghost predicate Ascending(regs: seq<MReg>) {
    forall i, j | 0 <= i < j < |regs| :: regs[i] < regs[j]
  }

  ghost predicate SortedFrom(a: seq<MReg>, i: nat)
    requires i <= |a|
  {
    forall j, k | 0 <= j < i && j < k < |a| :: a[j] <= a[k]
  }

  ghost predicate Swapped(a: seq<MReg>, b: seq<MReg>, i: nat, j: nat) {
    i < j < |a| && b == a[i := a[j]][j := a[i]]
  }

  lemma SwapKeeps(a: seq<MReg>, b: seq<MReg>, i: nat, j: nat)
    requires Swapped(a, b, i, j)
    ensures multiset(b) == multiset(a)
  {
    assert a == a[..i] + [a[i]] + a[i + 1..j] + [a[j]] + a[j + 1..];
    assert b == a[..i] + [a[j]] + a[i + 1..j] + [a[i]] + a[j + 1..];
  }

  lemma SwapSorts(a: seq<MReg>, b: seq<MReg>, i: nat, j: nat)
    requires Swapped(a, b, i, j) && SortedFrom(a, i) && a[i] > a[j] && forall k | i < k < j :: a[i] <= a[k]
    ensures SortedFrom(b, i) && forall k | i < k <= j :: b[i] <= b[k]
  {
    forall p, q | 0 <= p < i && p < q < |b|
      ensures b[p] <= b[q]
    {
      assert b[q] == a[if q == i then j else if q == j then i else q];
    }
  }

  /** Sorts by exchanging. */
  method SortRegs(regs: array<MReg>)
    modifies regs
    ensures SortedFrom(regs[..], regs.Length) && multiset(regs[..]) == multiset(old(regs[..]))
  {
    var n := regs.Length;
    var i := 0;
    while i < n
      invariant i <= n && SortedFrom(regs[..], i) && multiset(regs[..]) == multiset(old(regs[..]))
    {
      var j := i + 1;
      while j < n
        invariant i < j <= n && SortedFrom(regs[..], i) && multiset(regs[..]) == multiset(old(regs[..]))
        invariant forall k | i < k < j :: regs[..][i] <= regs[..][k]
      {
        if regs[i] > regs[j] {
          ghost var before := regs[..];
          regs[i], regs[j] := regs[j], regs[i];
          assert Swapped(before, regs[..], i, j);
          SwapKeeps(before, regs[..], i, j);
          SwapSorts(before, regs[..], i, j);
        }
        j := j + 1;
      }
      i := i + 1;
    }
  }

  /** The callee-saved registers among those collected, in order. */
  ghost predicate AreSaved(code: Lin.Code, regs: seq<MReg>) {
    Ascending(regs) && forall r :: r in regs <==> r in UsedRegs(code) && L.IsCalleeSaved(r)
  }

  method CollectRegs(code: Lin.Code) returns (used: set<MReg>)
    ensures used == UsedRegs(code)
  {
    used := {};
    for k := 0 to |code|
      invariant used == UsedRegs(code[..k])
    {
      used := used + Regs(CollectedLocs(code[k]));
      assert code[..k + 1] == code[..k] + [code[k]];
    }
    assert code[..|code|] == code;
  }

  /** The elements of a set, once each, in any order. */
  ghost predicate Lists(regs: seq<MReg>, rs: set<MReg>) {
    (forall r :: r in regs <==> r in rs) && forall i, j | 0 <= i < j < |regs| :: regs[i] != regs[j]
  }

  function CalleeSavedIn(rs: set<MReg>): set<MReg> {
    set r | r in rs && L.IsCalleeSaved(r)
  }

  method ListCalleeSaved(used: set<MReg>) returns (regs: seq<MReg>)
    ensures Lists(regs, CalleeSavedIn(used))
  {
    regs := [];
    var todo := used;
    while todo != {}
      invariant todo <= used && Lists(regs, CalleeSavedIn(used - todo))
      decreases todo
    {
      var r :| r in todo;
      ghost var before := CalleeSavedIn(used - todo);
      todo := todo - {r};
      assert CalleeSavedIn(used - todo) == before + if L.IsCalleeSaved(r) then {r} else {};
      if L.IsCalleeSaved(r) {
        regs := regs + [r];
      }
    }
  }

  method FindUsedCalleeSaveRegs(code: Lin.Code) returns (regs: seq<MReg>)
    ensures AreSaved(code, regs)
  {
    var used := CollectRegs(code);
    var unsorted := ListCalleeSaved(used);
    var a := new MReg[|unsorted|](i requires 0 <= i < |unsorted| => unsorted[i]);
    assert a[..] == unsorted;
    SortRegs(a);
    regs := a[..];
    SortedLists(unsorted, regs, CalleeSavedIn(used));
  }

  lemma SortedLists(a: seq<MReg>, b: seq<MReg>, rs: set<MReg>)
    requires Lists(a, rs) && multiset(a) == multiset(b) && SortedFrom(b, |b|)
    ensures Ascending(b) && forall r :: r in b <==> r in rs
  {
    forall r
      ensures r in b <==> r in rs
    {
      assert r in b <==> r in multiset(b);
      assert r in a <==> r in multiset(a);
    }
    forall i, j | 0 <= i < j < |b|
      ensures b[i] < b[j]
    {
      OnceEach(a, b[i]);
      assert b == b[..i] + [b[i]] + b[i + 1..j] + [b[j]] + b[j + 1..];
    }
  }

  lemma {:induction false} OnceEach(a: seq<MReg>, r: MReg)
    requires forall i, j | 0 <= i < j < |a| :: a[i] != a[j]
    ensures multiset(a)[r] <= 1
    decreases |a|
  {
    if a != [] {
      OnceEach(a[1..], r);
      assert a == [a[0]] + a[1..];
      if a[0] == r {
        assert r !in a[1..];
      }
    }
  }

  /** What an instruction itself may write. */
  function WrittenRegs(i: Lin.Instr): set<MReg> {
    match i
    case Lgetstack(_, _, _, reg) => {reg}
    case Lop(_, _, dest) => Regs([dest])
    case Lload(_, _, _, dest) => Regs([dest])
    case Lbuiltin(_, _, res) => if res.Some? then Regs([res.value]) else {}
    case _ => {}
  }

  /** Every callee-saved register that the code writes is saved. */
  ghost predicate SavesEnough(code: Lin.Code, regs: seq<MReg>) {
    forall i, r | i in code && r in WrittenRegs(i) && L.IsCalleeSaved(r) :: r in regs
  }

  /** The results of built-ins are not looked at, so their registers must occur elsewhere. */
  lemma SavesEnoughIff(code: Lin.Code, regs: seq<MReg>)
    requires AreSaved(code, regs)
    ensures SavesEnough(code, regs) <==>
            forall i, r | i in code && i.Lbuiltin? && i.res == Some(L.R(r)) && L.IsCalleeSaved(r) :: r in UsedRegs(code)
  {
    forall i, r | i in code && r in WrittenRegs(i) && L.IsCalleeSaved(r)
      ensures r in regs || (i.Lbuiltin? && i.res == Some(L.R(r)))
    {
      if !i.Lbuiltin? {
        assert r in Regs(CollectedLocs(i)) by {
          assert L.R(r) in CollectedLocs(i);
        }
      }
    }
    forall i, r | i in code && i.Lbuiltin? && i.res == Some(L.R(r))
      ensures r in WrittenRegs(i)
    {
      assert L.R(r) in [L.R(r)];
    }
  }

  /** With a built-in whose result is in X19, and nothing else there, X19 is not saved. */
  lemma BuiltinRegisterIsMissed(regs: seq<MReg>)
    requires AreSaved([Lin.Lbuiltin("b", [], Some(L.R(19))), Lin.Lreturn], regs)
    ensures 19 !in regs && !SavesEnough([Lin.Lbuiltin("b", [], Some(L.R(19))), Lin.Lreturn], regs)
  {
    var code := [Lin.Lbuiltin("b", [], Some(L.R(19))), Lin.Lreturn];
    assert UsedRegs(code) == {};
    SavesEnoughIff(code, regs);
    assert code[0] in code;
  }

  // --- How they are saved ---

  function PadToEven(regs: seq<MReg>): (r: seq<MReg>)
    ensures |r| % 2 == 0 && |regs| <= |r| <= |regs| + 1 && r[..|regs|] == regs
    ensures forall x | x in r :: x in regs
  {
    if |regs| % 2 == 0 then regs else regs + [regs[|regs| - 1]]
  }

  datatype CalleeSaveInfo = CalleeSaveInfo(regs: seq<MReg>, offsets: seq<int>)

  method ComputeCalleeSaveInfo(regs: seq<MReg>) returns (info: CalleeSaveInfo)
    ensures info == InfoFor(regs)
  {
    var offsets: seq<int> := [];
    var offset := -8;
    for i := 0 to |regs|
      invariant |offsets| == i && offset == SaveOffset(i)
      invariant forall k | 0 <= k < i :: offsets[k] == SaveOffset(k)
    {
      offsets := offsets + [offset];
      offset := offset - 8;
    }
    info := CalleeSaveInfo(regs, offsets);
  }

  function InfoFor(regs: seq<MReg>): CalleeSaveInfo {
    CalleeSaveInfo(regs, seq(|regs|, i requires 0 <= i < |regs| => SaveOffset(i)))
  }

  /** The first k registers are in their places, and nothing else has changed. */
  ghost predicate Saved(regs: seq<MReg>, k: nat, s: Machine, t: Machine)
    requires k <= |regs|
  {
    && t.regs == s.regs && t.m == s.m && t.tr == s.tr
    && (forall i | 0 <= i < k :: Peek(t.stack, SaveOffset(i), L.Tlong) == Get(s.regs, regs[i]))
    && (forall a, ty {:trigger Peek(t.stack, a, ty)} {:trigger Peek(s.stack, a, ty)} |
          DisjointRanges(a, SlotSize(ty), -8 * k, 8 * k) :: Peek(t.stack, a, ty) == Peek(s.stack, a, ty))
  }

  ghost predicate SavesOn(regs: seq<MReg>, k: nat, code: Code, o: Oracle, layout: FrameLayout, s: Machine)
    requires k <= |regs|
  {
    var r := ExecAll(o, layout, code, s);
    r.Some? && Saved(regs, k, s, r.value)
  }

  ghost predicate SavesUpTo(regs: seq<MReg>, k: nat, code: Code)
    requires k <= |regs|
  {
    && (forall c | c in code :: c.Msetstack?)
    && forall o, layout, s :: SavesOn(regs, k, code, o, layout, s)
  }

  /** The part of the prologue that saves the registers, two at a time: all of them if their number is even. */
  method SaveRegisters(regs: seq<MReg>) returns (code: Code)
    ensures SavesUpTo(regs, |regs| / 2 * 2, code)
  {
    var info := ComputeCalleeSaveInfo(regs);
    code := [];
    var i := 0;
    while i + 1 < |regs|
      invariant 0 <= i <= |regs| && i % 2 == 0
      invariant SavesUpTo(regs, i, code)
    {
      SavesOneMore(regs, i, code);
      code := code + [Msetstack(regs[i], info.offsets[i], L.Tlong)];
      SavesOneMore(regs, i + 1, code);
      code := code + [Msetstack(regs[i + 1], info.offsets[i + 1], L.Tlong)];
      i := i + 2;
    }
  }

  lemma SavesOneMore(regs: seq<MReg>, k: nat, code: Code)
    requires k < |regs| && SavesUpTo(regs, k, code)
    ensures SavesUpTo(regs, k + 1, code + [Msetstack(regs[k], SaveOffset(k), L.Tlong)])
  {
    var i := Msetstack(regs[k], SaveOffset(k), L.Tlong);
    var k', code' := k + 1, code + [i];
    forall o, layout, s
      ensures SavesOn(regs, k', code', o, layout, s)
    {
      assert SavesOn(regs, k, code, o, layout, s);
      ExecAllLast(o, layout, code, i, s);
      SaveOne(regs, k, s, ExecAll(o, layout, code, s).value);
    }
  }

  lemma SaveOne(regs: seq<MReg>, k: nat, s: Machine, t: Machine)
    requires k < |regs| && Saved(regs, k, s, t)
    ensures Saved(regs, k + 1, s, t.(stack := Put(t.stack, SaveOffset(k), L.Tlong, Get(t.regs, regs[k]))))
  {
    PeekPut(t.stack, SaveOffset(k), L.Tlong, Get(t.regs, regs[k]));
  }

  // --- How they are restored ---

  /** Register r holds what is in one of its places from k on. */
  ghost predicate HoldsPlace(regs: seq<MReg>, k: nat, s: Machine, t: Machine, r: MReg) {
    exists i | k <= i < |regs| :: regs[i] == r && Get(t.regs, r) == Peek(s.stack, SaveOffset(i), L.Tlong)
  }

  /** Registers from k on hold what is in their places, and nothing else has changed. */
  ghost predicate Restored(regs: seq<MReg>, k: nat, s: Machine, t: Machine)
    requires k <= |regs|
  {
    && t.stack == s.stack && t.m == s.m && t.tr == s.tr
    && (forall r | r in regs[k..] :: HoldsPlace(regs, k, s, t, r))
    && (forall r | r !in regs[k..] :: Get(t.regs, r) == Get(s.regs, r))
  }

  ghost predicate RestoresOn(regs: seq<MReg>, k: nat, code: Code, o: Oracle, layout: FrameLayout, s: Machine)
    requires k <= |regs|
  {
    var r := ExecAll(o, layout, code, s);
    r.Some? && Restored(regs, k, s, r.value)
  }

  ghost predicate RestoresFrom(regs: seq<MReg>, k: nat, code: Code)
    requires k <= |regs|
  {
    && (forall c | c in code :: c.Mgetstack?)
    && forall o, layout, s :: RestoresOn(regs, k, code, o, layout, s)
  }

  function RestoreCode(regs: seq<MReg>, i: nat): Instr
    requires i < |regs|
  {
    Mgetstack(SaveOffset(i), L.Tlong, regs[i])
  }

  lemma RestoresTwoMore(regs: seq<MReg>, k: nat, code: Code)
    requires k + 2 <= |regs| && RestoresFrom(regs, k + 2, code)
    ensures RestoresFrom(regs, k, code + [RestoreCode(regs, k)] + [RestoreCode(regs, k + 1)])
  {
    var first, second := RestoreCode(regs, k), RestoreCode(regs, k + 1);
    forall o, layout, s
      ensures RestoresOn(regs, k, code + [first] + [second], o, layout, s)
    {
      assert RestoresOn(regs, k + 2, code, o, layout, s);
      var t := ExecAll(o, layout, code, s).value;
      ExecAllLast(o, layout, code, first, s);
      ExecAllLast(o, layout, code + [first], second, s);
      RestoreTwo(regs, k, s, t);
    }
  }

  lemma RestoreTwo(regs: seq<MReg>, k: nat, s: Machine, t: Machine)
    requires k + 2 <= |regs| && Restored(regs, k + 2, s, t)
    ensures Restored(regs, k, s, t.(regs := t.regs[regs[k] := Peek(t.stack, SaveOffset(k), L.Tlong)]
                                                  [regs[k + 1] := Peek(t.stack, SaveOffset(k + 1), L.Tlong)]))
  {
    var u := t.(regs := t.regs[regs[k] := Peek(t.stack, SaveOffset(k), L.Tlong)][regs[k + 1] := Peek(t.stack, SaveOffset(k + 1), L.Tlong)]);
    assert regs[k..] == [regs[k], regs[k + 1]] + regs[k + 2..];
    forall r | r in regs[k..]
      ensures HoldsPlace(regs, k, s, u, r)
    {
      if r == regs[k + 1] {
      } else if r == regs[k] {
      } else {
        assert HoldsPlace(regs, k + 2, s, t, r);
      }
    }
  }

  /** The part of the epilogue that restores the registers, the last two first. */
  method RestoreRegisters(regs: seq<MReg>) returns (code: Code)
    ensures RestoresFrom(regs, |regs| % 2, code)
  {
    var info := ComputeCalleeSaveInfo(regs);
    code := [];
    var i: int := |regs| - 2;
    assert regs[|regs|..] == [];
    while i >= 0
      invariant -2 <= i <= |regs| - 2 && (|regs| - i) % 2 == 0
      invariant RestoresFrom(regs, i + 2, code)
      decreases i + 2
    {
      RestoresTwoMore(regs, i, code);
      code := code + [Mgetstack(info.offsets[i], L.Tlong, regs[i])];
      code := code + [Mgetstack(info.offsets[i + 1], L.Tlong, regs[i + 1])];
      i := i - 2;
    }
    LastIndex(i, |regs|);
  }

  lemma LastIndex(i: int, n: nat)
    requires -2 <= i < 0 && (n - i) % 2 == 0
    ensures i + 2 == n % 2
  {
  }

  // --- What is kept ---

  /** What comes between: the places of the registers are left alone. */
  ghost predicate LeavesSaveArea(n: nat, s: Machine, t: Machine) {
    forall i | 0 <= i < n :: Peek(t.stack, SaveOffset(i), L.Tlong) == Peek(s.stack, SaveOffset(i), L.Tlong)
  }

  ghost predicate KeepsOn(regs: seq<MReg>, save: Code, restore: Code, o: Oracle, layout: FrameLayout, s: Machine, t: Machine) {
    var r, u := ExecAll(o, layout, save, s), ExecAll(o, layout, restore, t);
    r.Some? && LeavesSaveArea(|regs|, r.value, t) ==> u.Some? && forall x | x in regs :: Get(u.value.regs, x) == Get(s.regs, x)
  }

  /** After the epilogue the registers hold what they held before the prologue, whatever happened in between. */
  ghost predicate KeepsRegisters(regs: seq<MReg>, save: Code, restore: Code) {
    forall o, layout, s, t :: KeepsOn(regs, save, restore, o, layout, s, t)
  }

  ghost predicate Distinct(regs: seq<MReg>) {
    forall i, j | 0 <= i < j < |regs| :: regs[i] != regs[j]
  }

  /** With an even number of registers, as after padding, all of them are kept; with an odd number of different
      registers the first is lost. */
  lemma RegistersKeptIffEven(regs: seq<MReg>, save: Code, restore: Code, o: Oracle, layout: FrameLayout)
    requires SavesUpTo(regs, |regs| / 2 * 2, save) && RestoresFrom(regs, |regs| % 2, restore)
    requires |regs| % 2 == 1 ==> Distinct(regs)
    ensures KeepsRegisters(regs, save, restore) <==> |regs| % 2 == 0
  {
    if |regs| % 2 == 0 {
      forall o, layout, s, t
        ensures KeepsOn(regs, save, restore, o, layout, s, t)
      {
        EvenKeeps(regs, save, restore, o, layout, s, t);
      }
    } else {
      OddLoses(regs, save, restore, o, layout);
    }
  }

  lemma EvenKeeps(regs: seq<MReg>, save: Code, restore: Code, o: Oracle, layout: FrameLayout, s: Machine, t: Machine)
    requires |regs| % 2 == 0 && SavesUpTo(regs, |regs|, save) && RestoresFrom(regs, 0, restore)
    ensures KeepsOn(regs, save, restore, o, layout, s, t)
  {
    assert SavesOn(regs, |regs|, save, o, layout, s) && RestoresOn(regs, 0, restore, o, layout, t);
    assert regs[0..] == regs;
    var r, u := ExecAll(o, layout, save, s).value, ExecAll(o, layout, restore, t).value;
    forall x | x in regs && LeavesSaveArea(|regs|, r, t)
      ensures Get(u.regs, x) == Get(s.regs, x)
    {
      assert HoldsPlace(regs, 0, t, u, x);
    }
  }

  lemma OddLoses(regs: seq<MReg>, save: Code, restore: Code, o: Oracle, layout: FrameLayout)
    requires |regs| % 2 == 1 && Distinct(regs)
    requires SavesUpTo(regs, |regs| / 2 * 2, save) && RestoresFrom(regs, 1, restore)
    ensures !KeepsRegisters(regs, save, restore)
  {
    var s := Machine(map[], map[], map[], []);
    assert SavesOn(regs, |regs| / 2 * 2, save, o, layout, s);
    var r := ExecAll(o, layout, save, s).value;
    var t := r.(regs := map[regs[0] := Vnum(1)]);
    assert RestoresOn(regs, 1, restore, o, layout, t);
    assert regs[0] !in regs[1..];
    assert !KeepsOn(regs, save, restore, o, layout, s, t);
  }

  /** Padding makes the number even without adding another register. */
  lemma PaddedRegistersAreKept(regs: seq<MReg>, save: Code, restore: Code, o: Oracle, layout: FrameLayout)
    requires var padded := PadToEven(regs);
      SavesUpTo(padded, |padded| / 2 * 2, save) && RestoresFrom(padded, |padded| % 2, restore)
    ensures KeepsRegisters(PadToEven(regs), save, restore)
    ensures forall r :: r in PadToEven(regs) <==> r in regs
  {
    RegistersKeptIffEven(PadToEven(regs), save, restore, o, layout);
  }
}
