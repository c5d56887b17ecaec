/** The entry moves of a function (pkg/regalloc/transform.go, resolveParallelMoves). */
module RegMoves {
  import opened Values
  import opened LTL
  import opened Moves
  import opened Params

  /** X8..X15, which resolveParallelMoves uses as temporaries. */
  predicate IsTemp(l: Loc) {
    l.R? && 8 <= l.reg <= 15
  }

  function NeededMoves(src: seq<Loc>, dst: seq<Loc>): seq<Move>
    requires |src| == |dst|
  {
    if src == [] then []
    else
      var last := |src| - 1;
      NeededMoves(src[..last], dst[..last]) + if src[last] != dst[last] then [(src[last], dst[last])] else []
  }

  ghost function Targets(ms: seq<Move>): set<Loc> {
    set m | m in ms :: m.1
  }

  /** Sources that some move overwrites. */
  ghost function Clobbered(ms: seq<Move>): set<Loc> {
    set m | m in ms && m.0 in Targets(ms) :: m.0
  }

  ghost predicate DistinctTargets(ms: seq<Move>) {
    forall i, j | 0 <= i < j < |ms| :: ms[i].1 != ms[j].1
  }

  /** Every target gets what its source held at the start, and nothing else but temporaries changes. */
  ghost predicate IsParallel(code: seq<Move>, ms: seq<Move>) {
    forall ls: LocSet :: IsParallelOn(code, ms, ls)
  }

  ghost predicate IsParallelOn(code: seq<Move>, ms: seq<Move>, ls: LocSet) {
    && (forall m | m in ms :: Get(CopyAll(code, ls), m.1) == Get(ls, m.0))
    && (forall l | l !in Targets(ms) && !IsTemp(l) :: Get(CopyAll(code, ls), l) == Get(ls, l))
  }

  /** After the saves, every saved location is in its temporary and nothing else but temporaries changed. */
  ghost predicate Saves(code: seq<Move>, saved: map<Loc, Loc>) {
    && (forall x | x in saved :: IsTemp(saved[x]))
    && (forall ls: LocSet :: SavesOn(code, saved, ls))
  }

  ghost predicate SavesOn(code: seq<Move>, saved: map<Loc, Loc>, ls: LocSet) {
    && (forall x | x in saved :: Get(CopyAll(code, ls), saved[x]) == Get(ls, x))
    && (forall l | !IsTemp(l) :: Get(CopyAll(code, ls), l) == Get(ls, l))
  }

  lemma SaveStep(code: seq<Move>, saved: map<Loc, Loc>, src: Loc, tmp: Loc)
    requires Saves(code, saved) && !IsTemp(src) && IsTemp(tmp)
    requires src !in saved && forall x | x in saved :: saved[x] != tmp
    ensures Saves(code + [(src, tmp)], saved[src := tmp])
  {
    var next, saved' := code + [(src, tmp)], saved[src := tmp];
    forall ls: LocSet
      ensures SavesOn(next, saved', ls)
    {
      assert SavesOn(code, saved, ls);
      CopyAllLast(code, (src, tmp), ls);
    }
  }

  /** The state of the second pass: the first k moves are done. */
  ghost predicate DoneUpTo(code: seq<Move>, ms: seq<Move>, k: nat, saved: map<Loc, Loc>)
    requires k <= |ms|
  {
    forall ls: LocSet :: DoneOn(code, ms, k, saved, ls)
  }

  ghost predicate DoneOn(code: seq<Move>, ms: seq<Move>, k: nat, saved: map<Loc, Loc>, ls: LocSet)
    requires k <= |ms|
  {
    var now := CopyAll(code, ls);
    Arrived(ms, k, ls, now) && StillSaved(saved, ls, now) && OthersKept(ms, k, ls, now)
  }

  ghost predicate Arrived(ms: seq<Move>, k: nat, ls: LocSet, now: LocSet)
    requires k <= |ms|
  {
    forall i | 0 <= i < k :: Get(now, ms[i].1) == Get(ls, ms[i].0)
  }

  ghost predicate StillSaved(saved: map<Loc, Loc>, ls: LocSet, now: LocSet) {
    forall x | x in saved :: Get(now, saved[x]) == Get(ls, x)
  }

  ghost predicate OthersKept(ms: seq<Move>, k: nat, ls: LocSet, now: LocSet)
    requires k <= |ms|
  {
    forall l | !IsTemp(l) && l !in Targets(ms[..k]) :: Get(now, l) == Get(ls, l)
  }

  lemma MoveStep(code: seq<Move>, ms: seq<Move>, k: nat, saved: map<Loc, Loc>)
    requires k < |ms| && DoneUpTo(code, ms, k, saved) && DistinctTargets(ms)
    requires forall m | m in ms :: !IsTemp(m.0) && !IsTemp(m.1)
    requires forall x | x in saved :: IsTemp(saved[x])
    requires Clobbered(ms) <= saved.Keys
    ensures var src := if ms[k].0 in saved then saved[ms[k].0] else ms[k].0;
      DoneUpTo(code + [(src, ms[k].1)], ms, k + 1, saved)
  {
    var m := ms[k];
    var src := if m.0 in saved then saved[m.0] else m.0;
    var next, k' := code + [(src, m.1)], k + 1;
    forall ls: LocSet
      ensures DoneOn(next, ms, k', saved, ls)
    {
      assert DoneOn(code, ms, k, saved, ls);
      MoveStepOn(code, ms, k, saved, src, ls);
    }
  }

  lemma TargetsStep(ms: seq<Move>, k: nat)
    requires k < |ms|
    ensures Targets(ms[..k + 1]) == Targets(ms[..k]) + {ms[k].1}
    ensures Targets(ms[..k]) <= Targets(ms)
  {
    assert ms[..k + 1] == ms[..k] + [ms[k]];
    assert forall t | t in ms[..k] :: t in ms;
  }

  lemma OneMoreArrives(ms: seq<Move>, k: nat, ls: LocSet, now: LocSet, v: Val)
    requires k < |ms| && Arrived(ms, k, ls, now) && DistinctTargets(ms) && v == Get(ls, ms[k].0)
    ensures Arrived(ms, k + 1, ls, now[ms[k].1 := v])
  {
  }

  lemma OthersStillKept(ms: seq<Move>, k: nat, ls: LocSet, now: LocSet, v: Val)
    requires k < |ms| && OthersKept(ms, k, ls, now)
    ensures OthersKept(ms, k + 1, ls, now[ms[k].1 := v])
  {
    TargetsStep(ms, k);
  }

  /** A source that is overwritten was saved, and another one is still there. */
  lemma SourceIsThere(ms: seq<Move>, k: nat, saved: map<Loc, Loc>, src: Loc, ls: LocSet, now: LocSet)
    requires k < |ms| && StillSaved(saved, ls, now) && OthersKept(ms, k, ls, now)
    requires !IsTemp(ms[k].0) && Clobbered(ms) <= saved.Keys
    requires src == if ms[k].0 in saved then saved[ms[k].0] else ms[k].0
    ensures Get(now, src) == Get(ls, ms[k].0)
  {
    TargetsStep(ms, k);
    assert ms[k] in ms;
    assert ms[k].0 in Targets(ms[..k]) ==> ms[k].0 in Clobbered(ms);
  }

  lemma MoveStepOn(code: seq<Move>, ms: seq<Move>, k: nat, saved: map<Loc, Loc>, src: Loc, ls: LocSet)
    requires k < |ms| && DoneOn(code, ms, k, saved, ls) && DistinctTargets(ms)
    requires !IsTemp(ms[k].0) && !IsTemp(ms[k].1)
    requires forall x | x in saved :: IsTemp(saved[x])
    requires Clobbered(ms) <= saved.Keys
    requires src == if ms[k].0 in saved then saved[ms[k].0] else ms[k].0
    ensures DoneOn(code + [(src, ms[k].1)], ms, k + 1, saved, ls)
  {
    var now := CopyAll(code, ls);
    SourceIsThere(ms, k, saved, src, ls, now);
    CopyAllLast(code, (src, ms[k].1), ls);
    OneMoreArrives(ms, k, ls, now, Get(now, src));
    OthersStillKept(ms, k, ls, now, Get(now, src));
  }

  /** The moves are a parallel assignment the temporaries can serve: targets are distinct, no location is a
      temporary, and at most eight sources are overwritten. */
  ghost predicate Feasible(ms: seq<Move>) {
    && DistinctTargets(ms) && |Clobbered(ms)| <= 8
    && forall m | m in ms :: !IsTemp(m.0) && !IsTemp(m.1)
  }

  method CollectMoves(src: seq<Loc>, dst: seq<Loc>) returns (ms: seq<Move>)
    requires |src| == |dst|
    ensures ms == NeededMoves(src, dst)
    ensures src == dst ==> ms == []
  {
    ms := [];
    for i := 0 to |src|
      invariant ms == NeededMoves(src[..i], dst[..i])
      invariant src == dst ==> ms == []
    {
      assert src[..i + 1][..i] == src[..i] && dst[..i + 1][..i] == dst[..i];
      if src[i] != dst[i] {
        ms := ms + [(src[i], dst[i])];
      }
    }
    assert src[..|src|] == src && dst[..|dst|] == dst;
  }

  /** The first n temporaries hold overwritten sources. */
  ghost predicate UsesTemps(ms: seq<Move>, code: seq<Move>, saved: map<Loc, Loc>, n: nat) {
    && n == |saved| && saved.Keys <= Clobbered(ms)
    && (forall x | x in saved :: saved[x].R? && 8 <= saved[x].reg < 8 + n)
    && (Feasible(ms) ==> Saves(code, saved))
  }

  /** There are more overwritten sources than those saved. */
  lemma MoreToSave(ms: seq<Move>, saved: map<Loc, Loc>, m: Move)
    requires saved.Keys <= Clobbered(ms) && m in ms && m.0 in Targets(ms) && m.0 !in saved
    ensures |saved| < |Clobbered(ms)|
  {
    assert m.0 in Clobbered(ms);
    SubsetSize(saved.Keys + {m.0}, Clobbered(ms));
  }

  lemma UsesOneMore(ms: seq<Move>, code: seq<Move>, saved: map<Loc, Loc>, n: nat, m: Move)
    requires UsesTemps(ms, code, saved, n) && m in ms && m.0 in Targets(ms) && m.0 !in saved && n < 8
    ensures UsesTemps(ms, code + [(m.0, R(X8 + n))], saved[m.0 := R(X8 + n)], n + 1)
  {
    assert m.0 in Clobbered(ms);
    if Feasible(ms) {
      SaveStep(code, saved, m.0, R(X8 + n));
    }
  }

  ghost function SourcesOf(ms: seq<Move>): set<Loc> {
    set m | m in ms :: m.0
  }

  lemma SourcesStep(ms: seq<Move>)
    requires ms != []
    ensures SourcesOf(ms) == {ms[0].0} + SourcesOf(ms[1..])
  {
    assert ms == [ms[0]] + ms[1..];
    assert forall m | m in ms :: m == ms[0] || m in ms[1..];
  }

  /** The ends of moves. */
  ghost function EndsOf(ms: seq<Move>): set<Loc> {
    SourcesOf(ms) + Targets(ms)
  }

  /** Besides temporaries, only locations of a set are read or written. */
  ghost predicate StaysIn(code: seq<Move>, locs: set<Loc>) {
    forall m | m in code :: (m.0 in locs || IsTemp(m.0)) && (m.1 in locs || IsTemp(m.1))
  }

  lemma {:induction false} NeededStaysIn(src: seq<Loc>, dst: seq<Loc>)
    requires |src| == |dst|
    ensures forall m | m in NeededMoves(src, dst) :: m.0 in src && m.1 in dst
    decreases |src|
  {
    if src != [] {
      NeededStaysIn(src[..|src| - 1], dst[..|dst| - 1]);
    }
  }

  /** First pass: a temporary for every source that will be overwritten, while temporaries last. */
  method SaveSources(ms: seq<Move>) returns (code: seq<Move>, saved: map<Loc, Loc>)
    ensures Feasible(ms) ==> Saves(code, saved) && Clobbered(ms) <= saved.Keys
    ensures StaysIn(code, EndsOf(ms)) && forall x | x in saved :: IsTemp(saved[x])
  {
    var dstSet := set m | m in ms :: m.1;
    code, saved := [], map[];
    var tmpIndex: nat := 0;
    var i := 0;
    assert forall ls: LocSet :: SavesOn(code, saved, ls);
    assert ms[0..] == ms;
    while i < |ms|
      invariant 0 <= i <= |ms|
      invariant Clobbered(ms) <= saved.Keys + SourcesOf(ms[i..])
      invariant UsesTemps(ms, code, saved, tmpIndex) && tmpIndex <= 8
      invariant StaysIn(code, EndsOf(ms))
    {
      var m := ms[i];
      SourcesStep(ms[i..]);
      if m.0 in dstSet && m.0 !in saved {
        MoreToSave(ms, saved, m);
        if tmpIndex < 8 {
          UsesOneMore(ms, code, saved, tmpIndex, m);
        }
        var tmp := R(X8 + tmpIndex);
        tmpIndex := tmpIndex + 1;
        if tmpIndex > 8 {
          break;
        }
        code := code + [(m.0, tmp)];
        saved := saved[m.0 := tmp];
      }
      i := i + 1;
    }
  }

  /** Second pass: all the moves, from the temporaries where there is one. */
  method EmitMoves(start: seq<Move>, ms: seq<Move>, saved: map<Loc, Loc>) returns (code: seq<Move>)
    ensures Feasible(ms) && Saves(start, saved) && Clobbered(ms) <= saved.Keys ==> IsParallel(code, ms)
    ensures StaysIn(start, EndsOf(ms)) && (forall x | x in saved :: IsTemp(saved[x])) ==> StaysIn(code, EndsOf(ms))
  {
    code := start;
    ghost var safe := Feasible(ms) && Saves(start, saved) && Clobbered(ms) <= saved.Keys;
    if safe {
      SavedIsDone(code, ms, saved);
    }
    for k := 0 to |ms|
      invariant safe ==> DoneUpTo(code, ms, k, saved)
      invariant StaysIn(start, EndsOf(ms)) && (forall x | x in saved :: IsTemp(saved[x])) ==> StaysIn(code, EndsOf(ms))
    {
      var m := ms[k];
      assert m in ms && m.0 in SourcesOf(ms) && m.1 in Targets(ms);
      var from := if m.0 in saved then saved[m.0] else m.0;
      if safe {
        MoveStep(code, ms, k, saved);
      }
      code := code + [(from, m.1)];
    }
    if safe {
      DoneIsParallel(code, ms, saved);
    }
  }

  method ResolveParallelMoves(src: seq<Loc>, dst: seq<Loc>) returns (code: seq<Move>)
    requires |src| == |dst|
    ensures Feasible(NeededMoves(src, dst)) ==> IsParallel(code, NeededMoves(src, dst))
    ensures src == dst ==> code == []
    ensures StaysIn(code, set l | l in src + dst)
  {
    var ms := CollectMoves(src, dst);
    NeededStaysIn(src, dst);
    if ms == [] {
      code := [];
      assert forall ls: LocSet :: IsParallelOn(code, ms, ls);
      return;
    }
    var saves, saved := SaveSources(ms);
    code := EmitMoves(saves, ms, saved);
  }

  lemma SavedIsDone(code: seq<Move>, ms: seq<Move>, saved: map<Loc, Loc>)
    requires Saves(code, saved)
    ensures DoneUpTo(code, ms, 0, saved)
  {
    forall ls: LocSet
      ensures DoneOn(code, ms, 0, saved, ls)
    {
      assert SavesOn(code, saved, ls);
    }
  }

  lemma DoneIsParallel(code: seq<Move>, ms: seq<Move>, saved: map<Loc, Loc>)
    requires DoneUpTo(code, ms, |ms|, saved)
    ensures IsParallel(code, ms)
  {
    assert ms[..|ms|] == ms;
    forall ls: LocSet
      ensures IsParallelOn(code, ms, ls)
    {
      assert DoneOn(code, ms, |ms|, saved, ls);
    }
  }
}
