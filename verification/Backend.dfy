/** LTL to Linear code: the passes together (pkg/linearize/linearize.go, Transform). */
module Backend {
  import opened Values
  import opened Runs
  import opened Linear
  import opened CallMoves
  import opened Order
  import opened Linearize
  import opened LinearizeProof
  import opened Tunneling
  import opened Cleanup
  import LTL

  // --- How runs end ---

  ghost predicate Ends(o: Oracle, code: Code, x: Seen, y: Seen) {
    !y.st.Running? && exists k: nat :: Iterate(Watcher(o, code), x, k) == y
  }

  lemma {:induction false} EndStays(o: Oracle, code: Code, y: Seen, k: nat)
    requires !y.st.Running?
    ensures Iterate(Watcher(o, code), y, k) == y
    decreases k
  {
    if k == 0 {
    } else {
      assert Watch(o, code, y) == y;
      EndStays(o, code, y, k - 1);
    }
  }

  lemma StaysEnded(o: Oracle, code: Code, x: Seen, y: Seen, k: nat, j: nat)
    requires Iterate(Watcher(o, code), x, k) == y && !y.st.Running? && j >= k
    ensures Iterate(Watcher(o, code), x, j) == y
  {
    IterateAdd(Watcher(o, code), x, k, j - k);
    EndStays(o, code, y, j - k);
  }

  /** A run of out after some steps is where a run of code is after at least as many. */
  ghost predicate Follows(o: Oracle, code: Code, x: Seen, out: Code, y: Seen, same: (Seen, Seen) -> bool, k: nat) {
    exists j: nat :: j >= k && same(Iterate(Watcher(o, code), x, j), Iterate(Watcher(o, out), y, k))
  }

  /** Code whose every run follows that of the original ends as it does. */
  lemma FollowingEnds(o: Oracle, code: Code, x: Seen, out: Code, y: Seen, same: (Seen, Seen) -> bool, e: Seen)
    requires forall k: nat :: Follows(o, code, x, out, y, same, k)
    requires forall a, b | same(a, b) :: (!a.st.Running? || !b.st.Running?) ==> a == b
    ensures Ends(o, out, y, e) <==> Ends(o, code, x, e)
  {
    if Ends(o, out, y, e) {
      var k: nat :| Iterate(Watcher(o, out), y, k) == e;
      assert Follows(o, code, x, out, y, same, k);
      var j: nat :| j >= k && same(Iterate(Watcher(o, code), x, j), Iterate(Watcher(o, out), y, k));
      assert Iterate(Watcher(o, code), x, j) == e;
    }
    if Ends(o, code, x, e) {
      var k: nat :| Iterate(Watcher(o, code), x, k) == e;
      assert Follows(o, code, x, out, y, same, k);
      var j: nat :| j >= k && same(Iterate(Watcher(o, code), x, j), Iterate(Watcher(o, out), y, k));
      StaysEnded(o, code, x, e, k, j);
      assert Iterate(Watcher(o, out), y, k) == e;
    }
  }

  ghost function SameSeen(): (Seen, Seen) -> bool {
    (a: Seen, b: Seen) => a == b
  }

  lemma TunnelFollows(o: Oracle, code: Code, out: Code, x: Seen)
    requires UniqueLabels(code) && IsTunneled(code, out)
    ensures forall k: nat :: Follows(o, code, x, out, x, SameSeen(), k)
  {
    var f, g := Watcher(o, out), Watcher(o, code);
    forall k: nat
      ensures Follows(o, code, x, out, x, SameSeen(), k)
    {
      var j := TunnelRuns(f, g, o, code, out, x, k);
      assert SameSeen()(Iterate(g, x, j), Iterate(f, x, k));
    }
  }

  ghost function Matching(code: Code, used: set<Label>): (Seen, Seen) -> bool {
    (a: Seen, b: Seen) => SeenMatch(code, used, a, b)
  }

  lemma CleanFollows(o: Oracle, code: Code, out: Code, used: set<Label>, x: Seen)
    requires CleanedBy(code, out, used) && x.st.Running? && x.st.pc == 0
    ensures forall k: nat :: Follows(o, code, x, out, x, Matching(code, used), k)
  {
    var f, g := Watcher(o, out), Watcher(o, code);
    assert Place(code, used, 0) == 0;
    forall k: nat
      ensures Follows(o, code, x, out, x, Matching(code, used), k)
    {
      var j := CleanRuns(f, g, o, code, out, used, x, x, k);
      assert Matching(code, used)(Iterate(g, x, j), Iterate(f, x, k));
    }
  }

  /** Tunnelled code ends as the original code does, having shown the same instructions; so it runs on forever
      if and only if that does. */
  lemma TunnelEnds(o: Oracle, code: Code, out: Code, x: Seen, e: Seen)
    requires UniqueLabels(code) && IsTunneled(code, out)
    ensures Ends(o, out, x, e) <==> Ends(o, code, x, e)
  {
    TunnelFollows(o, code, out, x);
    FollowingEnds(o, code, x, out, x, SameSeen(), e);
  }

  /** Cleaned code, from its start, ends as the original code does, having shown the same instructions. */
  lemma CleanEnds(o: Oracle, code: Code, out: Code, s: LTL.Machine, e: Seen)
    requires IsCleaned(code, out)
    ensures Ends(o, out, Seen(RunningAt(0, s), []), e) <==> Ends(o, code, Seen(RunningAt(0, s), []), e)
  {
    var used :| CleanedBy(code, out, used);
    var x := Seen(RunningAt(0, s), []);
    CleanFollows(o, code, out, used, x);
    FollowingEnds(o, code, x, out, x, Matching(code, used), e);
  }

  // --- What runs show, even if they never end ---

  lemma {:induction false} WatchedRun(o: Oracle, code: Code, x: Seen, k: nat)
    ensures Iterate(Watcher(o, code), x, k).st == Iterate(Stepper(o, code), x.st, k)
    decreases k
  {
    if k == 0 {
    } else {
      WatchedRun(o, code, Watch(o, code, x), k - 1);
    }
  }

  /** Some run from x executes these visible instructions, and maybe more. */
  ghost predicate Shows(o: Oracle, code: Code, x: Seen, log: seq<Instr>) {
    exists k: nat :: log <= Iterate(Watcher(o, code), x, k).log
  }

  /** The state is not stuck, and its trace starts with tr. */
  ghost predicate HasTrace(t: State, tr: Trace) {
    !t.Stuck? && tr <= t.tr
  }

  ghost predicate Emits(o: Oracle, code: Code, t: State, tr: Trace) {
    exists k: nat :: HasTrace(Iterate(Stepper(o, code), t, k), tr)
  }

  ghost predicate NeverStuck(o: Oracle, code: Code, t: State) {
    forall k: nat :: !Iterate(Stepper(o, code), t, k).Stuck?
  }

  /** The log only grows. */
  lemma {:induction false} LogGrows(o: Oracle, code: Code, x: Seen, k: nat)
    ensures x.log <= Iterate(Watcher(o, code), x, k).log
    decreases k
  {
    if k == 0 {
    } else {
      LogGrows(o, code, Watch(o, code, x), k - 1);
    }
  }

  lemma TraceGrowsOnce(o: Oracle, code: Code, t: State)
    requires !Step(o, code, t).Stuck?
    ensures !t.Stuck? && t.tr <= Step(o, code, t).tr
  {
  }

  /** So does the trace, until the machine is stuck. */
  lemma {:induction false} TraceGrows(o: Oracle, code: Code, t: State, k: nat)
    requires !Iterate(Stepper(o, code), t, k).Stuck?
    ensures !t.Stuck? && t.tr <= Iterate(Stepper(o, code), t, k).tr
    decreases k
  {
    if k == 0 {
    } else {
      TraceGrows(o, code, Step(o, code, t), k - 1);
      TraceGrowsOnce(o, code, t);
    }
  }

  /** A run is not stuck later than here. */
  lemma TraceStays(o: Oracle, code: Code, t: State, tr: Trace, k: nat, j: nat)
    requires HasTrace(Iterate(Stepper(o, code), t, k), tr) && j >= k && !Iterate(Stepper(o, code), t, j).Stuck?
    ensures HasTrace(Iterate(Stepper(o, code), t, j), tr)
  {
    IterateAdd(Stepper(o, code), t, k, j - k);
    TraceGrows(o, code, Iterate(Stepper(o, code), t, k), j - k);
  }

  /** Code whose every run follows that of the original shows the same instructions. */
  lemma FollowingShows(o: Oracle, code: Code, x: Seen, out: Code, y: Seen, same: (Seen, Seen) -> bool, log: seq<Instr>)
    requires forall k: nat :: Follows(o, code, x, out, y, same, k)
    requires forall a, b | same(a, b) :: a.log == b.log
    ensures Shows(o, out, y, log) <==> Shows(o, code, x, log)
  {
    if Shows(o, out, y, log) {
      var k: nat :| log <= Iterate(Watcher(o, out), y, k).log;
      assert Follows(o, code, x, out, y, same, k);
    }
    if Shows(o, code, x, log) {
      var k: nat :| log <= Iterate(Watcher(o, code), x, k).log;
      assert Follows(o, code, x, out, y, same, k);
      var j: nat :| j >= k && same(Iterate(Watcher(o, code), x, j), Iterate(Watcher(o, out), y, k));
      IterateAdd(Watcher(o, code), x, k, j - k);
      LogGrows(o, code, Iterate(Watcher(o, code), x, k), j - k);
    }
  }

  /** And, if it never gets stuck, it has the same trace. */
  lemma FollowingEmits(o: Oracle, code: Code, x: Seen, out: Code, y: Seen, same: (Seen, Seen) -> bool, tr: Trace)
    requires forall k: nat :: Follows(o, code, x, out, y, same, k)
    requires forall a, b, tr | same(a, b) :: HasTrace(a.st, tr) <==> HasTrace(b.st, tr)
    requires NeverStuck(o, code, x.st)
    ensures Emits(o, out, y.st, tr) <==> Emits(o, code, x.st, tr)
  {
    if Emits(o, out, y.st, tr) {
      var k: nat :| HasTrace(Iterate(Stepper(o, out), y.st, k), tr);
      assert Follows(o, code, x, out, y, same, k);
      var j: nat :| j >= k && same(Iterate(Watcher(o, code), x, j), Iterate(Watcher(o, out), y, k));
      WatchedRun(o, out, y, k);
      WatchedRun(o, code, x, j);
      assert HasTrace(Iterate(Stepper(o, code), x.st, j), tr);
    }
    if Emits(o, code, x.st, tr) {
      var k: nat :| HasTrace(Iterate(Stepper(o, code), x.st, k), tr);
      assert Follows(o, code, x, out, y, same, k);
      var j: nat :| j >= k && same(Iterate(Watcher(o, code), x, j), Iterate(Watcher(o, out), y, k));
      TraceStays(o, code, x.st, tr, k, j);
      WatchedRun(o, out, y, k);
      WatchedRun(o, code, x, j);
      assert HasTrace(Iterate(Stepper(o, out), y.st, k), tr);
    }
  }

  /** Tunnelled and cleaned code shows what the original code does, also on runs that never end. */
  lemma TunnelCleanShows(o: Oracle, code: Code, tunneled: Code, out: Code, s: LTL.Machine, log: seq<Instr>)
    requires UniqueLabels(code) && IsTunneled(code, tunneled) && IsCleaned(tunneled, out)
    ensures Shows(o, out, Seen(RunningAt(0, s), []), log) <==> Shows(o, code, Seen(RunningAt(0, s), []), log)
  {
    var x := Seen(RunningAt(0, s), []);
    TunnelFollows(o, code, tunneled, x);
    FollowingShows(o, code, x, tunneled, x, SameSeen(), log);
    var used :| CleanedBy(tunneled, out, used);
    CleanFollows(o, tunneled, out, used, x);
    FollowingShows(o, tunneled, x, out, x, Matching(tunneled, used), log);
  }

  /** And it has the same trace, if the original code never gets stuck. */
  lemma TunnelCleanEmits(o: Oracle, code: Code, tunneled: Code, out: Code, s: LTL.Machine, tr: Trace)
    requires UniqueLabels(code) && IsTunneled(code, tunneled) && IsCleaned(tunneled, out)
    requires NeverStuck(o, code, RunningAt(0, s))
    ensures Emits(o, out, RunningAt(0, s), tr) <==> Emits(o, code, RunningAt(0, s), tr)
  {
    var x := Seen(RunningAt(0, s), []);
    TunnelFollows(o, code, tunneled, x);
    FollowingEmits(o, code, x, tunneled, x, SameSeen(), tr);
    TunneledNeverStuck(o, code, tunneled, x);
    var used :| CleanedBy(tunneled, out, used);
    CleanFollows(o, tunneled, out, used, x);
    FollowingEmits(o, tunneled, x, out, x, Matching(tunneled, used), tr);
  }

  lemma TunneledNeverStuck(o: Oracle, code: Code, tunneled: Code, x: Seen)
    requires forall k: nat :: Follows(o, code, x, tunneled, x, SameSeen(), k)
    requires NeverStuck(o, code, x.st)
    ensures NeverStuck(o, tunneled, x.st)
  {
    forall k: nat
      ensures !Iterate(Stepper(o, tunneled), x.st, k).Stuck?
    {
      assert Follows(o, code, x, tunneled, x, SameSeen(), k);
      var j: nat :| j >= k && SameSeen()(Iterate(Watcher(o, code), x, j), Iterate(Watcher(o, tunneled), x, k));
      WatchedRun(o, code, x, j);
      WatchedRun(o, tunneled, x, k);
    }
  }

  // --- LTL to Linear ---

  /** The state of the Linear machine when the LTL machine has ended. */
  function Final(s: LTL.State): Option<State> {
    match s
    case Running(_, _, _, _) => None
    case Returned(ls, m, tr) => Some(Returned(ls, m, tr))
    case TailCalled(callee, _, m, tr) => Some(TailCalled(callee, m, tr))
    case Stuck => Some(Stuck)
  }

  ghost predicate LtlEnds(o: Oracle, code: LTL.Code, s: LTL.State, e: State) {
    exists k: nat :: Final(Iterate(LTL.Stepper(o, code), s, k)) == Some(e)
  }

  ghost predicate LinearEnds(o: Oracle, code: Code, t: State, e: State) {
    !e.Running? && exists k: nat :: Iterate(Stepper(o, code), t, k) == e
  }

  lemma WatchedEnds(o: Oracle, code: Code, x: Seen, e: State)
    ensures LinearEnds(o, code, x.st, e) <==> exists log :: Ends(o, code, x, Seen(e, log))
  {
    if LinearEnds(o, code, x.st, e) {
      var k: nat :| Iterate(Stepper(o, code), x.st, k) == e;
      WatchedRun(o, code, x, k);
      assert Ends(o, code, x, Seen(e, Iterate(Watcher(o, code), x, k).log));
    }
    if log :| Ends(o, code, x, Seen(e, log)) {
      var k: nat :| Iterate(Watcher(o, code), x, k) == Seen(e, log);
      WatchedRun(o, code, x, k);
    }
  }

  lemma LinearStays(o: Oracle, code: Code, t: State, e: State, k: nat, j: nat)
    requires Iterate(Stepper(o, code), t, k) == e && !e.Running? && j >= k
    ensures Iterate(Stepper(o, code), t, j) == e
  {
    WatchedRun(o, code, Seen(t, []), k);
    WatchedRun(o, code, Seen(t, []), j);
    StaysEnded(o, code, Seen(t, []), Iterate(Watcher(o, code), Seen(t, []), k), k, j);
  }

  lemma LinearEndsToo(o: Oracle, p: Plan, pieces: seq<Code>, entry: LTL.Node, out: Code, s: LTL.Machine, e: State)
    requires Lays(p, pieces, entry, out) && AllSafe(p) && entry in p.code
    requires LtlEnds(o, p.code, LTL.Running(entry, s.ls, s.m, s.tr), e)
    ensures LinearEnds(o, out, RunningAt(0, s), e)
  {
    var f, s0 := LTL.Stepper(o, p.code), LTL.Running(entry, s.ls, s.m, s.tr);
    var k: nat :| Final(Iterate(f, s0, k)) == Some(e);
    var j := LinearRuns(Stepper(o, out), o, p, pieces, entry, out, s, k);
    assert Iterate(Stepper(o, out), RunningAt(0, s), j) == e;
  }

  lemma LtlEndsToo(o: Oracle, p: Plan, pieces: seq<Code>, entry: LTL.Node, out: Code, s: LTL.Machine, e: State)
    requires Lays(p, pieces, entry, out) && AllSafe(p) && entry in p.code
    requires LinearEnds(o, out, RunningAt(0, s), e)
    ensures LtlEnds(o, p.code, LTL.Running(entry, s.ls, s.m, s.tr), e)
  {
    var f, g, s0, t0 := LTL.Stepper(o, p.code), Stepper(o, out), LTL.Running(entry, s.ls, s.m, s.tr), RunningAt(0, s);
    var k: nat :| Iterate(g, t0, k) == e;
    var j := LinearRuns(g, o, p, pieces, entry, out, s, k);
    LinearStays(o, out, t0, e, k, j);
    LastStep(o, p, pieces, Iterate(f, s0, k), e);
    IterateLast(f, s0, k);
    assert Final(Iterate(f, s0, k)) == Some(e) || Final(Iterate(f, s0, k + 1)) == Some(e);
  }

  /** Laid-out code ends as the control-flow graph does. */
  lemma LinearizedEnds(o: Oracle, p: Plan, pieces: seq<Code>, entry: LTL.Node, out: Code, s: LTL.Machine, e: State)
    requires Lays(p, pieces, entry, out) && AllSafe(p) && entry in p.code
    ensures LtlEnds(o, p.code, LTL.Running(entry, s.ls, s.m, s.tr), e) <==> LinearEnds(o, out, RunningAt(0, s), e)
  {
    if LtlEnds(o, p.code, LTL.Running(entry, s.ls, s.m, s.tr), e) {
      LinearEndsToo(o, p, pieces, entry, out, s, e);
    }
    if LinearEnds(o, out, RunningAt(0, s), e) {
      LtlEndsToo(o, p, pieces, entry, out, s, e);
    }
  }

  ghost predicate LtlHasTrace(s: LTL.State, tr: Trace) {
    !s.Stuck? && tr <= s.tr
  }

  ghost predicate LtlEmits(o: Oracle, code: LTL.Code, s: LTL.State, tr: Trace) {
    exists k: nat :: LtlHasTrace(Iterate(LTL.Stepper(o, code), s, k), tr)
  }

  ghost predicate LtlNeverStuck(o: Oracle, code: LTL.Code, s: LTL.State) {
    forall k: nat :: !Iterate(LTL.Stepper(o, code), s, k).Stuck?
  }

  /** After k blocks of a run that never gets stuck, the Linear machine has the same trace after some j >= k steps. */
  lemma LinearKeepsPace(o: Oracle, p: Plan, pieces: seq<Code>, entry: LTL.Node, out: Code, s: LTL.Machine, k: nat)
    returns (j: nat)
    requires Lays(p, pieces, entry, out) && AllSafe(p) && entry in p.code
    requires LtlNeverStuck(o, p.code, LTL.Running(entry, s.ls, s.m, s.tr))
    ensures var (s', t) := (Iterate(LTL.Stepper(o, p.code), LTL.Running(entry, s.ls, s.m, s.tr), k), Iterate(Stepper(o, out), RunningAt(0, s), j));
      j >= k && !s'.Stuck? && !t.Stuck? && t.tr == s'.tr
  {
    var f, s0 := LTL.Stepper(o, p.code), LTL.Running(entry, s.ls, s.m, s.tr);
    j := LinearRuns(Stepper(o, out), o, p, pieces, entry, out, s, k);
    var s' := Iterate(f, s0, k);
    IterateLast(f, s0, k);
    assert !Iterate(f, s0, k + 1).Stuck?;
    assert s'.Running? ==> s'.pc in p.code;
  }

  /** Laid-out code has the same trace as the control-flow graph, if that never gets stuck; nor does it then. */
  lemma LinearizedEmits(o: Oracle, p: Plan, pieces: seq<Code>, entry: LTL.Node, out: Code, s: LTL.Machine, tr: Trace)
    requires Lays(p, pieces, entry, out) && AllSafe(p) && entry in p.code
    requires LtlNeverStuck(o, p.code, LTL.Running(entry, s.ls, s.m, s.tr))
    ensures LtlEmits(o, p.code, LTL.Running(entry, s.ls, s.m, s.tr), tr) <==> Emits(o, out, RunningAt(0, s), tr)
  {
    var f, g, s0, t0 := LTL.Stepper(o, p.code), Stepper(o, out), LTL.Running(entry, s.ls, s.m, s.tr), RunningAt(0, s);
    if LtlEmits(o, p.code, s0, tr) {
      var k: nat :| LtlHasTrace(Iterate(f, s0, k), tr);
      var j := LinearKeepsPace(o, p, pieces, entry, out, s, k);
      assert HasTrace(Iterate(g, t0, j), tr);
    }
    if Emits(o, out, t0, tr) {
      var k: nat :| HasTrace(Iterate(g, t0, k), tr);
      var j := LinearKeepsPace(o, p, pieces, entry, out, s, k);
      TraceStays(o, out, t0, tr, k, j);
      assert LtlHasTrace(Iterate(f, s0, k), tr);
    }
  }

  lemma LinearizedNeverStuck(o: Oracle, p: Plan, pieces: seq<Code>, entry: LTL.Node, out: Code, s: LTL.Machine)
    requires Lays(p, pieces, entry, out) && AllSafe(p) && entry in p.code
    requires LtlNeverStuck(o, p.code, LTL.Running(entry, s.ls, s.m, s.tr))
    ensures NeverStuck(o, out, RunningAt(0, s))
  {
    forall k: nat
      ensures !Iterate(Stepper(o, out), RunningAt(0, s), k).Stuck?
    {
      var j := LinearKeepsPace(o, p, pieces, entry, out, s, k);
      if Iterate(Stepper(o, out), RunningAt(0, s), k).Stuck? {
        LinearStays(o, out, RunningAt(0, s), Stuck, k, j);
      }
    }
  }

  /** An LTL state that matches the end of a Linear run has ended, or does with the next step. */
  lemma LastStep(o: Oracle, p: Plan, pieces: seq<Code>, s: LTL.State, e: State)
    requires WorldOf(p, pieces).Match(s, e) && !e.Running?
    ensures Final(s) == Some(e) || Final(LTL.Step(o, p.code, s)) == Some(e)
  {
  }

  lemma UniqueAppend(head: Code, piece: Code, k: nat)
    requires UniqueLabels(head) && forall i | 0 <= i < |head| && head[i].Llabel? :: head[i].lbl <= k
    requires forall i | 0 <= i < |piece| && piece[i].Llabel? :: i == 0 && piece[i] == Llabel(k + 1)
    ensures UniqueLabels(head + piece)
  {
  }

  lemma {:induction false} LabelsUnique(p: Plan, pieces: seq<Code>)
    requires p.Valid() && p.ArePieces(pieces)
    ensures UniqueLabels(Flatten(pieces))
    decreases |pieces|
  {
    if pieces == [] {
    } else {
      var last := |pieces| - 1;
      var head := Flatten(pieces[..last]);
      LabelsUnique(p, pieces[..last]);
      PiecesNumbered(p, pieces[..last]);
      forall i | 0 <= i < |head| && head[i].Llabel?
        ensures head[i].lbl <= last
      {
        assert Llabel(head[i].lbl) == head[i];
        LabelsInFlatten(pieces[..last], head[i].lbl);
      }
      assert p.IsPiece(last, pieces[last]);
      var body :| p.IsPieceWith(last, pieces[last], body);
      forall i | 0 <= i < |pieces[last]| && pieces[last][i].Llabel?
        ensures i == 0 && pieces[last][i] == Llabel(last + 1)
      {
        PieceLabel(p, last, pieces[last], body, i);
      }
      UniqueAppend(head, pieces[last], last);
    }
  }

  /** The only label of a piece comes first. */
  lemma PieceLabel(p: Plan, k: nat, piece: Code, body: Code, i: nat)
    requires k < |p.order| && p.order[k] in p.code && p.IsPieceWith(k, piece, body)
    requires i < |piece| && piece[i].Llabel?
    ensures i == 0 && piece[i] == Llabel(k + 1)
  {
    var term := p.Term(k);
    forall x | 0 <= x < |body|
      ensures !body[x].Llabel?
    {
      assert body[x] in body && body[x].IsStraight();
    }
    assert forall x | 0 <= x < |term| :: term[x] in term && (term[x].Llabel? ==> Llabel(term[x].lbl) in term);
  }

  /** What Transform promises. */
  ghost predicate IsTransformed(fn: LTL.Function, out: Code) {
    exists linear, tunneled ::
      IsLinearization(fn.code, fn.entry, linear) && IsTunneled(linear, tunneled) && IsCleaned(tunneled, out)
  }

  method Transform(fn: LTL.Function) returns (result: Function)
    ensures IsTransformed(fn, result.code)
  {
    var linear := LinearizeFunction(fn);
    result := new Function(linear);
    Tunnel(result);
    ghost var tunneled := result.code;
    CleanupLabels(result);
  }

  /** The blocks that can be reached are safe. */
  ghost predicate ReachableSafe(fn: LTL.Function) {
    forall n | n in fn.code && Reaches(fn.code, fn.entry, n) :: IsSafeBlock(fn.code[n])
  }

  /** The Linear code made from a function ends as the function does, for every end and every oracle. */
  lemma TransformPreservesMeaning(o: Oracle, fn: LTL.Function, out: Code, s: LTL.Machine, e: State)
    requires IsTransformed(fn, out) && ReachableSafe(fn) && fn.entry in fn.code
    ensures LtlEnds(o, fn.code, LTL.Running(fn.entry, s.ls, s.m, s.tr), e) <==> LinearEnds(o, out, RunningAt(0, s), e)
  {
    var linear, tunneled :|
      IsLinearization(fn.code, fn.entry, linear) && IsTunneled(linear, tunneled) && IsCleaned(tunneled, out);
    var p: Plan, pieces :| p.code == fn.code && Lays(p, pieces, fn.entry, linear);
    LabelsUnique(p, pieces);
    LinearizedEnds(o, p, pieces, fn.entry, linear, s, e);
    CleanedTunneledEnds(o, linear, tunneled, out, s, e);
  }

  /** A run of the function that never gets stuck, also one that never ends, has the trace of the Linear code's run. */
  lemma TransformPreservesTraces(o: Oracle, fn: LTL.Function, out: Code, s: LTL.Machine, tr: Trace)
    requires IsTransformed(fn, out) && ReachableSafe(fn) && fn.entry in fn.code
    requires LtlNeverStuck(o, fn.code, LTL.Running(fn.entry, s.ls, s.m, s.tr))
    ensures LtlEmits(o, fn.code, LTL.Running(fn.entry, s.ls, s.m, s.tr), tr) <==> Emits(o, out, RunningAt(0, s), tr)
  {
    var linear, tunneled :|
      IsLinearization(fn.code, fn.entry, linear) && IsTunneled(linear, tunneled) && IsCleaned(tunneled, out);
    var p: Plan, pieces :| p.code == fn.code && Lays(p, pieces, fn.entry, linear);
    LabelsUnique(p, pieces);
    LinearizedEmits(o, p, pieces, fn.entry, linear, s, tr);
    LinearizedNeverStuck(o, p, pieces, fn.entry, linear, s);
    TunnelCleanEmits(o, linear, tunneled, out, s, tr);
  }

  lemma CleanedTunneledEnds(o: Oracle, linear: Code, tunneled: Code, out: Code, s: LTL.Machine, e: State)
    requires UniqueLabels(linear) && IsTunneled(linear, tunneled) && IsCleaned(tunneled, out)
    ensures LinearEnds(o, linear, RunningAt(0, s), e) <==> LinearEnds(o, out, RunningAt(0, s), e)
  {
    var x := Seen(RunningAt(0, s), []);
    WatchedEnds(o, linear, x, e);
    WatchedEnds(o, out, x, e);
    forall log
      ensures Ends(o, linear, x, Seen(e, log)) <==> Ends(o, out, x, Seen(e, log))
    {
      TunnelEnds(o, linear, tunneled, x, Seen(e, log));
      CleanEnds(o, tunneled, out, s, Seen(e, log));
    }
  }
}
