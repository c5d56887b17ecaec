/** Registers that all interfere (pkg/regalloc/irc.go, Allocate): with one more than there are colours, the main loop never
    ends, because decrementing a degree lists registers again that have been pushed. */
module Spilling {
  import opened Values
  import opened RTL
  import opened Liveness
  import opened Interference
  import opened Conventions
  import opened Coalescing
  import opened Params
  import opened Rounds
  import opened Progress

  ghost predicate AllAdjacent(nodes: set<Reg>, edges: Adjacency) {
    forall a, b {:trigger Edge(edges, a, b)} :: a in nodes && b in nodes && a != b ==> Edge(edges, a, b)
  }

  /** No moves, no parameters, and more registers than colours, which all interfere. */
  ghost predicate IsClique(g: Merge, prefs: Adjacency) {
    Unmoved(g, prefs) && AllAdjacent(g.nodes, g.edges) && |g.nodes| > K
  }

  /** The number of registers that have to be pushed until the others have a low degree. */
  function Excess(g: Merge): int {
    |g.nodes| - K
  }

  /** The registers are spilled one after the other; then the degrees of the others are low; and then the degrees of those
      that have been pushed are low. */
  datatype Stage = Choosing | Pushing | Low | Forever

  ghost predicate AtStage(g: Merge, s: Snapshot, stage: Stage) {
    match stage
    case Choosing =>
      |s.onStack| < Excess(g) && s.lists.simplify == [] && Once(s.lists.spill)
      && forall r :: r in s.lists.spill <==> r in g.nodes - s.onStack
    case Pushing =>
      |s.onStack| < Excess(g) && |s.lists.simplify| == 1 && Once(s.lists.spill) && s.lists.simplify[0] in g.nodes - s.onStack
      && forall r :: r in s.lists.spill <==> r in g.nodes - s.onStack && r != s.lists.simplify[0]
    case Low =>
      |s.onStack| == Excess(g) && s.lists.simplify != [] && forall r | r in s.lists.simplify :: r in g.nodes - s.onStack
    case Forever =>
      |s.onStack| == Excess(g) + 1 && s.lists.simplify != [] && Last(s.lists.simplify) in s.onStack
  }

  ghost predicate Busy(g: Merge, prefs: Adjacency, s: Snapshot, stage: Stage) {
    && s.g == g && s.prefs == prefs && s.moves.worklist == [] && s.moves.active == [] && s.lists.freeze == []
    && s.onStack <= g.nodes && AtStage(g, s, stage)
  }

  lemma BusyIsNotIdle(g: Merge, prefs: Adjacency, s: Snapshot, stage: Stage)
    requires IsClique(g, prefs) && Busy(g, prefs, s, stage)
    ensures !s.IsIdle()
  {
    if stage == Choosing {
      assert |g.nodes - s.onStack| == |g.nodes| - |s.onStack|;
      var r :| r in g.nodes - s.onStack;
      assert r in s.lists.spill;
    }
  }

  lemma CliqueDegree(g: Merge, c: Context, r: Reg)
    requires AllAdjacent(g.nodes, g.edges) && IsUndirected(g.nodes, g.edges)
    requires c.edges == g.edges && c.coalesced == {} && c.onStack <= g.nodes && r in g.nodes
    ensures c.Degree(r) == |g.nodes| - |c.onStack| - if r in c.onStack then 0 else 1
  {
    forall n
      ensures n in Adj(g.edges, r) <==> n in g.nodes && n != r
    {
      assert Edge(g.edges, r, n) ==> n in g.nodes && n != r;
      assert n in g.nodes && n != r ==> Edge(g.edges, r, n);
    }
    var others := Adj(g.edges, r) - (c.coalesced + c.onStack);
    if r in c.onStack {
      assert others == g.nodes - c.onStack;
    } else {
      assert others == g.nodes - c.onStack - {r};
    }
  }

  /** The registers other than r whose degree is low when r has been pushed: those that have been pushed or those that have not,
      or none. */
  function LowNow(g: Merge, onStack: set<Reg>, r: Reg): set<Reg> {
    if |onStack| == Excess(g) then g.nodes - onStack
    else if |onStack| == Excess(g) + 1 then onStack - {r}
    else {}
  }

  lemma IsLowNow(g: Merge, c: Context, r: Reg, n: Reg)
    requires AllAdjacent(g.nodes, g.edges) && IsUndirected(g.nodes, g.edges)
    requires c.edges == g.edges && c.coalesced == {} && r in c.onStack && c.onStack <= g.nodes && |c.onStack| <= Excess(g) + 1
    ensures n in c.Low(Adj(g.edges, r)) <==> n in LowNow(g, c.onStack, r)
  {
    assert Edge(g.edges, r, n) <==> n in g.nodes && n != r;
    if n in g.nodes {
      CliqueDegree(g, c, n);
    }
  }

  lemma CliqueLow(g: Merge, c: Context, r: Reg)
    requires AllAdjacent(g.nodes, g.edges) && IsUndirected(g.nodes, g.edges)
    requires c.edges == g.edges && c.coalesced == {} && r in c.onStack && c.onStack <= g.nodes && |c.onStack| <= Excess(g) + 1
    ensures c.Low(Adj(g.edges, r)) == LowNow(g, c.onStack, r)
  {
    forall n
      ensures n in c.Low(Adj(g.edges, r)) <==> n in LowNow(g, c.onStack, r)
    {
      IsLowNow(g, c, r, n);
    }
  }

  /** What a push does to the lists. */
  lemma PushLists(g: Merge, prefs: Adjacency, s: Snapshot, t: Snapshot) returns (more: seq<Reg>)
    requires IsClique(g, prefs) && s.g == g && s.prefs == prefs && s.lists.simplify != [] && IsSimplify(s, t)
    requires t.onStack <= g.nodes && |t.onStack| <= Excess(g) + 1
    ensures Enumerates(more, LowNow(g, t.onStack, Last(s.lists.simplify)))
    ensures t.lists ==
      Lists(Front(s.lists.simplify) + more, s.lists.freeze, Without(s.lists.spill, LowNow(g, t.onStack, Last(s.lists.simplify))))
  {
    var r := Last(s.lists.simplify);
    CliqueLow(g, t.Now(), r);
    var low := LowNow(g, t.onStack, r);
    NoneFrozen(t.Now(), s.lists.(simplify := Front(s.lists.simplify)), t.lists, low);
    more :| Enumerates(more, low) && t.lists.simplify == Front(s.lists.simplify) + more;
  }

  lemma ChoosingGoesOn(g: Merge, prefs: Adjacency, s: Snapshot, t: Snapshot)
    requires IsClique(g, prefs) && Busy(g, prefs, s, Choosing) && IsSpill(s, t)
    ensures Busy(g, prefs, t, Pushing)
  {
    var i: nat :| IsHeaviest(s.Now(), s.lists.spill, i)
      && IsFrozen(s, t, s.lists.spill[i],
                  s.lists.(simplify := s.lists.simplify + [s.lists.spill[i]], spill := s.lists.spill[..i] + s.lists.spill[i + 1..]));
    OnceWithoutAt(s.lists.spill, i);
    ChosenGoesOn(g, prefs, s, t, s.lists.spill[i], s.lists.spill[..i] + s.lists.spill[i + 1..]);
  }

  lemma ChosenGoesOn(g: Merge, prefs: Adjacency, s: Snapshot, t: Snapshot, r: Reg, rest: seq<Reg>)
    requires Busy(g, prefs, s, Choosing) && r in s.lists.spill
    requires IsFrozen(s, t, r, s.lists.(simplify := s.lists.simplify + [r], spill := rest))
    requires Once(rest) && forall n :: n in rest <==> n in s.lists.spill && n != r
    ensures Busy(g, prefs, t, Pushing)
  {
    assert t.lists == Lists([r], [], rest);
  }

  lemma OnceWithoutAt(list: seq<Reg>, i: nat)
    requires i < |list| && Once(list)
    ensures Once(list[..i] + list[i + 1..])
    ensures forall r :: r in list[..i] + list[i + 1..] <==> r in list && r != list[i]
  {
    assert list == list[..i] + [list[i]] + list[i + 1..];
  }

  lemma PushingGoesOn(g: Merge, prefs: Adjacency, s: Snapshot, t: Snapshot) returns (stage: Stage)
    requires IsClique(g, prefs) && Busy(g, prefs, s, Pushing) && IsSimplify(s, t)
    ensures Busy(g, prefs, t, stage)
  {
    var more := PushLists(g, prefs, s, t);
    if |t.onStack| < Excess(g) {
      WithoutNone(s.lists.spill);
      EnumeratesNone(more, {});
      stage := Choosing;
    } else {
      assert |g.nodes - t.onStack| == |g.nodes| - |t.onStack|;
      stage := Low;
    }
  }

  lemma NotEmpty(list: seq<Reg>, rs: set<Reg>, r: Reg)
    requires Enumerates(list, rs - {r}) && |rs| > 1
    ensures list != [] && Last(list) in rs
  {
    assert |rs - {r}| >= |rs| - 1;
    EnumeratesSize(list, rs - {r});
    assert Last(list) in list;
  }

  lemma LowGoesOn(g: Merge, prefs: Adjacency, s: Snapshot, t: Snapshot)
    requires IsClique(g, prefs) && Busy(g, prefs, s, Low) && IsSimplify(s, t)
    ensures Busy(g, prefs, t, Forever)
  {
    var r := Last(s.lists.simplify);
    assert r in s.lists.simplify;
    var more := PushLists(g, prefs, s, t);
    NotEmpty(more, t.onStack, r);
  }

  lemma ForeverGoesOn(g: Merge, prefs: Adjacency, s: Snapshot, t: Snapshot)
    requires IsClique(g, prefs) && Busy(g, prefs, s, Forever) && IsSimplify(s, t)
    ensures Busy(g, prefs, t, Forever)
  {
    var r := Last(s.lists.simplify);
    assert t.onStack == s.onStack;
    var more := PushLists(g, prefs, s, t);
    NotEmpty(more, s.onStack, r);
  }

  lemma BusyGoesOn(g: Merge, prefs: Adjacency, s: Snapshot, t: Snapshot, stage: Stage) returns (next: Stage)
    requires IsClique(g, prefs) && Busy(g, prefs, s, stage) && IsRound(s, t)
    ensures Busy(g, prefs, t, next)
  {
    match stage
    case Choosing => ChoosingGoesOn(g, prefs, s, t); next := Pushing;
    case Pushing => next := PushingGoesOn(g, prefs, s, t);
    case Low => LowGoesOn(g, prefs, s, t); next := Forever;
    case Forever => ForeverGoesOn(g, prefs, s, t); next := Forever;
  }

  lemma StartIsBusy(g: Merge, prefs: Adjacency, s: Snapshot)
    requires IsClique(g, prefs) && IsStart(g, prefs, {}, s)
    ensures Busy(g, prefs, s, Choosing)
  {
    var c := s.Now();
    CliqueIsHeavy(g, c);
    assert forall a, b | a in prefs && b in prefs[a] :: Edge(prefs, a, b);
    EnumeratesNone(s.moves.worklist, MovePairs(prefs));
    EnumeratesNone(s.lists.simplify, c.Simple(g.nodes - {}));
    EnumeratesNone(s.lists.freeze, c.Moved(g.nodes - {}));
  }

  lemma CliqueIsHeavy(g: Merge, c: Context)
    requires AllAdjacent(g.nodes, g.edges) && IsUndirected(g.nodes, g.edges) && |g.nodes| > K
    requires c.edges == g.edges && c.coalesced == {} && c.onStack == {}
    ensures c.Simple(g.nodes - {}) == {} && c.Moved(g.nodes - {}) == {} && c.Heavy(g.nodes - {}) == g.nodes
  {
    forall n
      ensures n in c.Heavy(g.nodes - {}) <==> n in g.nodes
      ensures n !in c.Simple(g.nodes - {}) && n !in c.Moved(g.nodes - {})
    {
      if n in g.nodes { CliqueDegree(g, c, n); }
    }
  }

  lemma BusyNext(g: Merge, prefs: Adjacency, run: seq<Snapshot>, i: nat, stage: Stage) returns (next: Stage)
    requires IsClique(g, prefs) && IsRun(run) && i < |run| - 1 && Busy(g, prefs, run[i], stage)
    ensures Busy(g, prefs, run[i + 1], next)
  {
    assert RoundAt(run, i);
    next := BusyGoesOn(g, prefs, run[i], run[i + 1], stage);
  }

  lemma {:induction false} BusyAt(g: Merge, prefs: Adjacency, run: seq<Snapshot>, i: nat) returns (stage: Stage)
    requires IsClique(g, prefs) && IsRun(run) && Busy(g, prefs, run[0], Choosing) && i < |run|
    ensures Busy(g, prefs, run[i], stage)
  {
    if i == 0 {
      stage := Choosing;
    } else {
      var before := BusyAt(g, prefs, run, i - 1);
      stage := BusyNext(g, prefs, run, i - 1, before);
    }
  }

  lemma NeverIdle(g: Merge, prefs: Adjacency, run: seq<Snapshot>)
    requires IsClique(g, prefs) && IsRun(run) && Busy(g, prefs, run[0], Choosing)
    ensures !Last(run).IsIdle()
  {
    var stage := BusyAt(g, prefs, run, |run| - 1);
    BusyIsNotIdle(g, prefs, Last(run), stage);
  }

  /** However long the run is, there is still a register on a list. */
  lemma CliqueRunsOn(g: Merge, prefs: Adjacency, rounds: nat, run: seq<Snapshot>)
    requires IsClique(g, prefs) && IsRunFrom(g, prefs, {}, rounds, run)
    ensures !Last(run).IsIdle()
  {
    StartIsBusy(g, prefs, run[0]);
    NeverIdle(g, prefs, run);
  }
}
