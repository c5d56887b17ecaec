/** When the main loop of the allocator ends (pkg/regalloc/irc.go, Allocate). */
module Progress {
  import opened Values
  import opened RTL
  import opened Liveness
  import opened Interference
  import opened Conventions
  import opened Coalescing
  import opened Params
  import opened Coloring
  import opened Rounds

  // --- Lists without repetition ---

  lemma {:induction false} WithoutOnce(list: seq<Reg>, rs: set<Reg>)
    requires Once(list)
    ensures Once(Without(list, rs)) && forall r :: r in Without(list, rs) <==> r in list && r !in rs
  {
    if list != [] {
      var x, rest := list[0], list[1..];
      assert x !in rest;
      assert forall r :: r in list <==> r == x || r in rest;
      WithoutOnce(rest, if x in rs then rs - {x} else rs);
    }
  }

  // --- Functions without moves whose registers can be simplified ---

  /** Some register of the set that is not precoloured has few neighbours in the set. */
  ghost predicate HasSimple(edges: Adjacency, pre: set<Reg>, rs: set<Reg>) {
    exists r :: r in rs - pre && |Adj(edges, r) * rs| < K
  }

  /** This holds of every set of registers that are not all precoloured. */
  ghost predicate Simplifiable(nodes: set<Reg>, edges: Adjacency, pre: set<Reg>) {
    forall rs {:trigger HasSimple(edges, pre, rs)} :: rs <= nodes && !(rs <= pre) ==> HasSimple(edges, pre, rs)
  }

  ghost predicate Unmoved(g: Merge, prefs: Adjacency) {
    IsUndirected(g.nodes, g.edges) && NoEdges(prefs) && g.coalesced == {}
  }

  /** A register is on one of two lists or pushed, unless it is precoloured; and it has many neighbours left if and only if it
      is to be spilled. */
  ghost predicate IsSorted(g: Merge, pre: set<Reg>, s: Snapshot, r: Reg) {
    && (r in s.lists.simplify ==> r in g.nodes && r !in s.onStack && s.Now().Degree(r) < K)
    && (r in s.onStack ==> r in g.nodes && s.Now().Degree(r) < K)
    && (r in s.lists.spill ==> r in g.nodes - pre && r !in s.onStack && s.Now().Degree(r) >= K)
    && (r in g.nodes - pre ==> r in s.lists.simplify || r in s.lists.spill || r in s.onStack)
  }

  ghost predicate Simplifying(g: Merge, prefs: Adjacency, pre: set<Reg>, s: Snapshot) {
    && s.g == g && s.prefs == prefs && s.moves.worklist == [] && s.lists.freeze == []
    && Once(s.lists.simplify) && Once(s.lists.spill)
    && s.onStack == Elements(s.stack) && |s.onStack| == |s.stack|
    && (forall r {:trigger IsSorted(g, pre, s, r)} :: IsSorted(g, pre, s, r))
    && FewBefore(g.edges, s.stack)
  }

  lemma NothingSimple(g: Merge, prefs: Adjacency, pre: set<Reg>, s: Snapshot)
    requires Unmoved(g, prefs) && Simplifying(g, prefs, pre, s) && s.lists.simplify == []
    ensures !HasSimple(g.edges, pre, g.nodes - s.onStack)
  {
    var rs := g.nodes - s.onStack;
    forall q | q in rs - pre
      ensures |Adj(g.edges, q) * rs| >= K
    {
      assert IsSorted(g, pre, s, q);
      assert forall n | n in Adj(g.edges, q) :: Edge(g.edges, q, n);
      assert Adj(g.edges, q) * rs == Adj(g.edges, q) - (g.coalesced + s.onStack);
    }
  }

  lemma NothingSpilled(g: Merge, prefs: Adjacency, pre: set<Reg>, s: Snapshot)
    requires Unmoved(g, prefs) && Simplifiable(g.nodes, g.edges, pre) && Simplifying(g, prefs, pre, s) && !s.IsIdle()
    ensures s.lists.simplify != []
  {
    if s.lists.simplify == [] {
      assert IsSorted(g, pre, s, s.lists.spill[0]);
      NothingSimple(g, prefs, pre, s);
    }
  }

  /** When r is pushed for the first time, its neighbours lose one neighbour, and the others none. */
  lemma PushedDegree(c: Context, d: Context, r: Reg, n: Reg)
    requires d == c.(onStack := c.onStack + {r}) && r !in c.coalesced + c.onStack
    ensures d.Degree(n) == c.Degree(n) - if r in Adj(c.edges, n) then 1 else 0
  {
    assert Adj(d.edges, n) - (d.coalesced + d.onStack) == (Adj(c.edges, n) - (c.coalesced + c.onStack)) - {r};
  }

  lemma NoneFrozen(c: Context, before: Lists, after: Lists, low: set<Reg>)
    requires Lowered(c, before, after, low) && NoEdges(c.prefs)
    ensures after.freeze == before.freeze && GrownBy(before.simplify, after.simplify, low)
  {
    forall n
      ensures !c.MoveRelated(n)
    {
      if m :| m in Adj(c.prefs, n) {
        assert Edge(c.prefs, n, m);
      }
    }
    assert c.WithMoves(low) == {};
    assert low - c.WithMoves(low) == low;
    var more :| Enumerates(more, {}) && after.freeze == before.freeze + more;
    EnumeratesNone(more, {});
  }

  /** What the push of r, and the change of lists after it, do to one register. */
  lemma StaysSorted(g: Merge, pre: set<Reg>, s: Snapshot, t: Snapshot, r: Reg, low: set<Reg>, n: Reg)
    requires IsUndirected(g.nodes, g.edges) && g.coalesced == {} && s.g == t.g == g && s.prefs == t.prefs
    requires IsSorted(g, pre, s, n) && IsSorted(g, pre, s, r) && r in s.lists.simplify && t.onStack == s.onStack + {r}
    requires low == t.Now().Low(Adj(g.edges, r))
    requires n in t.lists.simplify <==> (n in s.lists.simplify && n != r) || n in low
    requires n in t.lists.spill <==> n in s.lists.spill && n !in low
    ensures IsSorted(g, pre, t, n) && (n in low ==> n !in s.lists.simplify)
  {
    PushedDegree(s.Now(), t.Now(), r, n);
    assert Edge(g.edges, r, n) <==> Edge(g.edges, n, r);
  }

  lemma SimplifyLists(s: Snapshot, t: Snapshot, low: set<Reg>)
    requires s.lists.simplify != [] && Once(s.lists.simplify) && Once(s.lists.spill)
    requires t.lists.spill == Without(s.lists.spill, low) && GrownBy(Front(s.lists.simplify), t.lists.simplify, low)
    ensures forall n :: n in t.lists.simplify <==> (n in s.lists.simplify && n != Last(s.lists.simplify)) || n in low
    ensures forall n :: n in t.lists.spill <==> n in s.lists.spill && n !in low
    ensures Once(t.lists.spill) && ((forall n | n in low :: n !in s.lists.simplify) ==> Once(t.lists.simplify))
  {
    var front := Front(s.lists.simplify);
    WithoutOnce(s.lists.spill, low);
    var more :| Enumerates(more, low) && t.lists.simplify == front + more;
    assert s.lists.simplify == front + [Last(s.lists.simplify)];
    if forall n | n in low :: n !in s.lists.simplify {
      AppendOnce(front, more);
    }
  }

  lemma PushedFewBefore(edges: Adjacency, stack: seq<Reg>, r: Reg)
    requires FewBefore(edges, stack) && r !in stack && |Adj(edges, r) - Elements(stack)| < K
    ensures FewBefore(edges, stack + [r])
  {
    forall i: nat | i < |stack + [r]|
      ensures FewAt(edges, stack + [r], i)
    {
      assert (stack + [r])[..i] == stack[..i];
      if i < |stack| {
        assert FewAt(edges, stack, i);
      } else {
        assert stack[..i] == stack;
      }
    }
  }

  lemma AllStaySorted(g: Merge, pre: set<Reg>, s: Snapshot, t: Snapshot, low: set<Reg>)
    requires IsUndirected(g.nodes, g.edges) && g.coalesced == {} && s.g == t.g == g && s.prefs == t.prefs
    requires (forall n {:trigger IsSorted(g, pre, s, n)} :: IsSorted(g, pre, s, n)) && s.lists.simplify != []
    requires Once(s.lists.simplify) && Once(s.lists.spill) && t.onStack == s.onStack + {Last(s.lists.simplify)}
    requires low == t.Now().Low(Adj(g.edges, Last(s.lists.simplify)))
    requires t.lists.spill == Without(s.lists.spill, low) && GrownBy(Front(s.lists.simplify), t.lists.simplify, low)
    ensures forall n {:trigger IsSorted(g, pre, t, n)} :: IsSorted(g, pre, t, n)
    ensures Once(t.lists.simplify) && Once(t.lists.spill)
  {
    var r := Last(s.lists.simplify);
    SimplifyLists(s, t, low);
    assert IsSorted(g, pre, s, r);
    forall n
      ensures IsSorted(g, pre, t, n) && (n in low ==> n !in s.lists.simplify)
    {
      assert IsSorted(g, pre, s, n);
      StaysSorted(g, pre, s, t, r, low, n);
    }
  }

  lemma Pushed(g: Merge, prefs: Adjacency, pre: set<Reg>, s: Snapshot)
    requires Unmoved(g, prefs) && Simplifying(g, prefs, pre, s) && s.lists.simplify != []
    ensures var r := Last(s.lists.simplify);
      FewBefore(g.edges, s.stack + [r]) && s.onStack + {r} == Elements(s.stack + [r]) && r !in s.onStack
  {
    var r := Last(s.lists.simplify);
    assert IsSorted(g, pre, s, r);
    ElementsAppend(s.stack, [r]);
    assert g.coalesced + s.onStack == Elements(s.stack);
    PushedFewBefore(g.edges, s.stack, r);
  }

  lemma SimplifyGoesOn(g: Merge, prefs: Adjacency, pre: set<Reg>, s: Snapshot, t: Snapshot)
    requires Unmoved(g, prefs) && Simplifying(g, prefs, pre, s) && s.lists.simplify != [] && IsSimplify(s, t)
    ensures Simplifying(g, prefs, pre, t) && |t.stack| == |s.stack| + 1
  {
    var r := Last(s.lists.simplify);
    var low := t.Now().Low(Adj(g.edges, r));
    NoneFrozen(t.Now(), s.lists.(simplify := Front(s.lists.simplify)), t.lists, low);
    AllStaySorted(g, pre, s, t, low);
    Pushed(g, prefs, pre, s);
  }

  lemma StartIsSorted(g: Merge, prefs: Adjacency, pre: set<Reg>, s: Snapshot)
    requires IsStart(g, prefs, pre, s) && forall n :: !s.Now().MoveRelated(n)
    ensures forall n {:trigger IsSorted(g, pre, s, n)} :: IsSorted(g, pre, s, n)
  {
  }

  lemma StartSimplifies(g: Merge, prefs: Adjacency, pre: set<Reg>, s: Snapshot)
    requires Unmoved(g, prefs) && IsStart(g, prefs, pre, s)
    ensures Simplifying(g, prefs, pre, s)
  {
    var c := s.Now();
    forall n
      ensures !c.MoveRelated(n)
    {
      if m :| m in Adj(c.prefs, n) {
        assert Edge(c.prefs, n, m);
      }
    }
    assert forall a, b | a in prefs && b in prefs[a] :: Edge(prefs, a, b);
    EnumeratesNone(s.moves.worklist, MovePairs(prefs));
    EnumeratesNone(s.lists.freeze, c.Moved(g.nodes - pre));
    StartIsSorted(g, prefs, pre, s);
  }

  lemma {:induction false} SimplifyingAt(g: Merge, prefs: Adjacency, pre: set<Reg>, run: seq<Snapshot>, i: nat)
    requires Unmoved(g, prefs) && Simplifiable(g.nodes, g.edges, pre)
    requires IsRun(run) && IsStart(g, prefs, pre, run[0]) && i < |run|
    ensures Simplifying(g, prefs, pre, run[i]) && |run[i].stack| == i
  {
    if i == 0 {
      StartSimplifies(g, prefs, pre, run[0]);
    } else {
      SimplifyingAt(g, prefs, pre, run, i - 1);
      assert RoundAt(run, i - 1);
      NothingSpilled(g, prefs, pre, run[i - 1]);
      SimplifyGoesOn(g, prefs, pre, run[i - 1], run[i]);
    }
  }

  /** Without moves, if the registers can be simplified, the loop ends after a round for each register; and each register had
      few neighbours when it was pushed. */
  lemma SimplifiableEnds(g: Merge, prefs: Adjacency, pre: set<Reg>, rounds: nat, run: seq<Snapshot>)
    requires Unmoved(g, prefs) && Simplifiable(g.nodes, g.edges, pre)
    requires IsRunFrom(g, prefs, pre, rounds, run) && rounds >= |g.nodes|
    ensures Last(run).IsIdle() && Last(run).g == g && FewBefore(g.edges, Last(run).stack)
  {
    SimplifyingAt(g, prefs, pre, run, |run| - 1);
    var s := Last(run);
    if !s.IsIdle() {
      NothingSpilled(g, prefs, pre, s);
      var r := Last(s.lists.simplify);
      assert IsSorted(g, pre, s, r);
      forall n | n in s.onStack
        ensures n in g.nodes
      {
        assert IsSorted(g, pre, s, n);
      }
      SubsetSize(s.onStack + {r}, g.nodes);
    }
  }

  /** Registers with few neighbours can always be simplified. */
  lemma FewNeighboursSimplify(nodes: set<Reg>, edges: Adjacency, pre: set<Reg>)
    requires forall r | r in nodes - pre :: |Adj(edges, r)| < K
    ensures Simplifiable(nodes, edges, pre)
  {
    forall rs | rs <= nodes && !(rs <= pre)
      ensures HasSimple(edges, pre, rs)
    {
      var r :| r in rs && r !in pre;
      SubsetSize(Adj(edges, r) * rs, Adj(edges, r));
    }
  }

  // --- Functions that have no more registers than there are colours, with moves ---

  /** The ends of a list of moves are registers of the function. */
  ghost predicate EndsIn(nodes: set<Reg>, moves: MoveList) {
    forall m | m in moves :: m.0 in nodes && m.1 in nodes
  }

  ghost predicate Small(s: Snapshot) {
    && WellFormed(s.g) && |s.g.nodes| <= K && s.lists.spill == [] && EndsIn(s.g.nodes, s.moves.worklist)
  }

  function ListSize(l: Lists): nat {
    |l.simplify| + 2 * |l.freeze|
  }

  /** This decreases in every round. */
  function Size(s: Snapshot): nat {
    ListSize(s.lists) + 3 * |s.moves.worklist| + 2 * |s.moves.active|
  }

  lemma FewDegree(nodes: set<Reg>, c: Context, r: Reg)
    requires IsUndirected(nodes, c.edges) && |nodes| <= K
    ensures c.Degree(r) < K
  {
    var others := Adj(c.edges, r) - (c.coalesced + c.onStack);
    assert forall n | n in Adj(c.edges, r) :: Edge(c.edges, r, n);
    if n :| n in others {
      assert Edge(c.edges, n, r);
      SubsetSize(others + {r}, nodes);
    }
  }

  /** When x is gone, the other registers have fewer neighbours still. */
  lemma FewerDegree(nodes: set<Reg>, c: Context, x: Reg, r: Reg)
    requires IsUndirected(nodes, c.edges) && |nodes| <= K && x in nodes && x in c.coalesced + c.onStack && r != x
    ensures c.Degree(r) < K - 1
  {
    var others := Adj(c.edges, r) - (c.coalesced + c.onStack);
    assert forall n | n in Adj(c.edges, r) :: Edge(c.edges, r, n);
    if n :| n in others {
      assert Edge(c.edges, n, r);
      SubsetSize(others + {r, x}, nodes);
      assert |others + {r, x}| == |others| + 2;
    }
  }

  lemma NoneLow(nodes: set<Reg>, c: Context, x: Reg, ns: set<Reg>)
    requires IsUndirected(nodes, c.edges) && |nodes| <= K && x in c.coalesced + c.onStack && x !in ns && (x in nodes || ns == {})
    ensures c.Low(ns) == {}
  {
    forall n | n in ns
      ensures c.Degree(n) < K - 1
    {
      FewerDegree(nodes, c, x, n);
    }
  }

  lemma LoweredByNone(c: Context, before: Lists, after: Lists)
    requires Lowered(c, before, after, {})
    ensures after == before
  {
    WithoutNone(before.spill);
    assert c.WithMoves({}) == {};
    var some :| Enumerates(some, {}) && after.freeze == before.freeze + some;
    var more :| Enumerates(more, {}) && after.simplify == before.simplify + more;
    EnumeratesNone(some, {});
    EnumeratesNone(more, {});
  }

  lemma {:induction false} WithoutIsShorter(list: seq<Reg>, rs: set<Reg>)
    ensures |Without(list, rs)| <= |list|
  {
    if list != [] {
      WithoutIsShorter(list[1..], if list[0] in rs then rs - {list[0]} else rs);
    }
  }

  lemma EnlistedSize(c: Context, r: Reg, l: Lists)
    ensures ListSize(Enlisted(c, r, l)) <= ListSize(l) + 1 && Enlisted(c, r, l).spill == l.spill
  {
    WithoutIsShorter(l.freeze, {r});
  }

  lemma {:induction false} EndsEnlistedSize(c: Context, moves: MoveList, r: Reg, l: Lists)
    ensures var l' := EndsEnlisted(c, moves, r, l);
      l'.spill == l.spill && ListSize(l') + |MovesNotAt(moves, r)| <= ListSize(l) + |moves|
    ensures |MovesNotAt(moves, r)| <= |moves|
  {
    if moves != [] {
      EndsEnlistedSize(c, Front(moves), r, l);
      var m := Last(moves);
      EnlistedSize(c, if m.0 == r then m.1 else m.0, EndsEnlisted(c, Front(moves), r, l));
    }
  }

  lemma SmallFreeze(s: Snapshot, t: Snapshot)
    requires Small(s) && s.lists.freeze != [] && IsFreeze(s, t)
    ensures Small(t) && Size(t) < Size(s)
  {
    var r := Last(s.lists.freeze);
    var l := s.lists.(simplify := s.lists.simplify + [r], freeze := Front(s.lists.freeze));
    EndsEnlistedSize(s.Now(), s.moves.active, r, l);
  }

  lemma SmallSimplify(s: Snapshot, t: Snapshot)
    requires Small(s) && s.lists.simplify != [] && IsSimplify(s, t)
    ensures Small(t) && Size(t) < Size(s)
  {
    var r := Last(s.lists.simplify);
    assert r in Adj(s.g.edges, r) ==> Edge(s.g.edges, r, r);
    NoneLow(s.g.nodes, t.Now(), r, Adj(s.g.edges, r));
    LoweredByNone(t.Now(), s.lists.(simplify := Front(s.lists.simplify)), t.lists);
  }

  /** The worklist without its last move. */
  lemma FrontEnds(nodes: set<Reg>, moves: MoveList)
    requires moves != [] && EndsIn(nodes, moves)
    ensures EndsIn(nodes, Front(moves)) && Last(moves).0 in nodes && Last(moves).1 in nodes
  {
    assert Last(moves) in moves;
  }

  lemma SmallMerge(s: Snapshot, t: Snapshot, u: Reg, v: Reg, l: Lists)
    requires Small(s) && CanCombine(s.g, u, v) && IsMerge(s, t, u, v, l)
    ensures WellFormed(t.g) && l.spill == [] && ListSize(l) <= ListSize(s.lists)
  {
    CombinedDescends(s.g, t.g, u, v);
    var before := s.lists.(freeze := Without(s.lists.freeze, {v}), spill := Without(s.lists.spill, {v}));
    WithoutIsShorter(s.lists.freeze, {v});
    NoneLow(t.g.nodes, t.Now(), v, Movable(s.g, u, v));
    var mid :| Lowered(t.Now().(prefs := s.prefs), before, mid, {}) && l == Heavier(t.Now(), u, mid);
    LoweredByNone(t.Now().(prefs := s.prefs), before, mid);
    FewDegree(t.g.nodes, t.Now(), u);
  }

  lemma SmallCombine(s: Snapshot, t: Snapshot, u: Reg, v: Reg)
    requires Small(s) && CanCombine(s.g, u, v) && IsCombine(s, t, u, v)
    ensures WellFormed(t.g) && t.g.nodes == s.g.nodes && t.lists.spill == [] && ListSize(t.lists) <= ListSize(s.lists) + 1
  {
    var l :| IsMerge(s, t, u, v, l) && t.lists == Enlisted(t.Now(), u, l);
    SmallMerge(s, t, u, v, l);
    EnlistedSize(t.Now(), u, l);
  }

  lemma SmallTry(s: Snapshot, t: Snapshot, u: Reg, v: Reg, outcome: MoveOutcome)
    requires Small(s) && IsTry(s, t, u, v, outcome)
    requires u == v || Edge(s.g.edges, u, v) || CanCombine(s.g, u, v)
    ensures Small(t) && t.moves == s.moves && t.g.nodes == s.g.nodes
    ensures ListSize(t.lists) <= ListSize(s.lists) + if outcome == MoveActive then 0 else 2
  {
    EnlistedSize(s.Now(), u, s.lists);
    EnlistedSize(s.Now(), v, Enlisted(s.Now(), u, s.lists));
    if u != v && !Edge(s.g.edges, u, v) && IsSafeMerge(s.Now(), u, v) {
      SmallCombine(s, t, u, v);
    }
  }

  lemma SmallCoalesceOf(s: Snapshot, t: Snapshot, u: Reg, v: Reg)
    requires Small(s) && s.moves.worklist != [] && IsCoalesceOf(s, t, u, v)
    requires u == v || Edge(s.g.edges, u, v) || CanCombine(s.g, u, v)
    ensures Small(t) && Size(t) < Size(s)
  {
    FrontEnds(s.g.nodes, s.moves.worklist);
    var rest := s.moves.(worklist := Front(s.moves.worklist));
    var outcome :| IsTry(s.(moves := rest), t.(moves := rest), u, v, outcome)
                   && t.moves == Filed(rest, Last(s.moves.worklist), outcome);
    SmallTry(s.(moves := rest), t.(moves := rest), u, v, outcome);
  }

  lemma SmallCoalesce(s: Snapshot, t: Snapshot)
    requires Small(s) && s.moves.worklist != [] && IsCoalesce(s, t)
    ensures Small(t) && Size(t) < Size(s)
  {
    var m := Last(s.moves.worklist);
    FrontEnds(s.g.nodes, s.moves.worklist);
    RepInNodes(s.g, m.0);
    RepInNodes(s.g, m.1);
    var x, y := Rep(s.g.coalesced, s.g.alias, m.0), Rep(s.g.coalesced, s.g.alias, m.1);
    SmallCoalesceOf(s, t, if x < y then x else y, if x < y then y else x);
  }

  lemma SmallGoesOn(s: Snapshot, t: Snapshot)
    requires Small(s) && !s.IsIdle() && IsRound(s, t)
    ensures Small(t) && Size(t) < Size(s)
  {
    if s.lists.simplify != [] {
      SmallSimplify(s, t);
    } else if s.moves.worklist != [] {
      SmallCoalesce(s, t);
    } else {
      SmallFreeze(s, t);
    }
  }

  lemma {:induction false} SmallAt(run: seq<Snapshot>, i: nat)
    requires IsRun(run) && Small(run[0]) && i < |run|
    ensures Small(run[i]) && Size(run[i]) + i <= Size(run[0])
  {
    if i > 0 {
      SmallAt(run, i - 1);
      assert RoundAt(run, i - 1);
      SmallGoesOn(run[i - 1], run[i]);
    }
  }

  lemma StartLists(g: Merge, prefs: Adjacency, pre: set<Reg>, s: Snapshot)
    requires WellFormed(g) && |g.nodes| <= K && IsStart(g, prefs, pre, s)
    ensures s.lists.spill == [] && ListSize(s.lists) <= 2 * |g.nodes|
  {
    var c := s.Now();
    forall n
      ensures c.Degree(n) < K
    {
      FewDegree(g.nodes, c, n);
    }
    var rs := g.nodes - pre;
    assert c.Heavy(rs) == {};
    OneListEach(c, rs, s.lists);
    SubsetSize(rs, g.nodes);
  }

  lemma OneListEach(c: Context, rs: set<Reg>, l: Lists)
    requires c.Heavy(rs) == {} && Sorted(c, rs, l)
    ensures l.spill == [] && ListSize(l) <= 2 * |rs|
  {
    EnumeratesNone(l.spill, c.Heavy(rs));
    EnumeratesSize(l.simplify, c.Simple(rs));
    EnumeratesSize(l.freeze, c.Moved(rs));
    TwoParts(rs, c.Simple(rs), c.Moved(rs));
  }

  lemma TwoParts(rs: set<Reg>, a: set<Reg>, b: set<Reg>)
    requires a <= rs && b <= rs && a !! b
    ensures |a| + |b| <= |rs|
  {
    SubsetSize(a + b, rs);
  }

  lemma StartIsSmall(g: Merge, prefs: Adjacency, pre: set<Reg>, s: Snapshot)
    requires WellFormed(g) && |g.nodes| <= K && IsUndirected(g.nodes, prefs) && IsStart(g, prefs, pre, s)
    ensures Small(s) && Size(s) <= 2 * |g.nodes| + 3 * |MovePairs(prefs)|
  {
    StartLists(g, prefs, pre, s);
    EnumeratesSize(s.moves.worklist, MovePairs(prefs));
    forall m | m in s.moves.worklist
      ensures m.0 in g.nodes && m.1 in g.nodes
    {
      assert m in MovePairs(prefs);
      assert Edge(prefs, m.0, m.1);
    }
  }

  /** With no more registers than colours, the loop ends after two rounds for each register and three for each move, or earlier. */
  lemma SmallEnds(g: Merge, prefs: Adjacency, pre: set<Reg>, rounds: nat, run: seq<Snapshot>)
    requires WellFormed(g) && |g.nodes| <= K && IsUndirected(g.nodes, prefs)
    requires IsRunFrom(g, prefs, pre, rounds, run) && rounds >= 2 * |g.nodes| + 3 * |MovePairs(prefs)|
    ensures Last(run).IsIdle()
  {
    StartIsSmall(g, prefs, pre, run[0]);
    SmallAt(run, |run| - 1);
  }
}
