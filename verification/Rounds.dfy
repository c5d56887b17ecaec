/** The rounds of the main loop of iterated register coalescing (pkg/regalloc/irc.go, Allocate), on values: how the state
    after a round is related to the state before it. */
module Rounds {
  import opened Values
  import opened RTL
  import opened Liveness
  import opened Interference
  import opened Conventions
  import opened Coalescing
  import opened Params

  type MoveList = seq<(Reg, Reg)>

  datatype MoveOutcome = MoveCoalesced | MoveConstrained | MoveActive

  datatype Lists = Lists(simplify: seq<Reg>, freeze: seq<Reg>, spill: seq<Reg>)

  datatype Moves = Moves(worklist: MoveList, active: MoveList, coalesced: MoveList, constrained: MoveList, frozen: MoveList)

  /** What decides where a register is listed. */
  datatype Context = Context(edges: Adjacency, prefs: Adjacency, coalesced: set<Reg>, onStack: set<Reg>) {
    ghost function Degree(r: Reg): nat {
      DegreeOf(edges, coalesced + onStack, r)
    }

    predicate MoveRelated(r: Reg) {
      Adj(prefs, r) != {}
    }

    function WithMoves(rs: set<Reg>): set<Reg> {
      set r | r in rs && MoveRelated(r)
    }

    /** Where the registers of rs belong at first: to be simplified, frozen or spilled. */
    ghost function Simple(rs: set<Reg>): set<Reg> {
      set r | r in rs && Degree(r) < K && !MoveRelated(r)
    }

    ghost function Moved(rs: set<Reg>): set<Reg> {
      set r | r in rs && Degree(r) < K && MoveRelated(r)
    }

    ghost function Heavy(rs: set<Reg>): set<Reg> {
      set r | r in rs && Degree(r) >= K
    }

    /** The registers of ns whose degree has just become low. */
    ghost function Low(ns: set<Reg>): set<Reg> {
      set n | n in ns && n !in coalesced && Degree(n) == K - 1
    }
  }

  /** The state of the allocator, without the colours. */
  datatype Snapshot =
    Snapshot(g: Merge, prefs: Adjacency, stack: seq<Reg>, onStack: set<Reg>, lists: Lists, moves: Moves)
  {
    function Now(): Context {
      Context(g.edges, prefs, g.coalesced, onStack)
    }

    predicate IsIdle() {
      lists.simplify == [] && moves.worklist == [] && lists.freeze == [] && lists.spill == []
    }
  }

  // --- Lists ---

  function Last<T>(s: seq<T>): T
    requires s != []
  {
    s[|s| - 1]
  }

  function Front<T>(s: seq<T>): seq<T>
    requires s != []
  {
    s[..|s| - 1]
  }

  /** The list without the first occurrence of each register of rs. */
  function Without(list: seq<Reg>, rs: set<Reg>): seq<Reg> {
    if list == [] then []
    else if list[0] in rs then Without(list[1..], rs - {list[0]})
    else [list[0]] + Without(list[1..], rs)
  }

  /** The list has the elements of the set, once each, in some order. */
  ghost predicate Enumerates<T(!new)>(list: seq<T>, elements: set<T>) {
    Once(list) && forall x :: x in list <==> x in elements
  }

  ghost predicate Once<T(!new)>(list: seq<T>) {
    forall i, j | 0 <= i < j < |list| :: list[i] != list[j]
  }

  /** The list has grown by the registers of rs, in some order. */
  ghost predicate GrownBy(before: seq<Reg>, after: seq<Reg>, rs: set<Reg>) {
    exists more :: Enumerates(more, rs) && after == before + more
  }

  /** What decrementing degrees does to the lists: the registers whose degree is now low are no longer to be spilled, and are
      frozen or simplified. */
  ghost predicate Lowered(c: Context, before: Lists, after: Lists, low: set<Reg>) {
    && after.spill == Without(before.spill, low)
    && GrownBy(before.freeze, after.freeze, c.WithMoves(low))
    && GrownBy(before.simplify, after.simplify, low - c.WithMoves(low))
  }

  /** The lists after r may have become ready to be simplified. */
  ghost function Enlisted(c: Context, r: Reg, l: Lists): Lists {
    if r !in c.coalesced && c.Degree(r) < K && !c.MoveRelated(r) then
      Lists(l.simplify + [r], Without(l.freeze, {r}), l.spill)
    else
      l
  }

  /** The lists after other registers were merged into r. */
  ghost function Heavier(c: Context, r: Reg, l: Lists): Lists {
    if c.Degree(r) >= K then Lists(l.simplify, Without(l.freeze, {r}), l.spill + [r]) else l
  }

  /** The moves at r, and the others. */
  function MovesAt(moves: MoveList, r: Reg): MoveList {
    if moves == [] then []
    else if Last(moves).0 == r || Last(moves).1 == r then MovesAt(Front(moves), r) + [Last(moves)]
    else MovesAt(Front(moves), r)
  }

  function MovesNotAt(moves: MoveList, r: Reg): MoveList {
    if moves == [] then []
    else if Last(moves).0 == r || Last(moves).1 == r then MovesNotAt(Front(moves), r)
    else MovesNotAt(Front(moves), r) + [Last(moves)]
  }

  /** The lists after the other ends of r's moves, in turn, may have become ready to be simplified. */
  ghost function EndsEnlisted(c: Context, moves: MoveList, r: Reg, l: Lists): Lists {
    if moves == [] then l
    else
      var m, l' := Last(moves), EndsEnlisted(c, Front(moves), r, l);
      if m.0 == r || m.1 == r then Enlisted(c, if m.0 == r then m.1 else m.0, l') else l'
  }

  /** The registers among `rs` of high degree; Briggs' criterion counts them. */
  ghost function HighDegree(edges: Adjacency, gone: set<Reg>, rs: set<Reg>): set<Reg> {
    set n | n in rs && DegreeOf(edges, gone, n) >= K
  }

  // --- Rounds ---

  /** simplify: the last register is pushed, and its neighbours have a neighbour less. */
  ghost predicate IsSimplify(s: Snapshot, t: Snapshot)
    requires s.lists.simplify != []
  {
    var r := Last(s.lists.simplify);
    && t == s.(stack := s.stack + [r], onStack := s.onStack + {r}, lists := t.lists)
    && Lowered(t.Now(), s.lists.(simplify := Front(s.lists.simplify)), t.lists, t.Now().Low(Adj(s.g.edges, r)))
  }

  /** The moves of v have become moves of u. */
  ghost predicate PrefsMerged(before: Adjacency, after: Adjacency, u: Reg, v: Reg) {
    after.Keys == before.Keys && Extends(before, after, u, Adj(before, v) - {u})
  }

  /** combine: v is merged into u, in the graph and on the lists, which become l. */
  ghost predicate IsMerge(s: Snapshot, t: Snapshot, u: Reg, v: Reg, l: Lists) {
    && Combined(s.g, t.g, u, v) && PrefsMerged(s.prefs, t.prefs, u, v)
    && exists mid ::
         && Lowered(t.Now().(prefs := s.prefs), s.lists.(freeze := Without(s.lists.freeze, {v}), spill := Without(s.lists.spill, {v})),
                    mid, t.Now().Low(Movable(s.g, u, v)))
         && l == Heavier(t.Now(), u, mid)
  }

  /** And u may have become ready to be simplified. */
  ghost predicate IsCombine(s: Snapshot, t: Snapshot, u: Reg, v: Reg) {
    && t.stack == s.stack && t.onStack == s.onStack && t.moves == s.moves
    && exists l :: IsMerge(s, t, u, v, l) && t.lists == Enlisted(t.Now(), u, l)
  }

  /** Few neighbours of the two registers have a high degree. */
  ghost predicate IsSafeMerge(c: Context, u: Reg, v: Reg) {
    |HighDegree(c.edges, c.coalesced + c.onStack, (Adj(c.edges, u) + Adj(c.edges, v)) - c.coalesced)| < K
  }

  /** What is done with a move whose representatives are u and v, with u <= v. */
  ghost predicate IsTry(s: Snapshot, t: Snapshot, u: Reg, v: Reg, outcome: MoveOutcome) {
    if u == v then outcome == MoveCoalesced && t == s.(lists := Enlisted(s.Now(), u, s.lists))
    else if Edge(s.g.edges, u, v) then
      outcome == MoveConstrained && t == s.(lists := Enlisted(s.Now(), v, Enlisted(s.Now(), u, s.lists)))
    else if IsSafeMerge(s.Now(), u, v) then outcome == MoveCoalesced && IsCombine(s, t, u, v)
    else outcome == MoveActive && t == s
  }

  function Filed(moves: Moves, m: (Reg, Reg), outcome: MoveOutcome): Moves {
    match outcome
    case MoveCoalesced => moves.(coalesced := moves.coalesced + [m])
    case MoveConstrained => moves.(constrained := moves.constrained + [m])
    case MoveActive => moves.(active := moves.active + [m])
  }

  /** coalesce: the last candidate move is tried and filed. */
  ghost predicate IsCoalesceOf(s: Snapshot, t: Snapshot, u: Reg, v: Reg)
    requires s.moves.worklist != []
  {
    var rest := s.moves.(worklist := Front(s.moves.worklist));
    exists outcome ::
      && IsTry(s.(moves := rest), t.(moves := rest), u, v, outcome)
      && t.moves == Filed(rest, Last(s.moves.worklist), outcome)
  }

  ghost predicate IsCoalesce(s: Snapshot, t: Snapshot)
    requires s.moves.worklist != []
  {
    Descends(s.g.coalesced, s.g.alias) &&
    var m := Last(s.moves.worklist);
    var x, y := Rep(s.g.coalesced, s.g.alias, m.0), Rep(s.g.coalesced, s.g.alias, m.1);
    IsCoalesceOf(s, t, if x < y then x else y, if x < y then y else x)
  }

  /** The moves of r are no longer candidates, from a state in which the lists are l. */
  ghost predicate IsFrozen(s: Snapshot, t: Snapshot, r: Reg, l: Lists) {
    t == s.(
      lists := EndsEnlisted(s.Now(), s.moves.active, r, l),
      moves := s.moves.(active := MovesNotAt(s.moves.active, r), frozen := s.moves.frozen + MovesAt(s.moves.active, r)))
  }

  /** freeze: the last register is simplified although it has moves. */
  ghost predicate IsFreeze(s: Snapshot, t: Snapshot)
    requires s.lists.freeze != []
  {
    var r := Last(s.lists.freeze);
    IsFrozen(s, t, r, s.lists.(simplify := s.lists.simplify + [r], freeze := Front(s.lists.freeze)))
  }

  /** The first register of greatest degree. */
  ghost predicate IsHeaviest(c: Context, list: seq<Reg>, i: nat) {
    && i < |list|
    && (forall j | 0 <= j < |list| :: c.Degree(list[j]) <= c.Degree(list[i]))
    && (forall j | 0 <= j < i :: c.Degree(list[j]) < c.Degree(list[i]))
  }

  /** selectSpill: a register of greatest degree is simplified although it has many neighbours. */
  ghost predicate IsSpill(s: Snapshot, t: Snapshot) {
    exists i: nat ::
      && IsHeaviest(s.Now(), s.lists.spill, i)
      && IsFrozen(s, t, s.lists.spill[i],
                  s.lists.(simplify := s.lists.simplify + [s.lists.spill[i]], spill := s.lists.spill[..i] + s.lists.spill[i + 1..]))
  }

  /** One round of the main loop. */
  ghost predicate IsRound(s: Snapshot, t: Snapshot) {
    if s.lists.simplify != [] then IsSimplify(s, t)
    else if s.moves.worklist != [] then IsCoalesce(s, t)
    else if s.lists.freeze != [] then IsFreeze(s, t)
    else IsSpill(s, t)
  }

  ghost predicate RoundAt(run: seq<Snapshot>, i: nat)
    requires i < |run| - 1
  {
    !run[i].IsIdle() && IsRound(run[i], run[i + 1])
  }

  /** Consecutive states of the main loop. */
  ghost predicate IsRun(run: seq<Snapshot>) {
    run != [] && forall i: nat | i < |run| - 1 :: RoundAt(run, i)
  }

  /** The registers of rs are listed once each, where they belong. */
  ghost predicate Sorted(c: Context, rs: set<Reg>, l: Lists) {
    Enumerates(l.simplify, c.Simple(rs)) && Enumerates(l.freeze, c.Moved(rs)) && Enumerates(l.spill, c.Heavy(rs))
  }

  /** The moves between different registers, each once. */
  ghost function MovePairs(prefs: Adjacency): set<(Reg, Reg)> {
    set a, b | a in prefs && b in prefs[a] && a < b :: (a, b)
  }

  /** The state before the first round. */
  ghost predicate IsStart(g: Merge, prefs: Adjacency, pre: set<Reg>, s: Snapshot) {
    && s.g == g && s.prefs == prefs && s.stack == [] && s.onStack == {}
    && Sorted(s.Now(), g.nodes - pre, s.lists)
    && Enumerates(s.moves.worklist, MovePairs(prefs))
    && s.moves.active == [] && s.moves.coalesced == [] && s.moves.constrained == [] && s.moves.frozen == []
  }

  /** The run begins at the start, and ends after the given number of rounds or before that, when there is nothing left. */
  ghost predicate IsRunFrom(g: Merge, prefs: Adjacency, pre: set<Reg>, rounds: nat, run: seq<Snapshot>) {
    IsRun(run) && IsStart(g, prefs, pre, run[0]) && |run| - 1 <= rounds && (Last(run).IsIdle() || |run| - 1 == rounds)
  }

  // --- Lemmas about lists ---

  lemma {:induction false} WithoutNone(list: seq<Reg>)
    ensures Without(list, {}) == list
  {
    if list != [] {
      WithoutNone(list[1..]);
    }
  }

  lemma {:induction false} WithoutTwice(list: seq<Reg>, some: set<Reg>, others: set<Reg>)
    requires some !! others
    ensures Without(Without(list, some), others) == Without(list, some + others)
  {
    if list != [] {
      var rest := list[1..];
      if list[0] in some {
        WithoutTwice(rest, some - {list[0]}, others);
        assert some + others - {list[0]} == (some - {list[0]}) + others;
      } else {
        var one := [list[0]] + Without(rest, some);
        assert one[1..] == Without(rest, some);
        if list[0] in others {
          WithoutTwice(rest, some, others - {list[0]});
          assert some + others - {list[0]} == some + (others - {list[0]});
        } else {
          WithoutTwice(rest, some, others);
        }
      }
    }
  }

  lemma {:induction false} WithoutElements(list: seq<Reg>, rs: set<Reg>)
    ensures Elements(list) - rs <= Elements(Without(list, rs)) <= Elements(list)
  {
    if list == [] {
    } else {
      assert list == [list[0]] + list[1..];
      ElementsAppend([list[0]], list[1..]);
      if list[0] in rs {
        WithoutElements(list[1..], rs - {list[0]});
      } else {
        WithoutElements(list[1..], rs);
        ElementsAppend([list[0]], Without(list[1..], rs));
      }
    }
  }

  lemma {:induction false} WithoutSkips(list: seq<Reg>, r: Reg, i: nat)
    requires i <= |list| && r !in list[..i]
    ensures Without(list, {r}) == list[..i] + Without(list[i..], {r})
  {
    if i == 0 {
      assert list[0..] == list;
    } else {
      assert list[0] in list[..i];
      assert list[1..][..i - 1] == list[..i][1..];
      assert list[1..][i - 1..] == list[i..];
      WithoutSkips(list[1..], r, i - 1);
    }
  }

  lemma AppendOnce<T(!new)>(a: seq<T>, b: seq<T>)
    requires Once(a) && Once(b) && forall x | x in a :: x !in b
    ensures Once(a + b)
  {
    forall i, j | 0 <= i < j < |a + b|
      ensures (a + b)[i] != (a + b)[j]
    {
      if i < |a| <= j {
        assert a[i] in a && b[j - |a|] in b;
      }
    }
  }

  lemma EnumeratesNone<T(!new)>(list: seq<T>, elements: set<T>)
    requires Enumerates(list, elements) && elements == {}
    ensures list == []
  {
    EnumeratesSize(list, elements);
  }

  lemma GrownTwice(a: seq<Reg>, b: seq<Reg>, c: seq<Reg>, some: set<Reg>, others: set<Reg>)
    requires some !! others && GrownBy(a, b, some) && GrownBy(b, c, others)
    ensures GrownBy(a, c, some + others)
  {
    var more :| Enumerates(more, some) && b == a + more;
    var most :| Enumerates(most, others) && c == b + most;
    AppendOnce(more, most);
    assert Enumerates(more + most, some + others);
    assert c == a + (more + most);
  }

  lemma GrownByNone(a: seq<Reg>)
    ensures GrownBy(a, a, {})
  {
    var none: seq<Reg> := [];
    assert Enumerates(none, {}) && a == a + none;
  }

  lemma GrownByOne(a: seq<Reg>, r: Reg)
    ensures GrownBy(a, a + [r], {r})
  {
    assert Enumerates([r], {r});
  }

  lemma LoweredNone(c: Context, l: Lists)
    ensures Lowered(c, l, l, {})
  {
    WithoutNone(l.spill);
    GrownByNone(l.freeze);
    GrownByNone(l.simplify);
    assert c.WithMoves({}) == {};
    assert {} - c.WithMoves({}) == {};
  }

  lemma LoweredOne(c: Context, l: Lists, r: Reg)
    ensures var l' := l.(spill := Without(l.spill, {r}));
      Lowered(c, l, if c.MoveRelated(r) then l'.(freeze := l.freeze + [r]) else l'.(simplify := l.simplify + [r]), {r})
  {
    GrownByNone(l.freeze);
    GrownByOne(l.freeze, r);
    GrownByNone(l.simplify);
    GrownByOne(l.simplify, r);
    assert c.WithMoves({r}) == if c.MoveRelated(r) then {r} else {};
    assert {r} - c.WithMoves({r}) == if c.MoveRelated(r) then {} else {r};
  }

  lemma WithMovesOfBoth(c: Context, some: set<Reg>, others: set<Reg>)
    requires some !! others
    ensures c.WithMoves(some + others) == c.WithMoves(some) + c.WithMoves(others)
    ensures some + others - c.WithMoves(some + others) == (some - c.WithMoves(some)) + (others - c.WithMoves(others))
  {
  }

  lemma LoweredTwice(c: Context, l0: Lists, l1: Lists, l2: Lists, some: set<Reg>, others: set<Reg>)
    requires some !! others && Lowered(c, l0, l1, some) && Lowered(c, l1, l2, others)
    ensures Lowered(c, l0, l2, some + others)
  {
    WithoutTwice(l0.spill, some, others);
    GrownTwice(l0.freeze, l1.freeze, l2.freeze, c.WithMoves(some), c.WithMoves(others));
    GrownTwice(l0.simplify, l1.simplify, l2.simplify, some - c.WithMoves(some), others - c.WithMoves(others));
    WithMovesOfBoth(c, some, others);
  }

  // --- Lemmas about lists and degrees ---

  /** decrementDegree, for one register and for several in turn. */
  ghost function Decremented(c: Context, r: Reg, l: Lists): Lists {
    if r !in c.coalesced && c.Degree(r) == K - 1 then
      if c.MoveRelated(r) then Lists(l.simplify, l.freeze + [r], Without(l.spill, {r}))
      else Lists(l.simplify + [r], l.freeze, Without(l.spill, {r}))
    else l
  }

  ghost function DecrementedAll(c: Context, rs: seq<Reg>, l: Lists): Lists {
    if rs == [] then l else Decremented(c, Last(rs), DecrementedAll(c, Front(rs), l))
  }

  /** All the registers listed. */
  function Listing(l: Lists): set<Reg> {
    Elements(l.simplify) + Elements(l.freeze) + Elements(l.spill)
  }

  lemma DecrementedGrows(c: Context, r: Reg, l: Lists)
    ensures Listing(l) <= Listing(Decremented(c, r, l)) <= Listing(l) + {r}
    ensures r in c.coalesced || c.Degree(r) != K - 1 ==> Listing(Decremented(c, r, l)) == Listing(l)
  {
    ElementsAppend(l.simplify, [r]);
    ElementsAppend(l.freeze, [r]);
    WithoutElements(l.spill, {r});
  }

  lemma EnlistedGrows(c: Context, r: Reg, l: Lists)
    ensures Listing(l) <= Listing(Enlisted(c, r, l)) <= Listing(l) + {r}
    ensures r in c.coalesced ==> Listing(Enlisted(c, r, l)) == Listing(l)
  {
    ElementsAppend(l.simplify, [r]);
    WithoutElements(l.freeze, {r});
  }

  lemma HeavierGrows(c: Context, r: Reg, l: Lists)
    ensures Listing(l) <= Listing(Heavier(c, r, l)) <= Listing(l) + {r}
  {
    ElementsAppend(l.spill, [r]);
    WithoutElements(l.freeze, {r});
  }

  lemma DecrementedLowers(c: Context, r: Reg, l: Lists)
    ensures Lowered(c, l, Decremented(c, r, l), c.Low({r}))
  {
    assert c.Low({r}) == if r !in c.coalesced && c.Degree(r) == K - 1 then {r} else {};
    if r !in c.coalesced && c.Degree(r) == K - 1 { LoweredOne(c, l, r); } else { LoweredNone(c, l); }
  }

  lemma {:induction false} AllLowered(c: Context, rs: seq<Reg>, l: Lists, ns: set<Reg>)
    requires Enumerates(rs, ns)
    ensures Lowered(c, l, DecrementedAll(c, rs, l), c.Low(ns))
  {
    if rs == [] {
      assert c.Low(ns) == {};
      LoweredNone(c, l);
    } else {
      var n, rest := Last(rs), ns - {Last(rs)};
      FrontEnumerates(rs, ns);
      AllLowered(c, Front(rs), l, rest);
      var l1 := DecrementedAll(c, Front(rs), l);
      DecrementedLowers(c, n, l1);
      OneMoreLowered(c, l, l1, Decremented(c, n, l1), rest, n);
      assert rest + {n} == ns;
    }
  }

  lemma LowOfBoth(c: Context, done: set<Reg>, n: Reg)
    requires n !in done
    ensures c.Low(done + {n}) == c.Low(done) + c.Low({n}) && c.Low(done) !! c.Low({n})
  {
  }

  lemma OneMoreLowered(c: Context, l0: Lists, l1: Lists, l2: Lists, done: set<Reg>, n: Reg)
    requires n !in done && Lowered(c, l0, l1, c.Low(done)) && Lowered(c, l1, l2, c.Low({n}))
    ensures Lowered(c, l0, l2, c.Low(done + {n}))
  {
    LowOfBoth(c, done, n);
    LoweredTwice(c, l0, l1, l2, c.Low(done), c.Low({n}));
  }

  /** An edge between u and n changes no other degrees. */
  lemma SameDegree(c: Context, d: Context, u: Reg, n: Reg, r: Reg)
    requires Extends(c.edges, d.edges, u, {n}) && c.coalesced == d.coalesced && c.onStack == d.onStack && u != r && n != r
    ensures d.Degree(r) == c.Degree(r)
  {
    forall m
      ensures m in Adj(d.edges, r) <==> m in Adj(c.edges, r)
    {
      assert Edge(d.edges, r, m) <==> Edge(c.edges, r, m);
    }
    assert Adj(d.edges, r) == Adj(c.edges, r);
  }

  lemma {:induction false} MergedAgrees(c: Context, d: Context, u: Reg, n: Reg, rs: seq<Reg>, l: Lists)
    requires Extends(c.edges, d.edges, u, {n}) && c.coalesced == d.coalesced && c.onStack == d.onStack && c.prefs == d.prefs
    requires u !in rs && n !in rs
    ensures DecrementedAll(d, rs, l) == DecrementedAll(c, rs, l)
  {
    if rs != [] {
      MergedAgrees(c, d, u, n, Front(rs), l);
      assert Last(rs) in rs;
      SameDegree(c, d, u, n, Last(rs));
    }
  }

  lemma OneMoreMerged(c: Context, d: Context, u: Reg, n: Reg, order: seq<Reg>, moved: set<Reg>, l: Lists)
    requires Extends(c.edges, d.edges, u, {n}) && c.coalesced == d.coalesced && c.onStack == d.onStack && c.prefs == d.prefs
    requires Enumerates(order, moved) && u !in moved && n !in moved
    ensures Enumerates(order + [n], moved + {n})
    ensures DecrementedAll(d, order + [n], l) == Decremented(d, n, DecrementedAll(c, order, l))
  {
    MergedAgrees(c, d, u, n, order, l);
    OneMoreEnumerated(order, moved, n);
    assert Front(order + [n]) == order;
  }

  lemma LowAgrees(c: Context, d: Context, ns: set<Reg>)
    requires c.edges == d.edges && c.coalesced == d.coalesced && c.onStack == d.onStack
    ensures c.Low(ns) == d.Low(ns)
  {
  }

  /** The lists after r has been put where it belongs, and after several registers have been. */
  ghost function Entered(c: Context, r: Reg, l: Lists): Lists {
    if c.Degree(r) >= K then l.(spill := l.spill + [r])
    else if c.MoveRelated(r) then l.(freeze := l.freeze + [r])
    else l.(simplify := l.simplify + [r])
  }

  ghost function AllEntered(c: Context, rs: seq<Reg>): Lists {
    if rs == [] then Lists([], [], []) else Entered(c, Last(rs), AllEntered(c, Front(rs)))
  }

  lemma EnteredGrows(c: Context, r: Reg, l: Lists)
    ensures Listing(Entered(c, r, l)) == Listing(l) + {r}
  {
    ElementsAppend(l.simplify, [r]);
    ElementsAppend(l.freeze, [r]);
    ElementsAppend(l.spill, [r]);
  }

  lemma {:induction false} AllEnteredListing(c: Context, rs: seq<Reg>)
    ensures Listing(AllEntered(c, rs)) == Elements(rs)
  {
    if rs != [] {
      AllEnteredListing(c, Front(rs));
      EnteredGrows(c, Last(rs), AllEntered(c, Front(rs)));
      assert rs == Front(rs) + [Last(rs)];
      ElementsAppend(Front(rs), [Last(rs)]);
    }
  }

  lemma FrontEnumerates<T(!new)>(list: seq<T>, elements: set<T>)
    requires list != [] && Enumerates(list, elements)
    ensures Enumerates(Front(list), elements - {Last(list)}) && Last(list) in elements
  {
    assert list == Front(list) + [Last(list)];
    assert Last(list) in list && Last(list) !in Front(list);
  }

  lemma {:induction false} EnumeratesSize<T(!new)>(list: seq<T>, elements: set<T>)
    requires Enumerates(list, elements)
    ensures |list| == |elements|
  {
    if list == [] {
      assert elements == {};
    } else {
      FrontEnumerates(list, elements);
      EnumeratesSize(Front(list), elements - {Last(list)});
    }
  }

  lemma NothingSorted(c: Context, none: set<Reg>)
    requires none == {}
    ensures Sorted(c, none, Lists([], [], []))
  {
  }

  lemma OneMoreEntered(c: Context, order: seq<Reg>, r: Reg)
    requires Once(order) && r !in order
    ensures Once(order + [r])
    ensures AllEntered(c, order + [r]) == Entered(c, r, AllEntered(c, order))
  {
    assert Front(order + [r]) == order;
  }

  lemma {:induction false} AllEnteredSorted(c: Context, rs: seq<Reg>, all: set<Reg>)
    requires Enumerates(rs, all)
    ensures Sorted(c, all, AllEntered(c, rs))
  {
    if rs == [] {
      NothingSorted(c, all);
    } else {
      var r, rest := Last(rs), all - {Last(rs)};
      FrontEnumerates(rs, all);
      AllEnteredSorted(c, Front(rs), rest);
      assert rest + {r} == all;
      OneMoreSorted(c, rest, AllEntered(c, Front(rs)), r);
    }
  }

  lemma OneMoreSorted(c: Context, rs: set<Reg>, l: Lists, r: Reg)
    requires r !in rs && Sorted(c, rs, l)
    ensures Sorted(c, rs + {r}, Entered(c, r, l))
  {
    OneMoreBelongs(c, rs, r);
    if c.Degree(r) >= K {
      OneMoreEnumerated(l.spill, c.Heavy(rs), r);
    } else if c.MoveRelated(r) {
      OneMoreEnumerated(l.freeze, c.Moved(rs), r);
    } else {
      OneMoreEnumerated(l.simplify, c.Simple(rs), r);
    }
  }

  lemma OneMoreBelongs(c: Context, rs: set<Reg>, r: Reg)
    ensures c.Simple(rs + {r}) == if c.Degree(r) < K && !c.MoveRelated(r) then c.Simple(rs) + {r} else c.Simple(rs)
    ensures c.Moved(rs + {r}) == if c.Degree(r) < K && c.MoveRelated(r) then c.Moved(rs) + {r} else c.Moved(rs)
    ensures c.Heavy(rs + {r}) == if c.Degree(r) >= K then c.Heavy(rs) + {r} else c.Heavy(rs)
  {
    OneMoreSimple(c, rs, r);
    OneMoreMoved(c, rs, r);
    OneMoreHeavy(c, rs, r);
  }

  lemma OneMoreSimple(c: Context, rs: set<Reg>, r: Reg)
    ensures c.Simple(rs + {r}) == if c.Degree(r) < K && !c.MoveRelated(r) then c.Simple(rs) + {r} else c.Simple(rs)
  {
  }

  lemma OneMoreMoved(c: Context, rs: set<Reg>, r: Reg)
    ensures c.Moved(rs + {r}) == if c.Degree(r) < K && c.MoveRelated(r) then c.Moved(rs) + {r} else c.Moved(rs)
  {
  }

  lemma OneMoreHeavy(c: Context, rs: set<Reg>, r: Reg)
    ensures c.Heavy(rs + {r}) == if c.Degree(r) >= K then c.Heavy(rs) + {r} else c.Heavy(rs)
  {
  }

  lemma OneMoreEnumerated<T(!new)>(list: seq<T>, rs: set<T>, r: T)
    requires Enumerates(list, rs) && r !in rs
    ensures Enumerates(list + [r], rs + {r})
  {
  }

  lemma OneMoreMove(c: Context, moves: MoveList, i: nat, r: Reg, l: Lists)
    requires i < |moves|
    ensures var m := moves[i];
      if m.0 == r || m.1 == r then
        && EndsEnlisted(c, moves[..i + 1], r, l) == Enlisted(c, if m.0 == r then m.1 else m.0, EndsEnlisted(c, moves[..i], r, l))
        && MovesAt(moves[..i + 1], r) == MovesAt(moves[..i], r) + [m] && MovesNotAt(moves[..i + 1], r) == MovesNotAt(moves[..i], r)
      else
        && EndsEnlisted(c, moves[..i + 1], r, l) == EndsEnlisted(c, moves[..i], r, l)
        && MovesAt(moves[..i + 1], r) == MovesAt(moves[..i], r) && MovesNotAt(moves[..i + 1], r) == MovesNotAt(moves[..i], r) + [m]
  {
    assert Front(moves[..i + 1]) == moves[..i] && Last(moves[..i + 1]) == moves[i];
  }

  lemma {:induction false} NotAtSubset(moves: MoveList, r: Reg)
    ensures forall m | m in MovesNotAt(moves, r) :: m in moves
  {
    if moves != [] {
      NotAtSubset(Front(moves), r);
    }
  }

  lemma OneMoreRound(run: seq<Snapshot>, s: Snapshot)
    requires IsRun(run) && !Last(run).IsIdle() && IsRound(Last(run), s)
    ensures IsRun(run + [s])
  {
    forall i: nat | i < |run + [s]| - 1
      ensures RoundAt(run + [s], i)
    {
      if i < |run| - 1 {
        assert RoundAt(run, i);
      }
    }
  }

  // --- Rounds from what they do step by step ---

  lemma SimplifyRound(s: Snapshot, t: Snapshot, order: seq<Reg>)
    requires s.lists.simplify != [] && Enumerates(order, Adj(s.g.edges, Last(s.lists.simplify)))
    requires t == s.(stack := s.stack + [Last(s.lists.simplify)], onStack := s.onStack + {Last(s.lists.simplify)}, lists := t.lists)
    requires t.lists == DecrementedAll(t.Now(), order, s.lists.(simplify := Front(s.lists.simplify)))
    ensures IsSimplify(s, t)
  {
    AllLowered(t.Now(), order, s.lists.(simplify := Front(s.lists.simplify)), Adj(s.g.edges, Last(s.lists.simplify)));
  }

  /** The lists, which were l, after the edges of v have been given to u in some order. */
  ghost function MergedLists(c: Context, prefs: Adjacency, l: Lists, u: Reg, v: Reg, order: seq<Reg>): Lists {
    Heavier(c, u, DecrementedAll(c.(prefs := prefs), order, l.(freeze := Without(l.freeze, {v}), spill := Without(l.spill, {v}))))
  }

  lemma CombineRound(s: Snapshot, t: Snapshot, u: Reg, v: Reg, order: seq<Reg>)
    requires Combined(s.g, t.g, u, v) && PrefsMerged(s.prefs, t.prefs, u, v) && Enumerates(order, Movable(s.g, u, v))
    requires t.stack == s.stack && t.onStack == s.onStack && t.moves == s.moves
    requires t.lists == Enlisted(t.Now(), u, MergedLists(t.Now(), s.prefs, s.lists, u, v, order))
    ensures IsCombine(s, t, u, v)
  {
    var l := s.lists.(freeze := Without(s.lists.freeze, {v}), spill := Without(s.lists.spill, {v}));
    var c := t.Now().(prefs := s.prefs);
    AllLowered(c, order, l, Movable(s.g, u, v));
    LowAgrees(c, t.Now(), Movable(s.g, u, v));
    MergeIs(s, t, u, v, DecrementedAll(c, order, l));
  }

  lemma MergeIs(s: Snapshot, t: Snapshot, u: Reg, v: Reg, mid: Lists)
    requires Combined(s.g, t.g, u, v) && PrefsMerged(s.prefs, t.prefs, u, v)
    requires Lowered(t.Now().(prefs := s.prefs), s.lists.(freeze := Without(s.lists.freeze, {v}), spill := Without(s.lists.spill, {v})),
                     mid, t.Now().Low(Movable(s.g, u, v)))
    ensures IsMerge(s, t, u, v, Heavier(t.Now(), u, mid))
  {
  }

  lemma CoalesceRound(s: Snapshot, t: Snapshot, t': Snapshot, u: Reg, v: Reg, outcome: MoveOutcome)
    requires s.moves.worklist != []
    requires IsTry(s.(moves := s.moves.(worklist := Front(s.moves.worklist))), t, u, v, outcome)
    requires t' == t.(moves := Filed(t.moves, Last(s.moves.worklist), outcome))
    ensures IsCoalesceOf(s, t', u, v)
  {
    assert t'.(moves := s.moves.(worklist := Front(s.moves.worklist))) == t;
  }

  lemma SpillRound(s: Snapshot, t: Snapshot, i: nat)
    requires IsHeaviest(s.Now(), s.lists.spill, i)
    requires IsFrozen(s, t, s.lists.spill[i],
                      s.lists.(simplify := s.lists.simplify + [s.lists.spill[i]], spill := s.lists.spill[..i] + s.lists.spill[i + 1..]))
    ensures IsSpill(s, t)
  {
  }

  lemma StartIs(s: Snapshot, pre: set<Reg>, order: seq<Reg>)
    requires s.stack == [] && s.onStack == {} && s.g.coalesced == {}
    requires Enumerates(order, s.g.nodes - pre) && s.lists == AllEntered(s.Now(), order)
    requires s.moves == Moves(s.moves.worklist, [], [], [], []) && Enumerates(s.moves.worklist, MovePairs(s.prefs))
    ensures IsStart(s.g, s.prefs, pre, s)
  {
    AllEnteredSorted(s.Now(), order, s.g.nodes - pre);
  }
}
