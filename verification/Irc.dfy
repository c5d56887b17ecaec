/** Iterated register coalescing (pkg/regalloc/irc.go).

    The main loop need not end: decrementing a degree can put registers that are already on the select
    stack back on a worklist.  `Step` is one round of the loop and `Valid` holds in every reachable state;
    `Allocate` runs a bounded number of rounds and says what holds whenever the worklists run empty. */
module Irc {
  import opened Values
  import opened RTL
  import opened Liveness
  import opened Interference
  import opened Conventions
  import opened Coalescing
  import opened Params
  import opened Coloring
  import opened Rounds
  import P = Progress
  import S = Spilling
  import L = LTL

  datatype AllocationResult = AllocationResult(regToLoc: map<Reg, L.Loc>, spilledRegs: set<Reg>, stackSize: int)

  method RemoveFromWorklist(r: Reg, list: seq<Reg>) returns (rest: seq<Reg>)
    ensures rest == Without(list, {r})
    ensures Elements(list) - {r} <= Elements(rest) <= Elements(list)
  {
    WithoutElements(list, {r});
    for i := 0 to |list|
      invariant r !in list[..i]
    {
      if list[i] == r {
        WithoutSkips(list, r, i);
        WithoutNone(list[i + 1..]);
        assert {r} - {r} == {} && list[i..][1..] == list[i + 1..];
        return list[..i] + list[i + 1..];
      }
    }
    WithoutSkips(list, r, |list|);
    return list;
  }

  /** The first colour from `start` that is not taken, or -1. */
  method FirstFree(taken: set<nat>, start: nat) returns (color: int)
    ensures color == -1 || start <= color < K
    ensures color >= 0 ==> color !in taken && forall c: nat | start <= c < color :: c in taken
    ensures color == -1 ==> forall c: nat | start <= c < K :: c in taken
  {
    var c: nat := start;
    while c < K
      invariant start <= c
      invariant forall b: nat | start <= b < c :: b in taken
    {
      if c !in taken {
        return c;
      }
      c := c + 1;
    }
    return -1;
  }

  /** The colour whose register is `reg`. */
  method FindColor(reg: MReg) returns (color: int)
    requires reg < NUM_ARG_REGS
    ensures color == reg
  {
    for i := 0 to K
      invariant forall j: nat | j < i :: Register(j) != reg
      invariant i <= reg
    {
      RegistersDiffer(i, i);
      if Register(i) == reg {
        RegistersDiffer(i, reg);
        RegistersDiffer(reg, reg);
        return i;
      }
      RegistersDiffer(reg, reg);
    }
    assert false;
  }

  method PrecolorParams(params: seq<Reg>, lac: set<Reg>) returns (pre: map<Reg, L.Loc>)
    ensures pre == Precolored(params, lac)
  {
    pre := map[];
    for i := 0 to |params|
      invariant pre == Precolored(params[..i], lac)
    {
      var p := params[i];
      assert params[..i + 1] == params[..i] + [p];
      OneMorePrecolored(params[..i], lac, p);
      if p !in lac {
        pre := pre[p := ArgLocation(i)];
      }
    }
    assert params[..|params|] == params;
  }

  lemma HighDegreeStep(edges: Adjacency, gone: set<Reg>, rs: set<Reg>, n: Reg)
    requires n !in rs
    ensures |HighDegree(edges, gone, rs + {n})| == |HighDegree(edges, gone, rs)| + if DegreeOf(edges, gone, n) >= K then 1 else 0
  {
    var some := HighDegree(edges, gone, rs);
    assert HighDegree(edges, gone, rs + {n}) == if DegreeOf(edges, gone, n) >= K then some + {n} else some;
  }

  ghost predicate Total(regs: set<Reg>, regToLoc: Places) {
    forall r | r in regs :: r in regToLoc && IsPlace(regToLoc[r])
  }

  /** Interfering registers have different places, those of `exempt` apart. */
  ghost predicate Proper(edges: Adjacency, exempt: set<Reg>, regToLoc: Places) {
    forall a, b | Edge(edges, a, b) && a !in exempt && b !in exempt ::
      a in regToLoc && b in regToLoc && regToLoc[a] != regToLoc[b]
  }

  ghost predicate CallSafe(lac: set<Reg>, regToLoc: Places) {
    forall r | r in lac :: r in regToLoc && SurvivesCall(regToLoc[r])
  }

  ghost predicate ParamsStay(places: Places, regToLoc: Places) {
    forall p | p in places :: p in regToLoc && regToLoc[p] == places[p]
  }

  class Allocator {
    const fn: Function
    const graph: InterferenceGraph
    ghost const info: LivenessInfo
    ghost const nodes0: set<Reg>       // the graph as it was built
    ghost const edges0: Adjacency
    ghost const lac0: set<Reg>
    ghost const read: set<Reg>         // the parameters that are read, and the others
    ghost const unread: set<Reg>
    ghost const apart: bool            // no unread parameter is written
    ghost const places0: Places        // the precoloured parameters and where they arrive
    ghost const keeps: bool            // the parameters keep their places

    var colors: map<Reg, nat>
    var spillSlot: map<Reg, int>
    var simplifyWorklist: seq<Reg>
    var freezeWorklist: seq<Reg>
    var spillWorklist: seq<Reg>
    var coalescedNodes: set<Reg>
    var coloredNodes: set<Reg>
    var spilledNodes: set<Reg>
    var selectStack: seq<Reg>
    var onSelectStack: set<Reg>
    var alias: AliasMap
    var coalescedMoves: MoveList
    var constrainedMoves: MoveList
    var frozenMoves: MoveList
    var worklistMoves: MoveList
    var activeMoves: MoveList
    var nextSpillSlot: int
    var precoloredParams: map<Reg, L.Loc>

    /** NewAllocator. */
    constructor (fn: Function, graph: InterferenceGraph, ghost info: LivenessInfo)
      requires graph.Valid()
      requires BuiltFor(fn, info, graph.nodes, graph.edges, graph.preferences, graph.liveAcrossCalls)
      ensures this.fn == fn && this.graph == graph && this.info == info
      ensures nodes0 == graph.nodes && edges0 == graph.edges && lac0 == graph.liveAcrossCalls
      ensures read == ReadParams(fn) && unread == UnreadParams(fn)
      ensures apart == UnreadNotWritten(fn) && keeps == ParamsKeepPlaces(fn, lac0)
      ensures Fresh()
      ensures precoloredParams == places0 == Precolored(fn.params, lac0)
    {
      var pre := PrecolorParams(fn.params, graph.liveAcrossCalls);
      this.fn, this.graph, this.info := fn, graph, info;
      nodes0, edges0, lac0 := graph.nodes, graph.edges, graph.liveAcrossCalls;
      read, unread := ReadParams(fn), UnreadParams(fn);
      apart, keeps := UnreadNotWritten(fn), ParamsKeepPlaces(fn, graph.liveAcrossCalls);
      colors, spillSlot, alias := map[], map[], map[];
      simplifyWorklist, freezeWorklist, spillWorklist, selectStack := [], [], [], [];
      coalescedNodes, coloredNodes, spilledNodes, onSelectStack := {}, {}, {}, {};
      coalescedMoves, constrainedMoves, frozenMoves, worklistMoves, activeMoves := [], [], [], [], [];
      nextSpillSlot := 0;
      places0, precoloredParams := Precolored(fn.params, graph.liveAcrossCalls), pre;
    }

    ghost predicate Fresh()
      reads this
    {
      && colors == map[] && spillSlot == map[] && alias == map[]
      && simplifyWorklist == [] && freezeWorklist == [] && spillWorklist == [] && selectStack == []
      && coalescedNodes == {} && coloredNodes == {} && spilledNodes == {} && onSelectStack == {}
      && worklistMoves == [] && activeMoves == [] && coalescedMoves == [] && constrainedMoves == [] && frozenMoves == []
      && nextSpillSlot == 0
    }

    /** The registers on some worklist or on the select stack. */
    ghost function Listed(): set<Reg>
      reads this`simplifyWorklist, this`freezeWorklist, this`spillWorklist, this`selectStack
    {
      Elements(simplifyWorklist) + Elements(freezeWorklist) + Elements(spillWorklist) + Elements(selectStack)
    }

    ghost function Merged(): Merge
      reads this`coalescedNodes, this`alias, graph
    {
      Merge(graph.nodes, graph.edges, graph.liveAcrossCalls, coalescedNodes, alias)
    }

    /** The state on values. */
    function Here(): Context
      reads this`coalescedNodes, this`onSelectStack, graph`edges, graph`preferences
    {
      Context(graph.edges, graph.preferences, coalescedNodes, onSelectStack)
    }

    function CurrentLists(): Lists
      reads this`simplifyWorklist, this`freezeWorklist, this`spillWorklist
    {
      Lists(simplifyWorklist, freezeWorklist, spillWorklist)
    }

    function CurrentMoves(): Moves
      reads this`worklistMoves, this`activeMoves, this`coalescedMoves, this`constrainedMoves, this`frozenMoves
    {
      Moves(worklistMoves, activeMoves, coalescedMoves, constrainedMoves, frozenMoves)
    }

    ghost function Now(): Snapshot
      reads this, graph
    {
      Snapshot(Merged(), graph.preferences, selectStack, onSelectStack, CurrentLists(), CurrentMoves())
    }

    /** The graph has only grown, coalescing is sound, and no parameter takes part in it. */
    ghost predicate CoreOk(g: Merge) {
      && g.nodes == nodes0
      && (forall a, b | Edge(edges0, a, b) :: Edge(g.edges, a, b))
      && lac0 <= g.lac
      && Sound(g)
      && (apart ==> ParamsApart(read, unread, lac0, g))
      && (keeps ==> apart && |read + unread| < K && read !! unread)
    }

    ghost function Coloring(): (Places, Colors)
      reads this`precoloredParams, this`colors, this`coloredNodes, this`spilledNodes, this`spillSlot, this`nextSpillSlot
    {
      (precoloredParams, Colors(colors, coloredNodes, spillSlot, spilledNodes, nextSpillSlot))
    }

    /** Nothing but the parameters is coloured before the worklists are empty. */
    ghost predicate StartColors(c: (Places, Colors)) {
      && c.0 == Precolored(fn.params, lac0)
      && c.1.color == InitialColors(c.0) && c.1.colored == c.1.color.Keys
      && c.1.spilled == {} && c.1.slot == map[] && c.1.next == 0
    }

    /** The ends of a candidate move: never a parameter that is not read. */
    ghost predicate EndOk(r: Reg) {
      r in nodes0 && (apart ==> r !in unread)
    }

    ghost predicate MovesOk(moves: MoveList) {
      forall m | m in moves :: EndOk(m.0) && EndOk(m.1)
    }

    /** The worklists hold registers of the function only, and never an unread parameter. */
    ghost predicate NoneQuiet(listed: set<Reg>) {
      listed <= nodes0 && (keeps ==> listed !! unread)
    }

    /** Totality: a register that is neither merged nor precoloured is on a worklist or on the stack. */
    ghost predicate Covers(listed: set<Reg>, coalesced: set<Reg>) {
      nodes0 <= coalesced + places0.Keys + listed
    }

    ghost predicate ListsOk(listed: set<Reg>, coalesced: set<Reg>) {
      NoneQuiet(listed) && Covers(listed, coalesced)
    }

    /** What holds in every reachable state of the main loop, which never touches the colours. */
    ghost predicate Valid()
      reads this, graph
    {
      && graph.Valid() && CoreOk(Merged()) && MovesOk(worklistMoves) && MovesOk(activeMoves)
      && ListsOk(Listed(), coalescedNodes)
    }

    /** The number of neighbours that are neither merged nor on the select stack. */
    method Degree(r: Reg) returns (deg: nat)
      ensures deg == DegreeOf(graph.edges, coalescedNodes + onSelectStack, r)
    {
      deg := 0;
      var todo := Adj(graph.edges, r);
      ghost var counted: set<Reg> := {};
      while todo != {}
        invariant todo <= Adj(graph.edges, r)
        invariant counted == Adj(graph.edges, r) - todo - (coalescedNodes + onSelectStack)
        invariant deg == |counted|
        decreases todo
      {
        var n :| n in todo;
        todo := todo - {n};
        if n !in coalescedNodes && n !in onSelectStack {
          deg := deg + 1;
          counted := counted + {n};
        }
      }
      assert counted == Adj(graph.edges, r) - (coalescedNodes + onSelectStack);
    }

    method GetAlias(r: Reg) returns (q: Reg)
      requires Descends(coalescedNodes, alias)
      ensures q == Rep(coalescedNodes, alias, r)
      decreases r
    {
      if r in coalescedNodes {
        q := GetAlias(alias[r]);
      } else {
        q := r;
      }
    }

    /** The worklists may have gained the registers of `extra` and lost none. */
    twostate predicate ListsGrow(extra: set<Reg>)
      reads this
    {
      old(Listed()) <= Listed() <= old(Listed()) + extra
    }

    method DecrementDegree(r: Reg)
      modifies this`simplifyWorklist, this`freezeWorklist, this`spillWorklist
      ensures ListsGrow(if r !in coalescedNodes && DegreeOf(graph.edges, coalescedNodes + onSelectStack, r) == K - 1
                        then {r} else {})
      ensures CurrentLists() == Decremented(Here(), r, old(CurrentLists()))
    {
      DecrementedGrows(Here(), r, CurrentLists());
      if r in coalescedNodes {
        return;
      }
      var deg := Degree(r);
      if deg == K - 1 {
        spillWorklist := RemoveFromWorklist(r, spillWorklist);
        if graph.MoveRelated(r) {
          freezeWorklist := freezeWorklist + [r];
        } else {
          simplifyWorklist := simplifyWorklist + [r];
        }
      }
    }

    method AddToWorklist(r: Reg)
      modifies this`simplifyWorklist, this`freezeWorklist
      ensures ListsGrow({r} - coalescedNodes)
      ensures CurrentLists() == Enlisted(Here(), r, old(CurrentLists()))
    {
      EnlistedGrows(Here(), r, CurrentLists());
      if r in coalescedNodes {
        return;
      }
      var deg := Degree(r);
      if deg < K && !graph.MoveRelated(r) {
        freezeWorklist := RemoveFromWorklist(r, freezeWorklist);
        simplifyWorklist := simplifyWorklist + [r];
      }
    }

    /** Give every parameter that arrives in a register the colour of that register. */
    method ColorParams()
      requires colors == map[] && coloredNodes == {}
      requires forall p | p in precoloredParams && precoloredParams[p].R? :: precoloredParams[p].reg < NUM_ARG_REGS
      modifies this`colors, this`coloredNodes
      ensures colors == InitialColors(precoloredParams) && coloredNodes == colors.Keys
    {
      var pre := precoloredParams;
      var todo := pre.Keys;
      while todo != {}
        invariant todo <= pre.Keys
        invariant forall p :: p in colors <==> p in pre && p !in todo && pre[p].R?
        invariant forall p | p in colors :: colors[p] == pre[p].reg
        invariant coloredNodes == colors.Keys
        decreases todo
      {
        var p :| p in todo;
        todo := todo - {p};
        if pre[p].R? {
          var i := FindColor(pre[p].reg);
          colors := colors[p := i];
          coloredNodes := coloredNodes + {p};
        }
      }
    }

    method FillWorklists() returns (ghost order: seq<Reg>)
      requires CurrentLists() == Lists([], [], [])
      modifies this`simplifyWorklist, this`freezeWorklist, this`spillWorklist
      ensures Enumerates(order, graph.nodes - precoloredParams.Keys)
      ensures CurrentLists() == AllEntered(Here(), order)
    {
      var todo := graph.nodes;
      order := [];
      while todo != {}
        invariant Once(order) && forall r :: r in order <==> r in graph.nodes && r !in todo && r !in precoloredParams
        invariant CurrentLists() == AllEntered(Here(), order)
        decreases todo
      {
        var r :| r in todo;
        todo := todo - {r};
        if r !in precoloredParams {
          Enlist(r);
          OneMoreEntered(Here(), order, r);
          order := order + [r];
        }
      }
    }

    /** Puts r on the worklist its degree and its moves call for. */
    method Enlist(r: Reg)
      modifies this`simplifyWorklist, this`freezeWorklist, this`spillWorklist
      ensures CurrentLists() == Entered(Here(), r, old(CurrentLists()))
    {
      var deg := Degree(r);
      if deg >= K {
        spillWorklist := spillWorklist + [r];
      } else if graph.MoveRelated(r) {
        freezeWorklist := freezeWorklist + [r];
      } else {
        simplifyWorklist := simplifyWorklist + [r];
      }
    }

    ghost predicate PreferencesOk(prefs: Adjacency) {
      forall a, b | Edge(prefs, a, b) :: EndOk(a) && EndOk(b)
    }

    method FillMoves()
      requires worklistMoves == [] && PreferencesOk(graph.preferences)
      modifies this`worklistMoves
      ensures MovesOk(worklistMoves)
      ensures Enumerates(worklistMoves, MovePairs(graph.preferences))
    {
      var todo := graph.preferences.Keys;
      ghost var filed: set<(Reg, Reg)> := {};
      while todo != {}
        invariant todo <= graph.preferences.Keys
        invariant filed == set m | m in MovePairs(graph.preferences) && m.0 !in todo
        invariant MovesOk(worklistMoves) && Enumerates(worklistMoves, filed)
        decreases todo
      {
        var r :| r in todo;
        todo := todo - {r};
        filed := FileMovesOf(r, filed);
      }
      assert filed == MovePairs(graph.preferences);
    }

    /** Files the moves between r and registers above it. */
    method FileMovesOf(r: Reg, ghost before: set<(Reg, Reg)>) returns (ghost filed: set<(Reg, Reg)>)
      requires r in graph.preferences && PreferencesOk(graph.preferences)
      requires MovesOk(worklistMoves) && Enumerates(worklistMoves, before)
      requires forall m | m in before :: m.0 != r
      modifies this`worklistMoves
      ensures MovesOk(worklistMoves) && Enumerates(worklistMoves, filed)
      ensures forall m :: m in filed <==> m in before || (m.0 == r && m in MovePairs(graph.preferences))
    {
      filed := before;
      var todo := graph.preferences[r];
      while todo != {}
        invariant todo <= graph.preferences[r]
        invariant MovesOk(worklistMoves) && Enumerates(worklistMoves, filed)
        invariant forall m :: m in filed <==> m in before || (m.0 == r && m.1 !in todo && m in MovePairs(graph.preferences))
        decreases todo
      {
        var p :| p in todo;
        todo := todo - {p};
        if r < p {
          assert Edge(graph.preferences, r, p);
          worklistMoves := worklistMoves + [(r, p)];
          filed := filed + {(r, p)};
        }
      }
    }

    ghost predicate JustBuilt()
      reads this, graph
    {
      && graph.Valid() && Fresh() && precoloredParams == places0 == Precolored(fn.params, lac0)
      && read == ReadParams(fn) && unread == UnreadParams(fn)
      && apart == UnreadNotWritten(fn) && keeps == ParamsKeepPlaces(fn, lac0)
      && nodes0 == graph.nodes && edges0 == graph.edges && lac0 == graph.liveAcrossCalls
      && BuiltFor(fn, info, graph.nodes, graph.edges, graph.preferences, graph.liveAcrossCalls)
    }

    method BuildWorklists()
      requires JustBuilt()
      modifies this
      ensures Valid() && StartColors(Coloring())
      ensures IsStart(Merge(nodes0, edges0, lac0, {}, map[]), graph.preferences, places0.Keys, Now())
    {
      InitialCore();
      InitialLists();
      BuildFrom(Now());
    }

    method BuildFrom(ghost s: Snapshot)
      requires graph.Valid() && Fresh() && precoloredParams == places0 == Precolored(fn.params, lac0)
      requires CoreOk(Merged()) && PreferencesOk(graph.preferences) && NoneQuiet(nodes0 - places0.Keys)
      requires s == Now()
      modifies this`colors, this`coloredNodes
      modifies this`simplifyWorklist, this`freezeWorklist, this`spillWorklist, this`worklistMoves
      ensures Valid() && StartColors(Coloring())
      ensures IsStart(s.g, s.prefs, places0.Keys, Now())
    {
      ghost var order := StartAll();
      ghost var t := Now();
      assert t.g == s.g && t.prefs == s.prefs && t.Now() == Here();
      StartIs(t, places0.Keys, order);
    }

    method StartAll() returns (ghost order: seq<Reg>)
      requires graph.Valid() && Fresh() && precoloredParams == places0 == Precolored(fn.params, lac0)
      requires CoreOk(Merged()) && PreferencesOk(graph.preferences) && NoneQuiet(nodes0 - places0.Keys)
      modifies this`colors, this`coloredNodes
      modifies this`simplifyWorklist, this`freezeWorklist, this`spillWorklist, this`worklistMoves
      ensures Valid() && StartColors(Coloring())
      ensures Enumerates(order, graph.nodes - places0.Keys) && CurrentLists() == AllEntered(Here(), order)
      ensures Enumerates(worklistMoves, MovePairs(graph.preferences))
    {
      StartColoring();
      ghost var c := Coloring();
      order := FillAll();
      assert Coloring() == c;
    }

    method StartColoring()
      requires Fresh() && precoloredParams == Precolored(fn.params, lac0)
      modifies this`colors, this`coloredNodes
      ensures StartColors(Coloring())
    {
      ColorParams();
    }

    method FillAll() returns (ghost order: seq<Reg>)
      requires graph.Valid() && CoreOk(Merged()) && PreferencesOk(graph.preferences)
      requires NoneQuiet(nodes0 - places0.Keys) && precoloredParams == places0
      requires CurrentLists() == Lists([], [], []) && selectStack == [] && worklistMoves == [] && activeMoves == []
      modifies this`simplifyWorklist, this`freezeWorklist, this`spillWorklist, this`worklistMoves
      ensures Valid()
      ensures Enumerates(order, graph.nodes - places0.Keys) && CurrentLists() == AllEntered(Here(), order)
      ensures Enumerates(worklistMoves, MovePairs(graph.preferences))
    {
      order := FillWorklists();
      AllEnteredListing(Here(), order);
      FillMoves();
    }

    lemma InitialCore()
      requires JustBuilt()
      ensures CoreOk(Merged())
    {
      UnmergedIsSound(nodes0, edges0, lac0);
      InitialParams();
      assert Merged() == Merge(nodes0, edges0, lac0, {}, map[]);
    }

    lemma InitialParams()
      requires JustBuilt()
      ensures apart ==> ParamsApart(read, unread, lac0, Merge(nodes0, edges0, lac0, {}, map[]))
      ensures keeps ==> apart && |read + unread| < K && read !! unread
    {
      if apart {
        InitiallyApart(fn, info, nodes0, edges0, graph.preferences, lac0);
      }
      FewParams(fn);
    }

    lemma InitialLists()
      requires JustBuilt()
      ensures PreferencesOk(graph.preferences)
      ensures NoneQuiet(nodes0 - places0.Keys)
    {
      CrossingIsRead(fn, info);
      if apart {
        InitiallyApart(fn, info, nodes0, edges0, graph.preferences, lac0);
      }
      forall a, b | Edge(graph.preferences, a, b)
        ensures EndOk(a) && EndOk(b)
      {
        assert Edge(graph.preferences, b, a);
      }
    }

    /** Moves the last register of the simplify worklist to the select stack. */
    method PushLastSimplified() returns (r: Reg)
      requires simplifyWorklist != []
      modifies this`simplifyWorklist, this`selectStack, this`onSelectStack
      ensures selectStack == old(selectStack) + [r] && onSelectStack == old(onSelectStack) + {r}
      ensures r == Last(old(simplifyWorklist)) && simplifyWorklist == Front(old(simplifyWorklist))
      ensures Listed() == old(Listed()) && r in Listed()
    {
      var n := |simplifyWorklist| - 1;
      r := simplifyWorklist[n];
      assert simplifyWorklist == simplifyWorklist[..n] + [r];
      ElementsAppend(simplifyWorklist[..n], [r]);
      ElementsAppend(selectStack, [r]);
      simplifyWorklist := simplifyWorklist[..n];
      selectStack := selectStack + [r];
      onSelectStack := onSelectStack + {r};
    }

    /** Pushes a low-degree register and decrements its neighbours' degrees. */
    method Simplify()
      requires Valid() && simplifyWorklist != []
      modifies this`simplifyWorklist, this`freezeWorklist, this`spillWorklist, this`selectStack, this`onSelectStack
      ensures Valid() && IsSimplify(old(Now()), Now())
    {
      ghost var s := Now();
      ghost var order := PushAndDecrement();
      SimplifyRound(s, Now(), order);
    }

    method PushAndDecrement() returns (ghost order: seq<Reg>)
      requires Valid() && simplifyWorklist != []
      modifies this`simplifyWorklist, this`freezeWorklist, this`spillWorklist, this`selectStack, this`onSelectStack
      ensures Valid() && Enumerates(order, Adj(graph.edges, Last(old(simplifyWorklist))))
      ensures selectStack == old(selectStack) + [Last(old(simplifyWorklist))]
      ensures onSelectStack == old(onSelectStack) + {Last(old(simplifyWorklist))}
      ensures CurrentLists() == DecrementedAll(Here(), order, old(CurrentLists()).(simplify := Front(old(simplifyWorklist))))
    {
      var r := PushSimplified();
      order := DecrementNeighbours(r);
    }

    method PushSimplified() returns (r: Reg)
      requires Valid() && simplifyWorklist != []
      modifies this`simplifyWorklist, this`selectStack, this`onSelectStack
      ensures Valid() && r == Last(old(simplifyWorklist)) && simplifyWorklist == Front(old(simplifyWorklist))
      ensures selectStack == old(selectStack) + [r] && onSelectStack == old(onSelectStack) + {r}
    {
      r := PushLastSimplified();
      assert Merged() == old(Merged());
    }

    method DecrementNeighbours(r: Reg) returns (ghost order: seq<Reg>)
      requires Valid()
      modifies this`simplifyWorklist, this`freezeWorklist, this`spillWorklist
      ensures Valid() && Enumerates(order, Adj(graph.edges, r))
      ensures CurrentLists() == DecrementedAll(Here(), order, old(CurrentLists()))
    {
      AdjInNodes(Merged(), r);
      order := DecrementAll(Adj(graph.edges, r));
    }

    /** The loop over the neighbours of a pushed register. */
    method DecrementAll(neighbours: set<Reg>) returns (ghost order: seq<Reg>)
      requires CoreOk(Merged()) && ListsOk(Listed(), coalescedNodes) && neighbours <= nodes0
      modifies this`simplifyWorklist, this`freezeWorklist, this`spillWorklist
      ensures ListsOk(Listed(), coalescedNodes)
      ensures Enumerates(order, neighbours) && CurrentLists() == DecrementedAll(Here(), order, old(CurrentLists()))
    {
      var todo := neighbours;
      ghost var did: set<Reg> := {};
      order := [];
      while todo != {}
        invariant ListsOk(Listed(), coalescedNodes) && todo !! did && todo + did == neighbours && Enumerates(order, did)
        invariant CurrentLists() == DecrementedAll(Here(), order, old(CurrentLists()))
        decreases todo
      {
        var n :| n in todo;
        todo := todo - {n};
        DecrementQuietly(n);
        OneMoreEnumerated(order, did, n);
        assert Front(order + [n]) == order;
        order, did := order + [n], did + {n};
      }
      assert did == neighbours;
    }

    /** Decrementing never puts an unread parameter on a worklist. */
    method DecrementQuietly(n: Reg)
      requires CoreOk(Merged()) && ListsOk(Listed(), coalescedNodes) && n in nodes0
      modifies this`simplifyWorklist, this`freezeWorklist, this`spillWorklist
      ensures ListsOk(Listed(), coalescedNodes)
      ensures CurrentLists() == Decremented(Here(), n, old(CurrentLists()))
    {
      if keeps && n in unread {
        UnreadDegree(read, unread, lac0, Merged(), coalescedNodes + onSelectStack, n);
      }
      DecrementDegree(n);
    }

    lemma RepEndOk(r: Reg)
      requires CoreOk(Merged()) && EndOk(r)
      ensures EndOk(Rep(coalescedNodes, alias, r))
    {
      RepInNodes(Merged(), r);
      if apart && r in coalescedNodes {
        RepIsNoParam(read, unread, lac0, Merged(), r);
      }
    }

    method AddEndToWorklist(r: Reg)
      requires ListsOk(Listed(), coalescedNodes) && EndOk(r) && (keeps ==> apart)
      modifies this`simplifyWorklist, this`freezeWorklist
      ensures ListsOk(Listed(), coalescedNodes)
      ensures CurrentLists() == Enlisted(Here(), r, old(CurrentLists()))
    {
      AddToWorklist(r);
    }

    method ConservativeCoalesce(u: Reg, v: Reg) returns (safe: bool)
      ensures safe <==> IsSafeMerge(Here(), u, v)
    {
      var neighbours := (Adj(graph.edges, u) + Adj(graph.edges, v)) - coalescedNodes;
      var high := 0;
      ghost var edges, gone := graph.edges, coalescedNodes + onSelectStack;
      var todo := neighbours;
      while todo != {}
        invariant todo <= neighbours && high == |HighDegree(edges, gone, neighbours - todo)|
        decreases todo
      {
        var n :| n in todo;
        var deg := Degree(n);
        HighDegreeStep(edges, gone, neighbours - todo, n);
        assert neighbours - (todo - {n}) == (neighbours - todo) + {n};
        todo := todo - {n};
        if deg >= K {
          high := high + 1;
        }
      }
      assert neighbours - todo == neighbours;
      return high < K;
    }

    /** Takes v, which is about to be merged, off the worklists it may be on. */
    method Unlist(v: Reg)
      modifies this`freezeWorklist, this`spillWorklist
      ensures old(Listed()) - {v} <= Listed() <= old(Listed())
      ensures freezeWorklist == Without(old(freezeWorklist), {v}) && spillWorklist == Without(old(spillWorklist), {v})
    {
      freezeWorklist := RemoveFromWorklist(v, freezeWorklist);
      spillWorklist := RemoveFromWorklist(v, spillWorklist);
    }

    lemma NeighboursNotQuiet(g: Merge, v: Reg)
      requires CoreOk(g) && (keeps ==> v !in read + unread)
      ensures NoneQuiet(Adj(g.edges, v))
    {
      AdjInNodes(g, v);
      forall n | n in Adj(g.edges, v) && keeps
        ensures n !in unread
      {
        assert Edge(g.edges, v, n) && Edge(g.edges, n, v);
      }
    }

    /** Gives u the interference with n that v had. */
    method MergeEdge(u: Reg, n: Reg)
      requires graph.Valid() && u in graph.nodes && n in graph.nodes && u != n
      requires NoneQuiet({n}) && ListsOk(Listed(), coalescedNodes)
      modifies this`simplifyWorklist, this`freezeWorklist, this`spillWorklist
      modifies graph`nodes, graph`edges, graph`preferences
      ensures graph.Valid() && graph.nodes == old(graph.nodes) && graph.preferences == old(graph.preferences)
      ensures Extends(old(graph.edges), graph.edges, u, {n})
      ensures ListsOk(Listed(), coalescedNodes)
      ensures CurrentLists() == Decremented(Here(), n, old(CurrentLists()))
    {
      graph.AddEdge(u, n);
      DecrementDegree(n);
    }

    /** Gives u the interferences of v. */
    method MergeEdges(u: Reg, v: Reg, ghost g: Merge) returns (ghost order: seq<Reg>)
      requires graph.Valid() && u in graph.nodes && graph.edges == g.edges
      requires u !in g.coalesced && coalescedNodes == g.coalesced + {v}
      requires NoneQuiet(Adj(g.edges, v)) && Adj(g.edges, v) <= graph.nodes
      requires ListsOk(Listed(), coalescedNodes)
      modifies this`simplifyWorklist, this`freezeWorklist, this`spillWorklist
      modifies graph`nodes, graph`edges, graph`preferences
      ensures graph.Valid() && graph.nodes == old(graph.nodes) && graph.preferences == old(graph.preferences)
      ensures Extends(g.edges, graph.edges, u, Movable(g, u, v))
      ensures ListsOk(Listed(), coalescedNodes)
      ensures Enumerates(order, Movable(g, u, v)) && CurrentLists() == DecrementedAll(Here(), order, old(CurrentLists()))
    {
      var todo := Adj(graph.edges, v);
      ghost var moved: set<Reg> := {};
      order := [];
      while todo != {}
        invariant todo <= Adj(g.edges, v)
        invariant graph.Valid() && graph.nodes == old(graph.nodes) && graph.preferences == old(graph.preferences)
        invariant Enumerates(order, moved) && forall n :: n in moved <==> n in Movable(g, u, v) && n !in todo
        invariant Extends(g.edges, graph.edges, u, moved)
        invariant ListsOk(Listed(), coalescedNodes)
        invariant CurrentLists() == DecrementedAll(Here(), order, old(CurrentLists()))
        decreases todo
      {
        var n :| n in todo;
        todo := todo - {n};
        if n !in coalescedNodes && n != u {
          ghost var here := Here();
          MergeEdge(u, n);
          ExtendsTwice(g.edges, here.edges, graph.edges, u, moved, n);
          OneMoreMerged(here, Here(), u, n, order, moved, old(CurrentLists()));
          order, moved := order + [n], moved + {n};
        }
      }
      assert moved == Movable(g, u, v);
    }

    method MergePreferences(u: Reg, v: Reg)
      requires graph.Valid() && u in graph.nodes
      modifies graph`nodes, graph`edges, graph`preferences
      ensures graph.Valid() && graph.nodes == old(graph.nodes) && graph.edges == old(graph.edges)
      ensures PrefsMerged(old(graph.preferences), graph.preferences, u, v)
    {
      var prefs := Adj(graph.preferences, v);
      assert forall n | n in prefs :: Edge(graph.preferences, v, n);
      var todo := prefs;
      while todo != {}
        invariant todo <= prefs <= graph.nodes
        invariant graph.Valid() && graph.nodes == old(graph.nodes) && graph.edges == old(graph.edges)
        invariant Extends(old(graph.preferences), graph.preferences, u, prefs - todo - {u})
        decreases todo
      {
        var n :| n in todo;
        ghost var before := graph.preferences;
        if n != u {
          graph.AddPreference(u, n);
          ExtendsTwice(old(graph.preferences), before, graph.preferences, u, prefs - todo - {u}, n);
          assert prefs - (todo - {n}) - {u} == (prefs - todo - {u}) + {n};
        } else {
          assert prefs - (todo - {n}) - {u} == prefs - todo - {u};
        }
        todo := todo - {n};
      }
      assert prefs - todo - {u} == prefs - {u};
    }

    /** A merged register of high degree goes to the spill worklist. */
    method Relist(u: Reg)
      modifies this`freezeWorklist, this`spillWorklist
      ensures ListsGrow({u})
      ensures CurrentLists() == Heavier(Here(), u, old(CurrentLists()))
    {
      HeavierGrows(Here(), u, CurrentLists());
      var deg := Degree(u);
      if deg >= K {
        freezeWorklist := RemoveFromWorklist(u, freezeWorklist);
        spillWorklist := spillWorklist + [u];
      }
    }

    /** Marks v as merged into u. */
    method MarkCoalesced(u: Reg, v: Reg)
      modifies this`coalescedNodes, this`alias, graph`liveAcrossCalls
      ensures coalescedNodes == old(coalescedNodes) + {v} && alias == old(alias)[v := u]
      ensures graph.liveAcrossCalls ==
        if v in old(graph.liveAcrossCalls) then old(graph.liveAcrossCalls) + {u} else old(graph.liveAcrossCalls)
    {
      coalescedNodes := coalescedNodes + {v};
      alias := alias[v := u];
      if v in graph.liveAcrossCalls {
        graph.liveAcrossCalls := graph.liveAcrossCalls + {u};
      }
    }

    lemma CoreAfterCombine(g: Merge, h: Merge, u: Reg, v: Reg)
      requires CoreOk(g) && CanCombine(g, u, v) && Combined(g, h, u, v) && EndOk(u) && EndOk(v)
      ensures CoreOk(h)
    {
      CombineKeepsSound(g, h, u, v);
      if apart {
        CombineKeepsParams(read, unread, lac0, g, h, u, v);
      }
      forall a, b | Edge(edges0, a, b)
        ensures Edge(h.edges, a, b)
      {
        assert Edge(g.edges, a, b);
      }
    }

    lemma EndsAreNoParams(g: Merge, u: Reg, v: Reg)
      requires CoreOk(g) && CanCombine(g, u, v) && EndOk(u) && EndOk(v) && apart
      ensures v !in read + unread
    {
      assert v in read ==> Edge(g.edges, v, u);
      assert Edge(g.edges, v, u) ==> Edge(g.edges, u, v);
    }

    /** The body of combine, on the graph and the worklists. */
    method CombineGraph(u: Reg, v: Reg) returns (ghost order: seq<Reg>)
      requires graph.Valid() && graph.nodes == nodes0 && u in nodes0 && u !in coalescedNodes
      requires NoneQuiet(Adj(graph.edges, v)) && NoneQuiet({u}) && ListsOk(Listed(), coalescedNodes)
      modifies this`simplifyWorklist, this`freezeWorklist, this`spillWorklist, this`coalescedNodes, this`alias, graph
      ensures graph.Valid() && ListsOk(Listed(), coalescedNodes)
      ensures Combined(old(Merged()), Merged(), u, v) && Enumerates(order, Movable(old(Merged()), u, v))
      ensures PrefsMerged(old(graph.preferences), graph.preferences, u, v)
      ensures CurrentLists() == MergedLists(Here(), old(graph.preferences), old(CurrentLists()), u, v, order)
    {
      ghost var g := Merged();
      Unlist(v);
      MarkCoalesced(u, v);
      order := MergeNeighbours(u, v, g);
      ghost var mid := CurrentLists();
      Relist(u);
      assert CurrentLists() == Heavier(Here(), u, mid);
    }

    method MergeNeighbours(u: Reg, v: Reg, ghost g: Merge) returns (ghost order: seq<Reg>)
      requires graph.Valid() && u in graph.nodes && graph.edges == g.edges
      requires u !in g.coalesced && coalescedNodes == g.coalesced + {v}
      requires NoneQuiet(Adj(g.edges, v)) && Adj(g.edges, v) <= graph.nodes
      requires ListsOk(Listed(), coalescedNodes)
      modifies this`simplifyWorklist, this`freezeWorklist, this`spillWorklist
      modifies graph`nodes, graph`edges, graph`preferences
      ensures graph.Valid() && graph.nodes == old(graph.nodes) && graph.liveAcrossCalls == old(graph.liveAcrossCalls)
      ensures Extends(g.edges, graph.edges, u, Movable(g, u, v))
      ensures PrefsMerged(old(graph.preferences), graph.preferences, u, v)
      ensures ListsOk(Listed(), coalescedNodes)
      ensures Enumerates(order, Movable(g, u, v))
      ensures CurrentLists() == DecrementedAll(Here().(prefs := old(graph.preferences)), order, old(CurrentLists()))
    {
      order := MergeEdges(u, v, g);
      ghost var here := Here();
      MergePreferences(u, v);
      assert Here().(prefs := here.prefs) == here;
    }

    /** Merges v into u. */
    method Combine(u: Reg, v: Reg) returns (ghost order: seq<Reg>)
      requires graph.Valid() && CoreOk(Merged()) && ListsOk(Listed(), coalescedNodes)
      requires CanCombine(Merged(), u, v) && EndOk(u) && EndOk(v)
      modifies this`simplifyWorklist, this`freezeWorklist, this`spillWorklist, this`coalescedNodes, this`alias, graph
      ensures graph.Valid() && CoreOk(Merged()) && ListsOk(Listed(), coalescedNodes)
      ensures Combined(old(Merged()), Merged(), u, v) && Enumerates(order, Movable(old(Merged()), u, v))
      ensures PrefsMerged(old(graph.preferences), graph.preferences, u, v)
      ensures CurrentLists() == MergedLists(Here(), old(graph.preferences), old(CurrentLists()), u, v, order)
    {
      ghost var g := Merged();
      NeighboursMayBeListed(g, u, v);
      order := CombineGraph(u, v);
      CoreAfterCombine(g, Merged(), u, v);
    }

    lemma NeighboursMayBeListed(g: Merge, u: Reg, v: Reg)
      requires CoreOk(g) && CanCombine(g, u, v) && EndOk(u) && EndOk(v)
      ensures NoneQuiet(Adj(g.edges, v)) && NoneQuiet({u})
    {
      if keeps {
        EndsAreNoParams(g, u, v);
      }
      NeighboursNotQuiet(g, v);
    }

    /** Takes the last candidate move and the representatives of its ends, smaller one first. */
    method PopMove() returns (m: (Reg, Reg), u: Reg, v: Reg)
      requires CoreOk(Merged()) && MovesOk(worklistMoves) && worklistMoves != []
      modifies this`worklistMoves
      ensures MovesOk(worklistMoves) && EndOk(m.0) && EndOk(m.1) && EndOk(u) && EndOk(v)
      ensures u <= v && u !in coalescedNodes && v !in coalescedNodes
      ensures m == Last(old(worklistMoves)) && worklistMoves == Front(old(worklistMoves))
      ensures var x, y := Rep(coalescedNodes, alias, m.0), Rep(coalescedNodes, alias, m.1);
        u == (if x < y then x else y) && v == (if x < y then y else x)
    {
      var n := |worklistMoves| - 1;
      m := worklistMoves[n];
      assert worklistMoves == worklistMoves[..n] + [m];
      assert EndOk(m.0) && EndOk(m.1);
      worklistMoves := worklistMoves[..n];
      var x := GetAlias(m.0);
      var y := GetAlias(m.1);
      RepEndOk(m.0);
      RepEndOk(m.1);
      u, v := if x < y then x else y, if x < y then y else x;
    }

    /** Merges v into u and puts u on the right worklist. */
    method CombineAndList(u: Reg, v: Reg)
      requires graph.Valid() && CoreOk(Merged()) && ListsOk(Listed(), coalescedNodes)
      requires CanCombine(Merged(), u, v) && EndOk(u) && EndOk(v)
      modifies this`simplifyWorklist, this`freezeWorklist, this`spillWorklist, this`coalescedNodes, this`alias, graph
      ensures graph.Valid() && CoreOk(Merged()) && ListsOk(Listed(), coalescedNodes)
      ensures IsCombine(old(Now()), Now(), u, v)
    {
      ghost var s := Now();
      ghost var order := CombineAndEnlist(u, v);
      assert Now().Now() == Here();
      CombineRound(s, Now(), u, v, order);
    }

    method CombineAndEnlist(u: Reg, v: Reg) returns (ghost order: seq<Reg>)
      requires graph.Valid() && CoreOk(Merged()) && ListsOk(Listed(), coalescedNodes)
      requires CanCombine(Merged(), u, v) && EndOk(u) && EndOk(v)
      modifies this`simplifyWorklist, this`freezeWorklist, this`spillWorklist, this`coalescedNodes, this`alias, graph
      ensures graph.Valid() && CoreOk(Merged()) && ListsOk(Listed(), coalescedNodes)
      ensures Combined(old(Merged()), Merged(), u, v) && Enumerates(order, Movable(old(Merged()), u, v))
      ensures PrefsMerged(old(graph.preferences), graph.preferences, u, v)
      ensures CurrentLists() == Enlisted(Here(), u, MergedLists(Here(), old(graph.preferences), old(CurrentLists()), u, v, order))
    {
      order := Combine(u, v);
      ghost var g, l := Merged(), CurrentLists();
      EnlistMerged(u);
      assert Merged() == g && CurrentLists() == Enlisted(Here(), u, l);
    }

    method EnlistMerged(u: Reg)
      requires graph.Valid() && CoreOk(Merged()) && ListsOk(Listed(), coalescedNodes) && EndOk(u)
      modifies this`simplifyWorklist, this`freezeWorklist
      ensures graph.Valid() && CoreOk(Merged()) && ListsOk(Listed(), coalescedNodes)
      ensures CurrentLists() == Enlisted(Here(), u, old(CurrentLists())) && Merged() == old(Merged())
    {
      AddEndToWorklist(u);
      assert Merged() == old(Merged());
    }

    /** Merges v into u if that is safe. */
    method CombineIfSafe(u: Reg, v: Reg) returns (safe: bool)
      requires graph.Valid() && CoreOk(Merged()) && ListsOk(Listed(), coalescedNodes)
      requires CanCombine(Merged(), u, v) && EndOk(u) && EndOk(v)
      modifies this`simplifyWorklist, this`freezeWorklist, this`spillWorklist, this`coalescedNodes, this`alias, graph
      ensures graph.Valid() && CoreOk(Merged()) && ListsOk(Listed(), coalescedNodes)
      ensures safe <==> IsSafeMerge(old(Here()), u, v)
      ensures if safe then IsCombine(old(Now()), Now(), u, v) else Now() == old(Now())
    {
      safe := ConservativeCoalesce(u, v);
      if safe {
        CombineAndList(u, v);
      }
    }

    /** What coalesce does to the registers of one move: already merged, constrained, merged now, or not yet. */
    method TryMove(u: Reg, v: Reg) returns (outcome: MoveOutcome)
      requires graph.Valid() && CoreOk(Merged()) && ListsOk(Listed(), coalescedNodes)
      requires EndOk(u) && EndOk(v) && u <= v && u !in coalescedNodes && v !in coalescedNodes
      modifies this`simplifyWorklist, this`freezeWorklist, this`spillWorklist, this`coalescedNodes, this`alias, graph
      ensures graph.Valid() && CoreOk(Merged()) && ListsOk(Listed(), coalescedNodes)
      ensures worklistMoves == old(worklistMoves) && activeMoves == old(activeMoves)
      ensures IsTry(old(Now()), Now(), u, v, outcome)
    {
      if u == v {
        ListEnds(u, v);
        return MoveCoalesced;
      } else if graph.HasEdge(u, v) {
        ListEnds(u, v);
        return MoveConstrained;
      }
      var safe := CombineIfSafe(u, v);
      return if safe then MoveCoalesced else MoveActive;
    }

    method ListEnds(u: Reg, v: Reg)
      requires graph.Valid() && CoreOk(Merged()) && ListsOk(Listed(), coalescedNodes) && EndOk(u) && EndOk(v)
      modifies this`simplifyWorklist, this`freezeWorklist
      ensures CoreOk(Merged()) && ListsOk(Listed(), coalescedNodes)
      ensures var l := Enlisted(Here(), u, old(CurrentLists())); CurrentLists() == if u == v then l else Enlisted(Here(), v, l)
    {
      EnlistMerged(u);
      if u != v {
        EnlistMerged(v);
      }
    }

    method FileMove(m: (Reg, Reg), outcome: MoveOutcome)
      requires MovesOk(activeMoves) && EndOk(m.0) && EndOk(m.1)
      modifies this`coalescedMoves, this`constrainedMoves, this`activeMoves
      ensures MovesOk(activeMoves) && CurrentMoves() == Filed(old(CurrentMoves()), m, outcome)
    {
      match outcome
      case MoveCoalesced => coalescedMoves := coalescedMoves + [m];
      case MoveConstrained => constrainedMoves := constrainedMoves + [m];
      case MoveActive => activeMoves := activeMoves + [m];
    }

    /** Tries one candidate move. */
    method Coalesce()
      requires Valid() && worklistMoves != []
      modifies this`simplifyWorklist, this`freezeWorklist, this`spillWorklist, this`coalescedNodes, this`alias, graph
      modifies this`coalescedMoves, this`constrainedMoves, this`worklistMoves, this`activeMoves
      ensures Valid() && IsCoalesce(old(Now()), Now())
    {
      ghost var s := Now();
      var m, u, v := PopMove();
      assert Merged() == s.g;
      TryAndFile(m, u, v, s);
    }

    /** What coalesce does after it has taken the last move, in state s. */
    method TryAndFile(m: (Reg, Reg), u: Reg, v: Reg, ghost s: Snapshot)
      requires Valid() && EndOk(m.0) && EndOk(m.1) && EndOk(u) && EndOk(v) && u <= v && u !in coalescedNodes && v !in coalescedNodes
      requires s.moves.worklist != [] && m == Last(s.moves.worklist)
      requires Now() == s.(moves := s.moves.(worklist := Front(s.moves.worklist)))
      modifies this`simplifyWorklist, this`freezeWorklist, this`spillWorklist, this`coalescedNodes, this`alias, graph
      modifies this`coalescedMoves, this`constrainedMoves, this`activeMoves
      ensures Valid() && IsCoalesceOf(s, Now(), u, v)
    {
      var outcome := TryMove(u, v);
      ghost var t := Now();
      FileTried(m, outcome);
      CoalesceRound(s, t, Now(), u, v, outcome);
    }

    method FileTried(m: (Reg, Reg), outcome: MoveOutcome)
      requires Valid() && EndOk(m.0) && EndOk(m.1)
      modifies this`coalescedMoves, this`constrainedMoves, this`activeMoves
      ensures Valid() && Now() == old(Now()).(moves := Filed(old(CurrentMoves()), m, outcome))
    {
      FileMove(m, outcome);
      assert Merged() == old(Merged());
    }

    /** Moves the last register of the freeze worklist to the simplify worklist. */
    method ThawLast() returns (r: Reg)
      requires freezeWorklist != []
      modifies this`simplifyWorklist, this`freezeWorklist
      ensures Listed() == old(Listed()) && r == Last(old(freezeWorklist))
      ensures freezeWorklist == Front(old(freezeWorklist)) && simplifyWorklist == old(simplifyWorklist) + [r]
    {
      var n := |freezeWorklist| - 1;
      r := freezeWorklist[n];
      assert freezeWorklist == freezeWorklist[..n] + [r];
      ElementsAppend(freezeWorklist[..n], [r]);
      ElementsAppend(simplifyWorklist, [r]);
      freezeWorklist := freezeWorklist[..n];
      simplifyWorklist := simplifyWorklist + [r];
    }

    /** Files a move of r, and lists its other end if that is ready. */
    method FreezeMove(m: (Reg, Reg), r: Reg)
      requires MovesOk([m]) && ListsOk(Listed(), coalescedNodes) && (keeps ==> apart)
      modifies this`simplifyWorklist, this`freezeWorklist, this`frozenMoves
      ensures ListsOk(Listed(), coalescedNodes) && frozenMoves == old(frozenMoves) + [m]
      ensures CurrentLists() == Enlisted(Here(), if m.0 == r then m.1 else m.0, old(CurrentLists()))
    {
      assert m in [m];
      frozenMoves := frozenMoves + [m];
      AddEndToWorklist(if m.0 == r then m.1 else m.0);
    }

    method FreezeMovesFor(r: Reg)
      requires MovesOk(activeMoves) && ListsOk(Listed(), coalescedNodes) && (keeps ==> apart)
      modifies this`simplifyWorklist, this`freezeWorklist, this`frozenMoves, this`activeMoves
      ensures MovesOk(activeMoves) && ListsOk(Listed(), coalescedNodes)
      ensures CurrentLists() == EndsEnlisted(Here(), old(activeMoves), r, old(CurrentLists()))
      ensures activeMoves == MovesNotAt(old(activeMoves), r) && frozenMoves == old(frozenMoves) + MovesAt(old(activeMoves), r)
    {
      var remaining: MoveList := [];
      for i := 0 to |activeMoves|
        invariant activeMoves == old(activeMoves)
        invariant ListsOk(Listed(), coalescedNodes)
        invariant CurrentLists() == EndsEnlisted(Here(), activeMoves[..i], r, old(CurrentLists()))
        invariant remaining == MovesNotAt(activeMoves[..i], r)
        invariant frozenMoves == old(frozenMoves) + MovesAt(activeMoves[..i], r)
      {
        var m := activeMoves[i];
        OneMoreMove(Here(), activeMoves, i, r, old(CurrentLists()));
        if m.0 == r || m.1 == r {
          FreezeMove(m, r);
        } else {
          remaining := remaining + [m];
        }
      }
      assert activeMoves[..|activeMoves|] == activeMoves;
      NotAtSubset(activeMoves, r);
      activeMoves := remaining;
    }

    method Freeze()
      requires Valid() && freezeWorklist != []
      modifies this`simplifyWorklist, this`freezeWorklist, this`frozenMoves, this`activeMoves
      ensures Valid() && IsFreeze(old(Now()), Now())
    {
      ghost var s := Now();
      var r := ThawLast();
      assert Here() == s.Now();
      FreezeMovesFor(r);
      assert Here() == s.Now();
    }

    /** The position of a register of greatest degree on the spill worklist. */
    method PickSpill() returns (idx: nat)
      requires spillWorklist != []
      ensures IsHeaviest(Here(), spillWorklist, idx)
    {
      ghost var edges, gone := graph.edges, coalescedNodes + onSelectStack;
      idx := 0;
      var maxDeg := Degree(spillWorklist[0]);
      for i := 1 to |spillWorklist|
        invariant idx < |spillWorklist| && maxDeg == DegreeOf(edges, gone, spillWorklist[idx])
        invariant forall j | 0 <= j < i :: DegreeOf(edges, gone, spillWorklist[j]) <= maxDeg
        invariant forall j | 0 <= j < idx :: DegreeOf(edges, gone, spillWorklist[j]) < maxDeg
      {
        var d := Degree(spillWorklist[i]);
        if d > maxDeg {
          maxDeg := d;
          idx := i;
        }
      }
    }

    /** Moves the register at position idx of the spill worklist to the simplify worklist. */
    method SpillAt(idx: nat) returns (r: Reg)
      requires idx < |spillWorklist|
      modifies this`simplifyWorklist, this`spillWorklist
      ensures Listed() == old(Listed()) && r == old(spillWorklist)[idx]
      ensures spillWorklist == old(spillWorklist)[..idx] + old(spillWorklist)[idx + 1..]
      ensures simplifyWorklist == old(simplifyWorklist) + [r]
    {
      r := spillWorklist[idx];
      assert spillWorklist == (spillWorklist[..idx] + [r]) + spillWorklist[idx + 1..];
      ElementsAppend(spillWorklist[..idx] + [r], spillWorklist[idx + 1..]);
      ElementsAppend(spillWorklist[..idx], [r]);
      ElementsAppend(spillWorklist[..idx], spillWorklist[idx + 1..]);
      ElementsAppend(simplifyWorklist, [r]);
      spillWorklist := spillWorklist[..idx] + spillWorklist[idx + 1..];
      simplifyWorklist := simplifyWorklist + [r];
    }

    method SelectSpill()
      requires Valid() && spillWorklist != []
      modifies this`simplifyWorklist, this`freezeWorklist, this`spillWorklist, this`frozenMoves, this`activeMoves
      ensures Valid() && IsSpill(old(Now()), Now())
    {
      ghost var s := Now();
      var idx := PickSpill();
      var r := SpillOne(idx);
      FreezeMovesOf(r, s);
      SpillRound(s, Now(), idx);
    }

    method SpillOne(idx: nat) returns (r: Reg)
      requires Valid() && idx < |spillWorklist|
      modifies this`simplifyWorklist, this`spillWorklist
      ensures Valid() && r == old(spillWorklist)[idx]
      ensures spillWorklist == old(spillWorklist)[..idx] + old(spillWorklist)[idx + 1..]
      ensures simplifyWorklist == old(simplifyWorklist) + [r]
    {
      r := SpillAt(idx);
      assert graph.Valid() && Merged() == old(Merged()) && CoreOk(Merged());
    }

    /** Freezes the moves of a register that was taken off its list, in state s. */
    method FreezeMovesOf(r: Reg, ghost s: Snapshot)
      requires Valid() && Now() == s.(lists := CurrentLists())
      modifies this`simplifyWorklist, this`freezeWorklist, this`frozenMoves, this`activeMoves
      ensures Valid() && IsFrozen(s, Now(), r, old(CurrentLists()))
    {
      assert Here() == s.Now();
      FreezeMovesFor(r);
      assert Here() == s.Now();
      assert CurrentMoves() == s.moves.(active := MovesNotAt(s.moves.active, r), frozen := s.moves.frozen + MovesAt(s.moves.active, r));
    }

    predicate Idle()
      reads this
    {
      simplifyWorklist == [] && worklistMoves == [] && freezeWorklist == [] && spillWorklist == []
    }

    /** One round of the main loop. */
    method Step()
      requires Valid() && !Idle()
      modifies this`simplifyWorklist, this`freezeWorklist, this`spillWorklist, this`selectStack, this`onSelectStack
      modifies this`coalescedNodes, this`alias, graph
      modifies this`coalescedMoves, this`constrainedMoves, this`frozenMoves, this`worklistMoves, this`activeMoves
      ensures Valid() && IsRound(old(Now()), Now())
    {
      if simplifyWorklist != [] {
        Simplify();
      } else if worklistMoves != [] {
        Coalesce();
      } else if freezeWorklist != [] {
        Freeze();
      } else {
        SelectSpill();
      }
    }

    /** At most `rounds` rounds of the main loop. */
    method Rounds(rounds: nat) returns (ended: bool, ghost run: seq<Snapshot>)
      requires Valid()
      modifies this`simplifyWorklist, this`freezeWorklist, this`spillWorklist, this`selectStack, this`onSelectStack
      modifies this`coalescedNodes, this`alias, graph
      modifies this`coalescedMoves, this`constrainedMoves, this`frozenMoves, this`worklistMoves, this`activeMoves
      ensures Valid() && ended == Idle()
      ensures IsRun(run) && run[0] == old(Now()) && Last(run) == Now()
      ensures |run| - 1 <= rounds && (ended || |run| - 1 == rounds)
    {
      var k := 0;
      run := [Now()];
      while k < rounds && !Idle()
        invariant Valid() && k <= rounds
        invariant IsRun(run) && run[0] == old(Now()) && Last(run) == Now() && |run| == k + 1
      {
        ghost var s := Now();
        Step();
        OneMoreRound(run, Now());
        run := run + [Now()];
        k := k + 1;
      }
      ended := Idle();
    }

    /** The colours of the coloured representatives of r's neighbours. */
    method UsedColors(r: Reg) returns (used: set<nat>)
      requires Descends(coalescedNodes, alias) && coloredNodes <= colors.Keys
      ensures used == Taken(Merged(), Coloring().1, r)
    {
      used := {};
      var todo := Adj(graph.edges, r);
      ghost var g, c := Merged(), Coloring().1;
      while todo != {}
        invariant todo <= Adj(g.edges, r)
        invariant used == set n | n in Adj(g.edges, r) && n !in todo && Rep(g.coalesced, g.alias, n) in c.colored ::
                            c.color[Rep(g.coalesced, g.alias, n)]
        decreases todo
      {
        var n :| n in todo;
        todo := todo - {n};
        var q := GetAlias(n);
        if q in coloredNodes {
          used := used + {colors[q]};
        }
      }
    }

    /** What holds while the select stack is emptied; `waiting` are the registers still on it. */
    ghost predicate ColoringOk(g: Merge, c: (Places, Colors), waiting: set<Reg>) {
      && c.0 == places0
      && GoodColors(g, places0, c.1)
      && nodes0 <= g.coalesced + places0.Keys + waiting + c.1.colored + c.1.spilled
      && NoneQuiet(waiting)
      && (keeps ==> PlacesKept(places0, c.1) && ParamsPlaced())
    }

    ghost predicate ParamsPlaced() {
      DensePlaces(places0, nodes0) && places0.Keys <= read + unread && places0.Keys !! lac0
    }

    /** Picks a place for r among the colours its neighbours left, or a new spill slot. */
    method ColorOne(r: Reg) returns (color: int)
      requires Descends(coalescedNodes, alias) && coloredNodes <= colors.Keys
      modifies this`colors, this`coloredNodes, this`spillSlot, this`spilledNodes, this`nextSpillSlot
      ensures Coloring().0 == old(Coloring().0)
      ensures var g, c, d := Merged(), old(Coloring().1), Coloring().1;
        Placed(c, d, r, Taken(g, c, r), StartColor(g, r), color)
    {
      var used := UsedColors(r);
      var start := if r in graph.liveAcrossCalls then FIRST_CALLEE_SAVED_COLOR else 0;
      color := FirstFree(used, start);
      if color >= 0 {
        var k: nat := color;
        coloredNodes := coloredNodes + {r};
        colors := colors[r := k];
        assert Coloring().1 == Painted(old(Coloring().1), r, k);
      } else {
        spilledNodes := spilledNodes + {r};
        spillSlot := spillSlot[r := nextSpillSlot];
        nextSpillSlot := nextSpillSlot + 8;
      }
    }

    /** A precoloured parameter in a register is given its own register's colour again. */
    lemma ParamRecolored(g: Merge, c: (Places, Colors), d: Colors, r: Reg, waiting: set<Reg>, choice: int)
      requires CoreOk(g) && keeps && ColoringOk(g, c, waiting) && r in waiting
      requires r in places0 && places0[r].R?
      requires Placed(c.1, d, r, Taken(g, c.1, r), StartColor(g, r), choice)
      ensures choice == places0[r].reg
    {
      assert r in read && r !in g.lac;
      ParamGetsItsColor(read, unread, lac0, g, places0, c.1, r);
    }

    lemma ColorOneOk(g: Merge, c: (Places, Colors), d: (Places, Colors), r: Reg, waiting: set<Reg>, choice: int)
      requires CoreOk(g) && ColoringOk(g, c, waiting + {r}) && d.0 == c.0
      requires Placed(c.1, d.1, r, Taken(g, c.1, r), StartColor(g, r), choice)
      ensures ColoringOk(g, d, waiting)
    {
      if keeps && r in places0 && places0[r].R? {
        ParamRecolored(g, c, d.1, r, waiting + {r}, choice);
      }
      if choice < 0 {
        SpillKeepsGood(g, places0, c.1, r);
      } else {
        PaintKeepsGood(g, places0, c.1, r, choice);
      }
      assert c.1.colored + c.1.spilled + {r} == d.1.colored + d.1.spilled;
    }

    method PopSelected() returns (r: Reg)
      requires selectStack != []
      modifies this`selectStack
      ensures r == Last(old(selectStack)) && selectStack == Front(old(selectStack))
      ensures Elements(old(selectStack)) == Elements(selectStack) + {r}
    {
      var n := |selectStack| - 1;
      r := selectStack[n];
      assert selectStack == selectStack[..n] + [r];
      ElementsAppend(selectStack[..n], [r]);
      selectStack := selectStack[..n];
    }

    /** One round of the first loop of assignColors. */
    method ColorNext()
      requires selectStack != [] && CoreOk(Merged()) && ColoringOk(Merged(), Coloring(), Elements(selectStack))
      modifies this`selectStack, this`colors, this`coloredNodes, this`spillSlot, this`spilledNodes, this`nextSpillSlot
      ensures ColoringOk(Merged(), Coloring(), Elements(selectStack)) && selectStack == Front(old(selectStack))
      ensures PlacedNext(Merged(), old(Coloring().1), Coloring().1, Last(old(selectStack)))
    {
      ghost var c, waiting := Coloring(), Elements(selectStack);
      var r := PopSelected();
      var choice := ColorOne(r);
      ColorOneOk(Merged(), c, Coloring(), r, Elements(selectStack), choice);
    }

    /** The registers of the stack above the select stack have been placed. */
    ghost predicate TraceOk(g: Merge, stack: seq<Reg>, waiting: seq<Reg>, trace: seq<Colors>, c: Colors)
      requires Descends(g.coalesced, g.alias)
    {
      && |waiting| <= |stack| && waiting == stack[..|waiting|]
      && |trace| == |stack| - |waiting| + 1 && Last(trace) == c && PlacedSoFar(g, stack, trace)
    }

    method ColorTraced(ghost stack: seq<Reg>, ghost trace: seq<Colors>) returns (ghost longer: seq<Colors>)
      requires selectStack != [] && CoreOk(Merged()) && ColoringOk(Merged(), Coloring(), Elements(selectStack))
      requires TraceOk(Merged(), stack, selectStack, trace, Coloring().1)
      modifies this`selectStack, this`colors, this`coloredNodes, this`spillSlot, this`spilledNodes, this`nextSpillSlot
      ensures ColoringOk(Merged(), Coloring(), Elements(selectStack)) && |selectStack| < |old(selectStack)|
      ensures TraceOk(Merged(), stack, selectStack, longer, Coloring().1) && longer[0] == trace[0]
    {
      ghost var g, r := Merged(), Last(selectStack);
      ColorNext();
      OneMorePlaced(g, stack, trace, Coloring().1, r);
      longer := trace + [Coloring().1];
    }

    method ColorStack() returns (ghost trace: seq<Colors>)
      requires CoreOk(Merged()) && ColoringOk(Merged(), Coloring(), Elements(selectStack))
      modifies this`selectStack, this`colors, this`coloredNodes, this`spillSlot, this`spilledNodes, this`nextSpillSlot
      ensures ColoringOk(Merged(), Coloring(), {})
      ensures PlacedInTurn(Merged(), old(selectStack), trace) && trace[0] == old(Coloring().1) && Last(trace) == Coloring().1
    {
      ghost var stack := selectStack;
      trace := [Coloring().1];
      while selectStack != []
        invariant ColoringOk(Merged(), Coloring(), Elements(selectStack))
        invariant TraceOk(Merged(), stack, selectStack, trace, Coloring().1) && trace[0] == old(Coloring().1)
        decreases |selectStack|
      {
        trace := ColorTraced(stack, trace);
      }
    }

    /** Gives one merged register the place of its representative. */
    method CopyOne(r: Reg)
      requires Descends(coalescedNodes, alias) && r in coalescedNodes
      requires coloredNodes <= colors.Keys && spilledNodes <= spillSlot.Keys
      modifies this`colors, this`coloredNodes, this`spillSlot, this`spilledNodes, this`precoloredParams
      ensures var q := Rep(coalescedNodes, alias, r);
        Coloring() == CopiedFrom(old(Coloring().0), old(Coloring().1), r, q)
    {
      var q := GetAlias(r);
      if q in coloredNodes {
        colors := colors[r := colors[q]];
        coloredNodes := coloredNodes + {r};
      } else if q in spilledNodes {
        spilledNodes := spilledNodes + {r};
        spillSlot := spillSlot[r := spillSlot[q]];
      } else if q in precoloredParams {
        precoloredParams := precoloredParams[r := precoloredParams[q]];
      }
    }

    /** The second loop of assignColors. */
    method CopyColors(ghost g: Merge, ghost c: (Places, Colors))
      requires g == Merged() && Sound(g) && c == Coloring() && c.1.colored <= c.1.color.Keys && c.1.spilled <= c.1.slot.Keys
      modifies this`colors, this`coloredNodes, this`spillSlot, this`spilledNodes, this`precoloredParams
      ensures Copied(g, c.0, c.1, Coloring().0, Coloring().1, coalescedNodes)
    {
      var todo := coalescedNodes;
      ghost var done: set<Reg> := {};
      while todo != {}
        invariant todo + done == g.coalesced && todo !! done
        invariant Copied(g, c.0, c.1, Coloring().0, Coloring().1, done)
        invariant coloredNodes <= colors.Keys && spilledNodes <= spillSlot.Keys
        decreases todo
      {
        var r :| r in todo;
        todo := todo - {r};
        ghost var d := Coloring();
        CopyOne(r);
        CopyStep(g, c.0, c.1, d.0, d.1, done, r);
        done := done + {r};
      }
    }

    /** assignColors: empties the select stack, then copies to the merged registers. */
    method AssignColors() returns (ghost trace: seq<Colors>)
      requires CoreOk(Merged()) && ColoringOk(Merged(), Coloring(), Elements(selectStack))
      modifies this`selectStack, this`colors, this`coloredNodes, this`spillSlot, this`spilledNodes, this`nextSpillSlot
      modifies this`precoloredParams
      ensures PlacedInTurn(Merged(), old(selectStack), trace) && trace[0] == old(Coloring().1)
      ensures ColoringOk(Merged(), (places0, Last(trace)), {})
      ensures Copied(Merged(), places0, Last(trace), Coloring().0, Coloring().1, coalescedNodes)
    {
      trace := ColorStack();
      CopyColors(Merged(), Coloring());
    }

    /** buildResult. */
    method BuildResult() returns (result: AllocationResult)
      requires Complete(Coloring().1)
      ensures forall r :: PlaceOf(Coloring().0, Coloring().1, r) == if r in result.regToLoc then Some(result.regToLoc[r]) else None
      ensures result.spilledRegs == spilledNodes && result.stackSize == nextSpillSlot
    {
      var regToLoc := precoloredParams;
      var todo := coloredNodes;
      while todo != {}
        invariant todo <= coloredNodes
        invariant forall r :: r in regToLoc <==> r in precoloredParams || (r in coloredNodes && r !in todo)
        invariant forall r | r in regToLoc ::
          regToLoc[r] == if r in precoloredParams then precoloredParams[r] else L.R(Register(colors[r]))
        decreases todo
      {
        var r :| r in todo;
        todo := todo - {r};
        if r !in precoloredParams {
          var color := colors[r];
          if color < |ALLOCATABLE| {
            regToLoc := regToLoc[r := L.R(ALLOCATABLE[color])];
          }
        }
      }
      todo := spilledNodes;
      while todo != {}
        invariant todo <= spilledNodes
        invariant forall r :: r in regToLoc <==> r in precoloredParams || r in coloredNodes || (r in spilledNodes && r !in todo)
        invariant forall r | r in regToLoc ::
          regToLoc[r] == if r in precoloredParams then precoloredParams[r]
                         else if r in spilledNodes && r !in todo then L.S(L.SlotLocal, spillSlot[r], L.Tlong)
                         else L.R(Register(colors[r]))
        decreases todo
      {
        var r :| r in todo;
        todo := todo - {r};
        if r !in precoloredParams {
          regToLoc := regToLoc[r := L.S(L.SlotLocal, spillSlot[r], L.Tlong)];
        }
      }
      return AllocationResult(regToLoc, spilledNodes, nextSpillSlot);
    }

    /** What the class's constants stand for. */
    ghost predicate ConstantsOk() {
      && lac0 <= nodes0 && ArgPlaces(places0) && places0 == Precolored(fn.params, lac0)
      && places0.Keys <= read + unread && places0.Keys !! lac0
      && (keeps ==> ParamsPlaced())
    }

    lemma InitialConstants()
      requires JustBuilt()
      ensures ConstantsOk()
    {
      CrossingIsRead(fn, info);
      PrecoloredPlaces(fn.params, lac0);
      if keeps {
        PrecoloredDense(fn, lac0, nodes0);
      }
    }

    lemma ResultTotal(g: Merge, c: Colors, pre': Places, d: Colors, regToLoc: Places)
      requires Sound(g) && g.nodes == nodes0 && ArgPlaces(places0) && GoodColors(g, places0, c)
      requires AllPlaced(g, places0, c) && Copied(g, places0, c, pre', d, g.coalesced)
      requires forall r :: PlaceOf(pre', d, r) == if r in regToLoc then Some(regToLoc[r]) else None
      ensures Total(nodes0, regToLoc)
    {
      forall r | r in nodes0
        ensures r in regToLoc && IsPlace(regToLoc[r])
      {
        EveryRegisterPlaced(g, places0, c, pre', d, r);
      }
    }

    lemma ResultProper(g: Merge, c: Colors, pre': Places, d: Colors, regToLoc: Places)
      requires Sound(g) && ArgPlaces(places0) && GoodColors(g, places0, c)
      requires AllPlaced(g, places0, c) && Copied(g, places0, c, pre', d, g.coalesced)
      requires forall r :: PlaceOf(pre', d, r) == if r in regToLoc then Some(regToLoc[r]) else None
      requires forall a, b | Edge(edges0, a, b) :: Edge(g.edges, a, b)
      requires keeps ==> g.coalesced !! places0.Keys && PlacesKept(places0, c)
      ensures Proper(edges0, if keeps then {} else places0.Keys, regToLoc)
    {
      forall a, b | Edge(edges0, a, b) && (keeps || (a !in places0 && b !in places0))
        ensures a in regToLoc && b in regToLoc && regToLoc[a] != regToLoc[b]
      {
        assert Edge(g.edges, a, b);
        InterferingPlacesDiffer(g, places0, c, pre', d, a, b);
      }
    }

    lemma ResultCallSafe(g: Merge, c: Colors, pre': Places, d: Colors, regToLoc: Places)
      requires Sound(g) && g.nodes == nodes0 && ArgPlaces(places0) && GoodColors(g, places0, c)
      requires AllPlaced(g, places0, c) && Copied(g, places0, c, pre', d, g.coalesced)
      requires forall r :: PlaceOf(pre', d, r) == if r in regToLoc then Some(regToLoc[r]) else None
      requires ParamsApart(read, unread, lac0, g) && lac0 <= g.lac && ConstantsOk()
      ensures CallSafe(lac0, regToLoc) && ParamsStay(places0, regToLoc)
    {
      forall r | r in lac0
        ensures r in regToLoc && SurvivesCall(regToLoc[r])
      {
        if r in g.coalesced {
          RepIsNoParam(read, unread, lac0, g, r);
        }
        CrossingPlaceSurvives(g, places0, c, pre', d, r);
      }
      forall p | p in places0
        ensures p in regToLoc && regToLoc[p] == places0[p]
      {
        assert p in read + unread;
        ParamStays(g, places0, c, pre', d, p);
      }
    }

    /** The result is good whenever the worklists are empty and the select stack has been coloured. */
    lemma ResultGood(g: Merge, c: Colors, pre': Places, d: Colors, regToLoc: Places)
      requires ConstantsOk() && CoreOk(g) && ColoringOk(g, (places0, c), {}) && Copied(g, places0, c, pre', d, g.coalesced)
      requires forall r :: PlaceOf(pre', d, r) == if r in regToLoc then Some(regToLoc[r]) else None
      ensures Total(nodes0, regToLoc)
      ensures Proper(edges0, if keeps then {} else places0.Keys, regToLoc)
      ensures apart ==> CallSafe(lac0, regToLoc) && ParamsStay(places0, regToLoc)
    {
      ResultTotal(g, c, pre', d, regToLoc);
      ResultProper(g, c, pre', d, regToLoc);
      if apart {
        ResultCallSafe(g, c, pre', d, regToLoc);
      }
    }

    lemma StartColoringOk()
      requires CoreOk(Merged()) && StartColors(Coloring()) && ConstantsOk()
      requires ListsOk(Elements(selectStack), coalescedNodes)
      ensures ColoringOk(Merged(), Coloring(), Elements(selectStack))
    {
      InitialColorsGood(fn.params, lac0, Merged());
    }

    /** Which registers are certainly not spilled. */
    lemma ResultInRegisters(g: Merge, stack: seq<Reg>, trace: seq<Colors>, pre': Places, d: Colors, regToLoc: Places)
      requires CoreOk(g) && PlacedInTurn(g, stack, trace) && trace[0].spilled == {} && trace[0].colored <= places0.Keys
      requires ColoringOk(g, (places0, Last(trace)), {}) && Copied(g, places0, Last(trace), pre', d, g.coalesced)
      requires forall r :: PlaceOf(pre', d, r) == if r in regToLoc then Some(regToLoc[r]) else None
      ensures Uncrowded(g, stack, places0.Keys, regToLoc)
    {
      var c := Last(trace);
      forall r | r in g.nodes - places0.Keys - g.coalesced && r !in c.spilled
        ensures InRegister(regToLoc, r)
      {
        ColoredIsInRegister(g, places0, c, pre', d, r);
      }
      forall r | |Adj(g.edges, r)| + StartColor(g, r) < K
        ensures r !in c.spilled
      {
        FewNotSpilled(g, stack, trace, r, |stack|);
      }
      if places0.Keys == {} && g.coalesced == {} && FewBefore(g.edges, stack) {
        SimplifiedNotSpilled(g, stack, trace, |stack|);
      }
    }

    /** What follows the main loop. */
    method Finish() returns (result: AllocationResult)
      requires CoreOk(Merged()) && ColoringOk(Merged(), Coloring(), Elements(selectStack)) && ConstantsOk()
      requires Coloring().1.spilled == {} && coloredNodes <= places0.Keys
      modifies this`selectStack, this`colors, this`coloredNodes, this`spillSlot, this`spilledNodes, this`nextSpillSlot
      modifies this`precoloredParams
      ensures GoodResult(Merged(), old(selectStack), result.regToLoc)
    {
      ghost var trace := AssignColors();
      CopiedComplete(Merged(), places0, Last(trace), Coloring().0, Coloring().1);
      result := BuildResult();
      ResultGood(Merged(), Last(trace), Coloring().0, Coloring().1, result.regToLoc);
      ResultInRegisters(Merged(), old(selectStack), trace, Coloring().0, Coloring().1, result.regToLoc);
    }

    /** What an allocation from a select stack and a merged graph is good for. */
    ghost predicate GoodResult(g: Merge, stack: seq<Reg>, regToLoc: Places) {
      && Total(nodes0, regToLoc)
      && Proper(edges0, if keeps then {} else places0.Keys, regToLoc)
      && (apart ==> CallSafe(lac0, regToLoc) && ParamsStay(places0, regToLoc))
      && Uncrowded(g, stack, places0.Keys, regToLoc)
    }

    /** The graph before any round. */
    ghost function Unmerged(): Merge {
      Merge(nodes0, edges0, lac0, {}, map[])
    }

    /** Allocates registers, unless the worklists are still not empty after the given number of rounds. */
    method Allocate(rounds: nat) returns (result: Option<AllocationResult>, ghost run: seq<Snapshot>)
      requires JustBuilt()
      modifies this, graph
      ensures IsRunFrom(Unmerged(), old(graph.preferences), places0.Keys, rounds, run)
      ensures result.Some? <==> Last(run).IsIdle()
      ensures result.Some? ==> GoodResult(Last(run).g, Last(run).stack, result.value.regToLoc)
    {
      InitialConstants();
      BuildWorklists();
      assert graph.preferences == old(graph.preferences);
      result, run := RunToEnd(rounds);
    }

    /** When the main loop ends, the select stack is ready to be coloured. */
    method RoundsThenIdle(rounds: nat) returns (ended: bool, ghost run: seq<Snapshot>)
      requires Valid() && StartColors(Coloring()) && ConstantsOk()
      modifies this, graph
      ensures CoreOk(Merged()) && (ended ==> ColoringOk(Merged(), Coloring(), Elements(selectStack)))
      ensures StartColors(Coloring()) && ended == Idle()
      ensures IsRun(run) && run[0] == old(Now()) && Last(run) == Now() && |run| - 1 <= rounds && (ended || |run| - 1 == rounds)
    {
      ghost var c := Coloring();
      ended, run := Rounds(rounds);
      assert Coloring() == c;
      if ended {
        StartColoringOk();
      }
    }

    /** The main loop, and what follows it. */
    method RunToEnd(rounds: nat) returns (result: Option<AllocationResult>, ghost run: seq<Snapshot>)
      requires Valid() && StartColors(Coloring()) && ConstantsOk()
      modifies this, graph
      ensures IsRun(run) && run[0] == old(Now()) && |run| - 1 <= rounds && (result.Some? || |run| - 1 == rounds)
      ensures result.Some? <==> Last(run).IsIdle()
      ensures result.Some? ==> GoodResult(Last(run).g, Last(run).stack, result.value.regToLoc)
    {
      var ended: bool;
      ended, run := RoundsThenIdle(rounds);
      if !ended {
        return None, run;
      }
      var r := Finish();
      result := Some(r);
    }
  }

  ghost predicate InRegister(regToLoc: Places, r: Reg) {
    r in regToLoc && regToLoc[r].R?
  }

  ghost predicate InRegisters(rs: set<Reg>, regToLoc: Places) {
    forall r | r in rs :: InRegister(regToLoc, r)
  }

  /** The registers with few neighbours are in registers; of those that are live across calls, the callee-saved ones must do. */
  ghost predicate FewInRegisters(g: Merge, pre: set<Reg>, regToLoc: Places) {
    forall r | r in g.nodes - pre - g.coalesced && |Adj(g.edges, r)| + StartColor(g, r) < K :: InRegister(regToLoc, r)
  }

  /** An allocation that a function's translation can rely on.
      Every register has a place; registers that interfere have different places; what is live across a
      call is in a callee-saved register or a slot; and the other parameters are where they arrived. */
  ghost predicate GoodAllocation(fn: Function, info: LivenessInfo, regToLoc: Places) {
    var lac := LiveOutOfCalls(fn.code, info, fn.code.Keys);
    && Total(AllRegs(fn), regToLoc)
    && (forall a, b | Interferes(fn, info, a, b) :: a in regToLoc && b in regToLoc && regToLoc[a] != regToLoc[b])
    && CallSafe(lac, regToLoc) && ParamsStay(Precolored(fn.params, lac), regToLoc)
  }

  /** Without merges and parameters with places of their own, it is enough that each register had few neighbours when it was
      pushed. */
  ghost predicate Uncrowded(g: Merge, stack: seq<Reg>, pre: set<Reg>, regToLoc: Places) {
    && FewInRegisters(g, pre, regToLoc)
    && (pre == {} && g.coalesced == {} && FewBefore(g.edges, stack) ==> InRegisters(g.nodes - g.lac, regToLoc))
  }

  /** The registers that interfere with each register, and those that it is moved to or from. */
  ghost function ClashGraph(fn: Function, info: LivenessInfo): Adjacency {
    map r | r in AllRegs(fn) :: set b | b in AllRegs(fn) && Interferes(fn, info, r, b)
  }

  ghost function MoveGraph(fn: Function): Adjacency {
    map r | r in AllRegs(fn) :: set b | b in AllRegs(fn) && MoveBetween(fn.code, fn.code.Keys, r, b)
  }

  /** Nothing is merged at first. */
  ghost function StartGraph(fn: Function, info: LivenessInfo): Merge {
    Merge(AllRegs(fn), ClashGraph(fn, info), LiveOutOfCalls(fn.code, info, fn.code.Keys), {}, map[])
  }

  lemma GraphsAre(fn: Function, info: LivenessInfo, edges: Adjacency, prefs: Adjacency, lac: set<Reg>)
    requires BuiltFor(fn, info, AllRegs(fn), edges, prefs, lac)
    ensures edges == ClashGraph(fn, info) && prefs == MoveGraph(fn)
  {
    forall r | r in AllRegs(fn)
      ensures edges[r] == ClashGraph(fn, info)[r] && prefs[r] == MoveGraph(fn)[r]
    {
      assert forall b :: b in edges[r] <==> Edge(edges, r, b);
      assert forall b :: b in prefs[r] <==> Edge(prefs, r, b);
    }
  }

  /** The main loop, from the function's graph, for that many rounds if it does not end earlier. */
  ghost predicate LoopRun(fn: Function, info: LivenessInfo, rounds: nat, run: seq<Snapshot>) {
    IsRunFrom(StartGraph(fn, info), MoveGraph(fn), Precolored(fn.params, LiveOutOfCalls(fn.code, info, fn.code.Keys)).Keys, rounds, run)
  }

  /** There is a result if and only if the loop has ended. */
  ghost predicate AllocationRun(fn: Function, info: LivenessInfo, rounds: nat, run: seq<Snapshot>, result: Option<AllocationResult>) {
    var lac := LiveOutOfCalls(fn.code, info, fn.code.Keys);
    var pre := Precolored(fn.params, lac).Keys;
    && LoopRun(fn, info, rounds, run)
    && (result.Some? <==> Last(run).IsIdle())
    && (result.Some? ==> Uncrowded(Last(run).g, Last(run).stack, pre, result.value.regToLoc))
  }

  /** AllocateFunction: liveness, interference graph, allocation. */
  method AllocateFunction(fn: Function, rounds: nat)
    returns (info: LivenessInfo, result: Option<AllocationResult>, ghost run: seq<Snapshot>)
    ensures IsSolution(fn.code, info) && IsLeast(fn.code, info)
    ensures AllocationRun(fn, info, rounds, run, result)
    ensures result.Some? ==> Total(AllRegs(fn), result.value.regToLoc)
    ensures var pre := Precolored(fn.params, LiveOutOfCalls(fn.code, info, fn.code.Keys));
      result.Some? ==> forall a, b | Interferes(fn, info, a, b) && a !in pre && b !in pre ::
        a in result.value.regToLoc && b in result.value.regToLoc && result.value.regToLoc[a] != result.value.regToLoc[b]
    ensures result.Some? && UnreadNotWritten(fn) ==>
      CallSafe(LiveOutOfCalls(fn.code, info, fn.code.Keys), result.value.regToLoc)
    ensures result.Some? && ParamsKeepPlaces(fn, LiveOutOfCalls(fn.code, info, fn.code.Keys)) ==>
      GoodAllocation(fn, info, result.value.regToLoc)
    ensures EndsIfSimplifiable(fn, info, rounds, result) && EndsIfSmall(fn, rounds, result) && RunsOnIfClique(fn, info, result)
  {
    info := Analyze(fn.code);
    var graph := BuildInterferenceGraph(fn, info);
    GraphsAre(fn, info, graph.edges, graph.preferences, graph.liveAcrossCalls);
    var allocator := new Allocator(fn, graph, info);
    result, run := allocator.Allocate(rounds);
    if result.Some? {
      FromGraph(fn, info, allocator.edges0, allocator.keeps, allocator.places0, result.value.regToLoc);
    }
    RunEnds(fn, info, rounds, run, result);
  }

  lemma FromGraph(fn: Function, info: LivenessInfo, edges: Adjacency, keeps: bool, places: Places, regToLoc: Places)
    requires forall a, b :: Edge(edges, a, b) <==> Interferes(fn, info, a, b)
    requires Total(AllRegs(fn), regToLoc) && Proper(edges, if keeps then {} else places.Keys, regToLoc)
    ensures forall a, b | Interferes(fn, info, a, b) && (keeps || (a !in places && b !in places)) ::
      a in regToLoc && b in regToLoc && regToLoc[a] != regToLoc[b]
  {
    forall a, b | Interferes(fn, info, a, b) && (keeps || (a !in places && b !in places))
      ensures a in regToLoc && b in regToLoc && regToLoc[a] != regToLoc[b]
    {
      assert Edge(edges, a, b);
    }
  }

  // --- Which functions the allocator ends on ---

  /** Without moves, it ends if the registers can be simplified.  If moreover there are no parameters with places of their own,
      only what is live across calls may be spilled. */
  ghost predicate EndsIfSimplifiable(fn: Function, info: LivenessInfo, rounds: nat, result: Option<AllocationResult>) {
    var lac := LiveOutOfCalls(fn.code, info, fn.code.Keys);
    var pre := Precolored(fn.params, lac).Keys;
    NoEdges(MoveGraph(fn)) && P.Simplifiable(AllRegs(fn), ClashGraph(fn, info), pre) && rounds >= |AllRegs(fn)| ==>
      && result.Some?
      && FewInRegisters(StartGraph(fn, info), pre, result.value.regToLoc)
      && (pre == {} ==> InRegisters(AllRegs(fn) - lac, result.value.regToLoc))
  }

  /** With moves, it ends if there are no more registers than colours. */
  ghost predicate EndsIfSmall(fn: Function, rounds: nat, result: Option<AllocationResult>) {
    |AllRegs(fn)| <= K && rounds >= 2 * |AllRegs(fn)| + 3 * |MovePairs(MoveGraph(fn))| ==> result.Some?
  }

  /** It never ends on more registers than colours that all interfere, without moves and parameters with places of their own. */
  ghost predicate RunsOnIfClique(fn: Function, info: LivenessInfo, result: Option<AllocationResult>) {
    && NoEdges(MoveGraph(fn)) && S.AllAdjacent(AllRegs(fn), ClashGraph(fn, info)) && |AllRegs(fn)| > K
    && Precolored(fn.params, LiveOutOfCalls(fn.code, info, fn.code.Keys)) == map[]
    ==> result.None?
  }

  lemma RunEnds(fn: Function, info: LivenessInfo, rounds: nat, run: seq<Snapshot>, result: Option<AllocationResult>)
    requires BuiltFor(fn, info, AllRegs(fn), ClashGraph(fn, info), MoveGraph(fn), LiveOutOfCalls(fn.code, info, fn.code.Keys))
    requires AllocationRun(fn, info, rounds, run, result)
    ensures EndsIfSimplifiable(fn, info, rounds, result) && EndsIfSmall(fn, rounds, result) && RunsOnIfClique(fn, info, result)
  {
    SimplifiableRunEnds(fn, info, rounds, run, result);
    var g, prefs := StartGraph(fn, info), MoveGraph(fn);
    var pre := Precolored(fn.params, LiveOutOfCalls(fn.code, info, fn.code.Keys)).Keys;
    if |AllRegs(fn)| <= K && rounds >= 2 * |AllRegs(fn)| + 3 * |MovePairs(prefs)| {
      P.SmallEnds(g, prefs, pre, rounds, run);
    }
    if pre == {} && NoEdges(prefs) && S.AllAdjacent(g.nodes, g.edges) && |g.nodes| > K {
      S.CliqueRunsOn(g, prefs, rounds, run);
    }
  }

  lemma SimplifiableRunEnds(fn: Function, info: LivenessInfo, rounds: nat, run: seq<Snapshot>, result: Option<AllocationResult>)
    requires BuiltFor(fn, info, AllRegs(fn), ClashGraph(fn, info), MoveGraph(fn), LiveOutOfCalls(fn.code, info, fn.code.Keys))
    requires AllocationRun(fn, info, rounds, run, result)
    ensures EndsIfSimplifiable(fn, info, rounds, result)
  {
    var g, prefs := StartGraph(fn, info), MoveGraph(fn);
    var pre := Precolored(fn.params, LiveOutOfCalls(fn.code, info, fn.code.Keys)).Keys;
    if NoEdges(prefs) && P.Simplifiable(g.nodes, g.edges, pre) && rounds >= |g.nodes| {
      P.SimplifiableEnds(g, prefs, pre, rounds, run);
    }
  }
}
