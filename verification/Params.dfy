/** What becomes of a function's parameters during register allocation (pkg/regalloc/irc.go). */
module Params {
  import opened Values
  import opened RTL
  import opened Liveness
  import opened Interference
  import opened Conventions
  import opened Coalescing
  import L = LTL

  function LastIndex(params: seq<Reg>, p: Reg): (i: nat)
    requires p in params
    ensures i < |params| && params[i] == p && p !in params[i + 1..]
  {
    var last := |params| - 1;
    if params[last] == p then
      last
    else
      var i := LastIndex(params[..last], p);
      assert params[i + 1..] == params[..last][i + 1..] + [params[last]];
      i
  }

  /** The parameters not live across a call stay where the caller put them. */
  function Precolored(params: seq<Reg>, lac: set<Reg>): map<Reg, L.Loc> {
    map p | p in params && p !in lac :: ArgLocation(LastIndex(params, p))
  }

  lemma OneMorePrecolored(params: seq<Reg>, lac: set<Reg>, p: Reg)
    ensures Precolored(params + [p], lac) ==
      if p in lac then Precolored(params, lac) else Precolored(params, lac)[p := ArgLocation(|params|)]
  {
    var all := params + [p];
    assert all[..|all| - 1] == params;
    assert forall q :: q in all <==> q in params || q == p;
  }

  lemma PrecoloredDiffer(params: seq<Reg>, lac: set<Reg>, p: Reg, q: Reg)
    requires p in Precolored(params, lac) && q in Precolored(params, lac) && p != q
    ensures Precolored(params, lac)[p] != Precolored(params, lac)[q]
  {
    ArgLocationsDiffer(LastIndex(params, p), LastIndex(params, q));
  }

  /** Different parameters arrive in different places: argument registers and incoming slots. */
  ghost predicate ArgPlaces(pre: map<Reg, L.Loc>) {
    && (forall p | p in pre :: if pre[p].R? then pre[p].reg < NUM_ARG_REGS else pre[p].S? && pre[p].slot == L.SlotIncoming && IsWordSlot(pre[p]))
    && (forall p, q | p in pre && q in pre && p != q :: pre[p] != pre[q])
  }

  lemma PrecoloredPlaces(params: seq<Reg>, lac: set<Reg>)
    ensures ArgPlaces(Precolored(params, lac))
  {
    forall p, q | p in Precolored(params, lac) && q in Precolored(params, lac) && p != q
      ensures Precolored(params, lac)[p] != Precolored(params, lac)[q]
    {
      PrecoloredDiffer(params, lac, p, q);
    }
  }

  /** The colours of the parameters that arrive in registers. */
  function InitialColors(pre: map<Reg, L.Loc>): map<Reg, nat> {
    map p | p in pre && pre[p].R? :: pre[p].reg
  }

  /** A parameter that is never read is never written. */
  ghost predicate UnreadNotWritten(fn: Function) {
    forall p | p in fn.params && p !in AllUses(fn.code) :: p !in AllDefs(fn.code)
  }

  ghost predicate Distinct(rs: seq<Reg>) {
    forall i, j | 0 <= i < j < |rs| :: rs[i] != rs[j]
  }

  /** Among the parameters passed in registers, those not live across a call come first. */
  ghost predicate CallCrossingLast(params: seq<Reg>, lac: set<Reg>) {
    forall i, j | 0 <= i < j < |params| && j < NUM_ARG_REGS && params[i] in lac :: params[j] in lac
  }

  /** What keeps the fixed places of the parameters consistent with their colours. */
  ghost predicate ParamsKeepPlaces(fn: Function, lac: set<Reg>) {
    && UnreadNotWritten(fn)
    && Distinct(fn.params)
    && |fn.params| < K
    && CallCrossingLast(fn.params, lac)
  }

  ghost predicate HeldBy(pre: map<Reg, L.Loc>, nodes: set<Reg>, j: nat) {
    exists q | q in pre :: pre[q] == L.R(j) && q in nodes
  }

  /** The argument registers below an occupied one are occupied. */
  ghost predicate DensePlaces(pre: map<Reg, L.Loc>, nodes: set<Reg>) {
    forall p | p in pre && pre[p].R? ::
      pre[p].reg < NUM_ARG_REGS && forall j: nat | j < pre[p].reg :: HeldBy(pre, nodes, j)
  }

  lemma PrecoloredDense(fn: Function, lac: set<Reg>, nodes: set<Reg>)
    requires ParamsKeepPlaces(fn, lac) && Elements(fn.params) <= nodes
    ensures DensePlaces(Precolored(fn.params, lac), nodes)
  {
    var pre := Precolored(fn.params, lac);
    forall p, j: nat | p in pre && pre[p].R? && j < pre[p].reg
      ensures HeldBy(pre, nodes, j)
    {
      var i := LastIndex(fn.params, p);
      assert i < NUM_ARG_REGS && pre[p].reg == i;
      var q := fn.params[j];
      assert q !in lac && LastIndex(fn.params, q) == j;
      assert q in pre && pre[q] == L.R(j) && q in Elements(fn.params);
    }
  }

  ghost function ReadParams(fn: Function): set<Reg> {
    Elements(fn.params) * AllUses(fn.code)
  }

  ghost function UnreadParams(fn: Function): set<Reg> {
    Elements(fn.params) - AllUses(fn.code)
  }

  /** Parameters are never merged: one that is read is next to every register, and one that is not is
      next to read parameters only. */
  ghost predicate ParamsApart(read: set<Reg>, unread: set<Reg>, lac0: set<Reg>, g: Merge) {
    && (forall r | r in g.coalesced :: r !in read + unread && r in g.alias && g.alias[r] !in read + unread)
    && (forall p, n {:trigger p in read, Edge(g.edges, p, n)} ::
          p in read && n in g.nodes && n != p ==> Edge(g.edges, p, n))
    && (forall p, n {:trigger p in unread, Edge(g.edges, p, n)} ::
          p in unread && Edge(g.edges, p, n) ==> n in read)
    && (forall p | p in read + unread && p in g.lac :: p in lac0)
  }

  /** The graph that BuildInterferenceGraph makes for fn. */
  ghost predicate BuiltFor(fn: Function, info: LivenessInfo, nodes: set<Reg>, edges: Adjacency, prefs: Adjacency, lac: set<Reg>) {
    && IsSolution(fn.code, info) && IsLeast(fn.code, info)
    && IsUndirected(nodes, edges) && IsUndirected(nodes, prefs)
    && nodes == AllRegs(fn)
    && (forall a, b :: Edge(edges, a, b) <==> Interferes(fn, info, a, b))
    && (forall a, b :: Edge(prefs, a, b) <==> MoveBetween(fn.code, fn.code.Keys, a, b))
    && lac == LiveOutOfCalls(fn.code, info, fn.code.Keys)
  }

  lemma UnreadNeighbour(fn: Function, info: LivenessInfo, p: Reg, n: Reg)
    requires IsSolution(fn.code, info) && IsLeast(fn.code, info)
    requires UnreadNotWritten(fn) && p in UnreadParams(fn) && Interferes(fn, info, p, n)
    ensures n in ReadParams(fn)
  {
    LiveIsUsed(fn.code, info);
    forall k
      ensures !ClashesAt(fn.code, info, k, p, n) && !ClashesAt(fn.code, info, k, n, p)
    {
      assert k in fn.code && p in Defs(fn.code[k]) ==> p in AllDefs(fn.code);
      assert k in fn.code ==> p !in info.liveOut[k];
    }
  }

  lemma InitiallyApart(fn: Function, info: LivenessInfo, nodes: set<Reg>, edges: Adjacency, prefs: Adjacency, lac: set<Reg>)
    requires BuiltFor(fn, info, nodes, edges, prefs, lac) && UnreadNotWritten(fn)
    ensures ParamsApart(ReadParams(fn), UnreadParams(fn), lac, Merge(nodes, edges, lac, {}, map[]))
    ensures forall p, n | p in UnreadParams(fn) :: !Edge(prefs, p, n)
  {
    forall p, n | p in ReadParams(fn) && n in nodes && n != p
      ensures Edge(edges, p, n)
    {
      assert ParamClash(fn, Elements(fn.params), p, n);
    }
    forall p, n | p in UnreadParams(fn) && Edge(edges, p, n)
      ensures n in ReadParams(fn)
    {
      UnreadNeighbour(fn, info, p, n);
    }
    forall p, n | p in UnreadParams(fn)
      ensures !Edge(prefs, p, n)
    {
      forall k
        ensures !MoveAt(fn.code, k, p, n) && !MoveAt(fn.code, k, n, p)
      {
        assert k in fn.code && p in Defs(fn.code[k]) ==> p in AllDefs(fn.code);
        assert k in fn.code && p in Uses(fn.code[k]) ==> p in AllUses(fn.code);
      }
    }
  }

  /** A register live across a call is read, so an unread parameter is precoloured. */
  lemma CrossingIsRead(fn: Function, info: LivenessInfo)
    requires IsSolution(fn.code, info) && IsLeast(fn.code, info)
    ensures LiveOutOfCalls(fn.code, info, fn.code.Keys) <= AllUses(fn.code)
  {
    LiveIsUsed(fn.code, info);
  }

  /** A merged register is never represented by a parameter. */
  lemma {:induction false} RepIsNoParam(read: set<Reg>, unread: set<Reg>, lac0: set<Reg>, g: Merge, r: Reg)
    requires WellFormed(g) && ParamsApart(read, unread, lac0, g) && r in g.coalesced
    ensures Rep(g.coalesced, g.alias, r) !in read + unread
    decreases r
  {
    if g.alias[r] in g.coalesced {
      RepIsNoParam(read, unread, lac0, g, g.alias[r]);
    }
  }

  lemma CombineKeepsParams(read: set<Reg>, unread: set<Reg>, lac0: set<Reg>, g: Merge, h: Merge, u: Reg, v: Reg)
    requires Sound(g) && CanCombine(g, u, v) && Combined(g, h, u, v) && ParamsApart(read, unread, lac0, g)
    requires u !in unread && v !in unread
    ensures u !in read && v !in read && ParamsApart(read, unread, lac0, h)
  {
    assert u in read ==> Edge(g.edges, u, v);
    assert v in read ==> Edge(g.edges, v, u);
    assert Edge(g.edges, v, u) ==> Edge(g.edges, u, v);
    forall p, n | p in read && n in h.nodes && n != p
      ensures Edge(h.edges, p, n)
    {
      assert Edge(g.edges, p, n);
    }
    forall p, n | p in unread && Edge(h.edges, p, n)
      ensures n in read
    {
      assert p in Movable(g, u, v) ==> Edge(g.edges, v, p);
      assert Edge(g.edges, v, p) ==> Edge(g.edges, p, v);
    }
  }

  ghost function DegreeOf(edges: Adjacency, gone: set<Reg>, r: Reg): nat {
    |Adj(edges, r) - gone|
  }

  lemma SubsetSize<T>(a: set<T>, b: set<T>)
    requires a <= b
    ensures |a| <= |b|
    decreases b
  {
    if a != {} {
      var x :| x in a;
      SubsetSize(a - {x}, b - {x});
    }
  }

  lemma {:induction false} ElementsSize(rs: seq<Reg>)
    ensures |Elements(rs)| <= |rs|
  {
    if rs == [] {
    } else {
      ElementsSize(rs[1..]);
      assert Elements(rs) == {rs[0]} + Elements(rs[1..]);
    }
  }

  lemma FewParams(fn: Function)
    ensures |ReadParams(fn) + UnreadParams(fn)| <= |fn.params|
  {
    ElementsSize(fn.params);
    assert ReadParams(fn) + UnreadParams(fn) == Elements(fn.params);
  }

  /** An unread parameter has too few neighbours ever to be put on a worklist. */
  lemma UnreadDegree(read: set<Reg>, unread: set<Reg>, lac0: set<Reg>, g: Merge, gone: set<Reg>, p: Reg)
    requires ParamsApart(read, unread, lac0, g) && p in unread && p !in read && |read + unread| < K
    ensures DegreeOf(g.edges, gone, p) < K - 1
  {
    var others := read + unread - {p};
    forall n | n in Adj(g.edges, p) - gone
      ensures n in others
    {
      assert Edge(g.edges, p, n);
    }
    SubsetSize(Adj(g.edges, p) - gone, others);
    assert |others| < |read + unread|;
  }
}
