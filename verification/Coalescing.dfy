/** Merging registers during allocation (pkg/regalloc/irc.go, getAlias and combine), on values. */
module Coalescing {
  import opened Values
  import opened RTL
  import opened Interference

  type AliasMap = map<Reg, Reg>

  /** The registers merged so far, with the interference graph and the call-crossing set they share. */
  datatype Merge = Merge(nodes: set<Reg>, edges: Adjacency, lac: set<Reg>, coalesced: set<Reg>, alias: AliasMap)

  /** Every alias chain strictly descends, so it ends. */
  ghost predicate Descends(coalesced: set<Reg>, alias: AliasMap) {
    forall r | r in coalesced :: r in alias && alias[r] < r
  }

  /** The representative of r: the register its alias chain ends in. */
  ghost function Rep(coalesced: set<Reg>, alias: AliasMap, r: Reg): (q: Reg)
    requires Descends(coalesced, alias)
    ensures q !in coalesced && q <= r && (r !in coalesced ==> q == r)
    decreases r
  {
    if r in coalesced then Rep(coalesced, alias, alias[r]) else r
  }

  ghost predicate RepsApart(g: Merge, a: Reg, b: Reg)
    requires Descends(g.coalesced, g.alias)
  {
    var p, q := Rep(g.coalesced, g.alias, a), Rep(g.coalesced, g.alias, b);
    p != q && Edge(g.edges, p, q)
  }

  ghost predicate WellFormed(g: Merge) {
    && IsUndirected(g.nodes, g.edges)
    && g.coalesced <= g.nodes
    && Descends(g.coalesced, g.alias)
    && forall r | r in g.coalesced :: g.alias[r] in g.nodes
  }

  /** Registers that interfere have distinct, adjacent representatives; and a register that is live
      across a call has a representative that is treated so. */
  ghost predicate Sound(g: Merge) {
    && WellFormed(g)
    && (forall a, b {:trigger RepsApart(g, a, b)} :: Edge(g.edges, a, b) ==> RepsApart(g, a, b))
    && (forall r | r in g.lac :: Rep(g.coalesced, g.alias, r) in g.lac)
  }

  ghost function Movable(g: Merge, u: Reg, v: Reg): set<Reg> {
    set n | n in Adj(g.edges, v) && n !in g.coalesced && n != v && n != u
  }

  /** h is g after v has been merged into u. */
  ghost predicate Combined(g: Merge, h: Merge, u: Reg, v: Reg) {
    && h.nodes == g.nodes && h.edges.Keys == g.edges.Keys
    && Extends(g.edges, h.edges, u, Movable(g, u, v))
    && h.lac == (if v in g.lac then g.lac + {u} else g.lac)
    && h.coalesced == g.coalesced + {v}
    && h.alias == g.alias[v := u]
  }

  /** Merging is allowed: two different uncoalesced registers that do not interfere, the smaller one kept. */
  ghost predicate CanCombine(g: Merge, u: Reg, v: Reg) {
    && u < v && u in g.nodes && v in g.nodes
    && u !in g.coalesced && v !in g.coalesced
    && !Edge(g.edges, u, v)
  }

  lemma UnmergedIsSound(nodes: set<Reg>, edges: Adjacency, lac: set<Reg>)
    requires IsUndirected(nodes, edges)
    ensures Sound(Merge(nodes, edges, lac, {}, map[]))
  {
    var g := Merge(nodes, edges, lac, {}, map[]);
    forall a, b | Edge(g.edges, a, b)
      ensures RepsApart(g, a, b)
    {
    }
  }

  lemma AdjInNodes(g: Merge, r: Reg)
    requires WellFormed(g)
    ensures Adj(g.edges, r) <= g.nodes
  {
    assert forall n | n in Adj(g.edges, r) :: Edge(g.edges, r, n);
  }

  lemma RepInNodes(g: Merge, r: Reg)
    requires WellFormed(g) && r in g.nodes
    ensures Rep(g.coalesced, g.alias, r) in g.nodes
    decreases r
  {
    if r in g.coalesced {
      RepInNodes(g, g.alias[r]);
    }
  }

  lemma CombinedDescends(g: Merge, h: Merge, u: Reg, v: Reg)
    requires WellFormed(g) && CanCombine(g, u, v) && Combined(g, h, u, v)
    ensures WellFormed(h)
  {
    ExtendsUndirected(g.nodes, g.edges, h.edges, u, Movable(g, u, v));
  }

  /** Representatives change only from v to u. */
  lemma {:induction false} RepAfterCombine(g: Merge, h: Merge, u: Reg, v: Reg, r: Reg)
    requires WellFormed(g) && WellFormed(h) && CanCombine(g, u, v) && Combined(g, h, u, v)
    ensures var oldRep := Rep(g.coalesced, g.alias, r);
            Rep(h.coalesced, h.alias, r) == if oldRep == v then u else oldRep
    decreases r
  {
    if r in g.coalesced {
      assert r != v;
      RepAfterCombine(g, h, u, v, g.alias[r]);
    } else if r == v {
      assert Rep(h.coalesced, h.alias, u) == u;
    }
  }

  /** The central invariant of coalescing survives a merge. */
  lemma CombineKeepsSound(g: Merge, h: Merge, u: Reg, v: Reg)
    requires Sound(g) && CanCombine(g, u, v) && Combined(g, h, u, v)
    ensures Sound(h)
  {
    CombinedDescends(g, h, u, v);
    forall a, b | Edge(h.edges, a, b)
      ensures RepsApart(h, a, b)
    {
      CombineKeepsApart(g, h, u, v, a, b);
    }
    forall r | r in h.lac
      ensures Rep(h.coalesced, h.alias, r) in h.lac
    {
      RepAfterCombine(g, h, u, v, r);
      if r in g.lac {
        assert Rep(g.coalesced, g.alias, r) in g.lac;
      }
    }
  }

  lemma CombineKeepsApart(g: Merge, h: Merge, u: Reg, v: Reg, a: Reg, b: Reg)
    requires Sound(g) && CanCombine(g, u, v) && Combined(g, h, u, v)
    requires WellFormed(h) && Edge(h.edges, a, b)
    ensures RepsApart(h, a, b)
  {
    RepAfterCombine(g, h, u, v, a);
    RepAfterCombine(g, h, u, v, b);
    if Edge(g.edges, a, b) {
      assert RepsApart(g, a, b);
      var p, q := Rep(g.coalesced, g.alias, a), Rep(g.coalesced, g.alias, b);
      assert Edge(g.edges, q, p);
      assert !Edge(g.edges, v, u);
      if p == v {
        assert q in Movable(g, u, v);
        assert Edge(h.edges, u, q);
      } else if q == v {
        assert p in Movable(g, u, v);
        assert Edge(h.edges, p, u);
      } else {
        assert Edge(h.edges, p, q);
      }
    }
  }
}
