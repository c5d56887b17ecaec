/** The interference graph (pkg/regalloc/interference.go). */
module Interference {
  import opened Values
  import opened RTL
  import opened Liveness

  type Adjacency = map<Reg, set<Reg>>

  function Adj(edges: Adjacency, r: Reg): set<Reg> {
    if r in edges then edges[r] else {}
  }

  predicate Edge(edges: Adjacency, a: Reg, b: Reg) {
    b in Adj(edges, a)
  }

  /** Symmetric, irreflexive, and with exactly the nodes as keys. */
  ghost predicate IsUndirected(nodes: set<Reg>, edges: Adjacency) {
    && edges.Keys == nodes
    && forall a, b | Edge(edges, a, b) :: a != b && b in nodes && Edge(edges, b, a)
  }

  /** `next` is `edges` with the edges between d and the registers of `others` added. */
  ghost predicate Extends(edges: Adjacency, next: Adjacency, d: Reg, others: set<Reg>) {
    forall a, b :: Edge(next, a, b) <==>
      Edge(edges, a, b) || (a == d && b != d && b in others) || (b == d && a != d && a in others)
  }

  ghost predicate NoEdges(edges: Adjacency) {
    forall a, b :: !Edge(edges, a, b)
  }

  ghost predicate SameAdj(edges: Adjacency, next: Adjacency) {
    forall a, b :: Edge(next, a, b) <==> Edge(edges, a, b)
  }

  lemma SameAdjUndirected(nodes: set<Reg>, edges: Adjacency, nodes': set<Reg>, next: Adjacency)
    requires IsUndirected(nodes, edges) && SameAdj(edges, next) && nodes <= nodes' == next.Keys
    ensures IsUndirected(nodes', next)
  {
    forall a, b | Edge(next, a, b)
      ensures a != b && b in nodes' && Edge(next, b, a)
    {
      assert Edge(edges, a, b);
      assert Edge(edges, b, a);
    }
  }

  lemma ExtendsUndirected(nodes: set<Reg>, edges: Adjacency, next: Adjacency, d: Reg, others: set<Reg>)
    requires IsUndirected(nodes, edges) && Extends(edges, next, d, others)
    requires d in nodes && others <= nodes && next.Keys == nodes
    ensures IsUndirected(nodes, next)
  {
    forall a, b | Edge(next, a, b)
      ensures a != b && b in nodes && Edge(next, b, a)
    {
      if Edge(edges, a, b) {
        assert Edge(edges, b, a);
      }
    }
  }

  lemma WithEdgeExtends(nodes: set<Reg>, before: Adjacency, edges: Adjacency, a: Reg, b: Reg)
    requires IsUndirected(nodes, edges) && a in nodes && b in nodes && a != b && SameAdj(before, edges)
    ensures var one := edges[a := edges[a] + {b}];
            var both := one[b := one[b] + {a}];
            IsUndirected(nodes, both) && Extends(before, both, a, {b})
  {
    var one := edges[a := edges[a] + {b}];
    var both := one[b := one[b] + {a}];
    forall x, y
      ensures Edge(both, x, y) <==> Edge(before, x, y) || (x == a && y != a && y in {b}) || (y == a && x != a && x in {b})
    {
      assert Edge(edges, x, y) <==> Edge(before, x, y);
    }
    assert Extends(edges, both, a, {b});
    ExtendsUndirected(nodes, edges, both, a, {b});
  }

  lemma ExtendsTwice(e0: Adjacency, e1: Adjacency, e2: Adjacency, d: Reg, some: set<Reg>, r: Reg)
    requires Extends(e0, e1, d, some) && Extends(e1, e2, d, {r})
    ensures Extends(e0, e2, d, some + {r})
  {
    forall a, b
      ensures Edge(e2, a, b) <==>
        Edge(e0, a, b) || (a == d && b != d && b in some + {r}) || (b == d && a != d && a in some + {r})
    {
      assert Edge(e1, a, b) <==> Edge(e0, a, b) || (a == d && b != d && b in some) || (b == d && a != d && a in some);
    }
  }

  predicate IsCall(i: Instr) {
    i.Icall?
  }

  predicate IsMove(i: Instr) {
    i.Iop? && i.op == Omove
  }

  predicate IsMoveSource(i: Instr, r: Reg) {
    IsMove(i) && |i.args| == 1 && i.args[0] == r
  }

  /** Instruction n writes a while b is live after it, and is not the move that copies b into a. */
  ghost predicate ClashesAt(code: Code, info: LivenessInfo, n: Node, a: Reg, b: Reg) {
    && n in code && n in info.liveOut
    && a in Defs(code[n]) && b in info.liveOut[n] && a != b && !IsMoveSource(code[n], b)
  }

  ghost predicate Clash(code: Code, info: LivenessInfo, ns: set<Node>, a: Reg, b: Reg) {
    exists n | n in ns :: ClashesAt(code, info, n, a, b)
  }

  ghost function AllDefs(code: Code): set<Reg> {
    set n, r | n in code && r in Defs(code[n]) :: r
  }

  ghost function AllRegs(fn: Function): set<Reg> {
    Elements(fn.params) + AllDefs(fn.code) + AllUses(fn.code)
  }

  /** A parameter that is read somewhere is kept apart from every other register. */
  ghost predicate ParamClash(fn: Function, ps: set<Reg>, a: Reg, b: Reg) {
    a in ps && a in AllUses(fn.code) && b in AllRegs(fn) && a != b
  }

  /** The interference relation the graph represents. */
  ghost predicate Interferes(fn: Function, info: LivenessInfo, a: Reg, b: Reg) {
    || Clash(fn.code, info, fn.code.Keys, a, b) || Clash(fn.code, info, fn.code.Keys, b, a)
    || ParamClash(fn, Elements(fn.params), a, b) || ParamClash(fn, Elements(fn.params), b, a)
  }

  ghost predicate MoveAt(code: Code, n: Node, a: Reg, b: Reg) {
    n in code && IsMoveSource(code[n], b) && code[n].dest == a && a != b
  }

  ghost predicate MoveBetween(code: Code, ns: set<Node>, a: Reg, b: Reg) {
    exists n | n in ns :: MoveAt(code, n, a, b) || MoveAt(code, n, b, a)
  }

  /** Registers live after some call. */
  ghost function LiveOutOfCalls(code: Code, info: LivenessInfo, ns: set<Node>): set<Reg> {
    set n, r | n in ns && n in code && n in info.liveOut && IsCall(code[n]) && r in info.liveOut[n] :: r
  }

  class InterferenceGraph {
    var nodes: set<Reg>
    var edges: Adjacency
    var preferences: Adjacency
    var liveAcrossCalls: set<Reg>

    constructor ()
      ensures Valid()
      ensures nodes == {} && liveAcrossCalls == {} && edges == map[] && preferences == map[]
    {
      nodes, liveAcrossCalls := {}, {};
      edges, preferences := map[], map[];
    }

    ghost predicate Valid()
      reads this
    {
      IsUndirected(nodes, edges) && IsUndirected(nodes, preferences)
    }

    method AddNode(r: Reg)
      requires Valid()
      modifies this`nodes, this`edges, this`preferences
      ensures Valid()
      ensures nodes == old(nodes) + {r}
      ensures r in old(nodes) ==> edges == old(edges) && preferences == old(preferences)
      ensures SameAdj(old(edges), edges)
      ensures SameAdj(old(preferences), preferences)
    {
      nodes := nodes + {r};
      if r !in edges {
        edges := edges[r := {}];
      }
      if r !in preferences {
        preferences := preferences[r := {}];
      }
      SameAdjUndirected(old(nodes), old(edges), nodes, edges);
      SameAdjUndirected(old(nodes), old(preferences), nodes, preferences);
    }

    method AddNodes(regs: set<Reg>)
      requires Valid()
      modifies this`nodes, this`edges, this`preferences
      ensures Valid() && nodes == old(nodes) + regs
      ensures SameAdj(old(edges), edges)
      ensures SameAdj(old(preferences), preferences)
    {
      var todo := regs;
      while todo != {}
        invariant Valid() && todo <= regs && nodes == old(nodes) + (regs - todo)
        invariant SameAdj(old(edges), edges)
        invariant SameAdj(old(preferences), preferences)
        decreases todo
      {
        var r :| r in todo;
        todo := todo - {r};
        AddNode(r);
      }
    }

    method AddEdge(r1: Reg, r2: Reg)
      requires Valid()
      modifies this`nodes, this`edges, this`preferences
      ensures Valid()
      ensures nodes == if r1 == r2 then old(nodes) else old(nodes) + {r1, r2}
      ensures Extends(old(edges), edges, r1, {r2})
      ensures SameAdj(old(preferences), preferences)
      ensures old(r1 in nodes && r2 in nodes) ==> preferences == old(preferences)
    {
      if r1 == r2 {
        return;
      }
      AddNode(r1);
      AddNode(r2);
      WithEdgeExtends(nodes, old(edges), edges, r1, r2);
      edges := edges[r1 := edges[r1] + {r2}];
      edges := edges[r2 := edges[r2] + {r1}];
    }

    method AddPreference(r1: Reg, r2: Reg)
      requires Valid()
      modifies this`nodes, this`edges, this`preferences
      ensures Valid()
      ensures nodes == if r1 == r2 then old(nodes) else old(nodes) + {r1, r2}
      ensures Extends(old(preferences), preferences, r1, {r2})
      ensures SameAdj(old(edges), edges)
      ensures old(r1 in nodes && r2 in nodes) ==> edges == old(edges)
    {
      if r1 == r2 {
        return;
      }
      AddNode(r1);
      AddNode(r2);
      WithEdgeExtends(nodes, old(preferences), preferences, r1, r2);
      preferences := preferences[r1 := preferences[r1] + {r2}];
      preferences := preferences[r2 := preferences[r2] + {r1}];
    }

    predicate HasEdge(r1: Reg, r2: Reg)
      reads this
    {
      Edge(edges, r1, r2)
    }

    predicate MoveRelated(r: Reg)
      reads this
    {
      Adj(preferences, r) != {}
    }

    /** The inner loops of the construction: an edge between d and each register of `others`. */
    method AddEdges(d: Reg, others: set<Reg>)
      requires Valid() && d in nodes && others <= nodes
      modifies this`nodes, this`edges, this`preferences
      ensures Valid() && nodes == old(nodes)
      ensures Extends(old(edges), edges, d, others)
      ensures SameAdj(old(preferences), preferences)
    {
      var todo := others;
      while todo != {}
        invariant Valid() && nodes == old(nodes) && todo <= others
        invariant Extends(old(edges), edges, d, others - todo)
        invariant SameAdj(old(preferences), preferences)
        decreases todo
      {
        var r :| r in todo;
        ghost var before := edges;
        AddEdge(d, r);
        ExtendsTwice(old(edges), before, edges, d, others - todo, r);
        assert others - (todo - {r}) == (others - todo) + {r};
        todo := todo - {r};
      }
      assert others - todo == others;
    }
  }

  method AddAllNodes(g: InterferenceGraph, fn: Function)
    requires g.Valid() && g.nodes == {} && g.edges == map[] && g.preferences == map[]
    modifies g`nodes, g`edges, g`preferences
    ensures g.Valid() && g.nodes == AllRegs(fn)
    ensures NoEdges(g.edges) && NoEdges(g.preferences)
  {
    AddParamNodes(g, fn.params);
    AddCodeNodes(g, fn.code);
  }

  method AddParamNodes(g: InterferenceGraph, params: seq<Reg>)
    requires g.Valid() && g.nodes == {} && NoEdges(g.edges) && NoEdges(g.preferences)
    modifies g`nodes, g`edges, g`preferences
    ensures g.Valid() && g.nodes == Elements(params)
    ensures NoEdges(g.edges) && NoEdges(g.preferences)
  {
    for k := 0 to |params|
      invariant g.Valid() && g.nodes == Elements(params[..k])
      invariant NoEdges(g.edges) && NoEdges(g.preferences)
    {
      assert params[..k + 1] == params[..k] + [params[k]];
      ElementsAppend(params[..k], [params[k]]);
      g.AddNode(params[k]);
    }
    assert params[..|params|] == params;
  }

  method AddCodeNodes(g: InterferenceGraph, code: Code)
    requires g.Valid() && NoEdges(g.edges) && NoEdges(g.preferences)
    modifies g`nodes, g`edges, g`preferences
    ensures g.Valid() && g.nodes == old(g.nodes) + AllDefs(code) + AllUses(code)
    ensures NoEdges(g.edges) && NoEdges(g.preferences)
  {
    var todo := code.Keys;
    ghost var seen: set<Node> := {};
    while todo != {}
      invariant g.Valid() && seen + todo == code.Keys
      invariant g.nodes == old(g.nodes) + RegsOf(code, seen)
      invariant NoEdges(g.edges) && NoEdges(g.preferences)
      decreases todo
    {
      var n :| n in todo;
      todo := todo - {n};
      g.AddNodes(Defs(code[n]) + Uses(code[n]));
      RegsOfStep(code, seen, n);
      seen := seen + {n};
    }
    assert seen == code.Keys;
    RegsOfAll(code);
  }

  ghost function RegsOf(code: Code, ns: set<Node>): set<Reg> {
    set n, r | n in ns && n in code && r in Defs(code[n]) + Uses(code[n]) :: r
  }

  lemma RegsOfAll(code: Code)
    ensures RegsOf(code, code.Keys) == AllDefs(code) + AllUses(code)
  {
    forall r | r in AllDefs(code) + AllUses(code)
      ensures r in RegsOf(code, code.Keys)
    {
      var n :| n in code && (r in Defs(code[n]) || r in Uses(code[n]));
      assert r in Defs(code[n]) + Uses(code[n]);
    }
    forall r | r in RegsOf(code, code.Keys)
      ensures r in AllDefs(code) + AllUses(code)
    {
      var n :| n in code && r in Defs(code[n]) + Uses(code[n]);
      assert r in Defs(code[n]) || r in Uses(code[n]);
    }
  }

  lemma RegsOfStep(code: Code, ns: set<Node>, n: Node)
    requires n in code
    ensures RegsOf(code, ns + {n}) == RegsOf(code, ns) + Defs(code[n]) + Uses(code[n])
  {
    var both := RegsOf(code, ns + {n});
    forall r | r in RegsOf(code, ns) + Defs(code[n]) + Uses(code[n])
      ensures r in both
    {
      if r in Defs(code[n]) + Uses(code[n]) {
        assert n in ns + {n};
      } else {
        var k :| k in ns && k in code && r in Defs(code[k]) + Uses(code[k]);
        assert k in ns + {n};
      }
    }
  }

  /** The edges are exactly the clashes of the instructions seen so far. */
  ghost predicate EdgesAreClashes(edges: Adjacency, code: Code, info: LivenessInfo, seen: set<Node>) {
    forall a, b :: Edge(edges, a, b) <==> Clash(code, info, seen, a, b) || Clash(code, info, seen, b, a)
  }

  /** `next` adds an edge between each register of `defs` and each register of `live`. */
  ghost predicate AddsProduct(edges: Adjacency, next: Adjacency, defs: set<Reg>, live: set<Reg>) {
    forall a, b :: Edge(next, a, b) <==>
      Edge(edges, a, b) || (a in defs && b in live && a != b) || (b in defs && a in live && a != b)
  }

  lemma AddsProductStep(e0: Adjacency, e1: Adjacency, e2: Adjacency, defs: set<Reg>, d: Reg, live: set<Reg>)
    requires AddsProduct(e0, e1, defs, live) && Extends(e1, e2, d, live)
    ensures AddsProduct(e0, e2, defs + {d}, live)
  {
    forall a, b
      ensures Edge(e2, a, b) <==>
        Edge(e0, a, b) || (a in defs + {d} && b in live && a != b) || (b in defs + {d} && a in live && a != b)
    {
      assert Edge(e1, a, b) <==>
        Edge(e0, a, b) || (a in defs && b in live && a != b) || (b in defs && a in live && a != b);
    }
  }

  function LiveButSource(i: Instr, live: set<Reg>): set<Reg> {
    set r | r in live && !IsMoveSource(i, r)
  }

  lemma ClashStep(code: Code, info: LivenessInfo, seen: set<Node>, n: Node, a: Reg, b: Reg)
    ensures Clash(code, info, seen + {n}, a, b) <==> Clash(code, info, seen, a, b) || ClashesAt(code, info, n, a, b)
  {
    if ClashesAt(code, info, n, a, b) {
      assert n in seen + {n};
    } else if Clash(code, info, seen, a, b) {
      var k :| k in seen && ClashesAt(code, info, k, a, b);
      assert k in seen + {n};
    }
  }

  lemma ClashesStep(e0: Adjacency, e1: Adjacency, code: Code, info: LivenessInfo, seen: set<Node>, n: Node)
    requires HasKeys(code, info) && n in code && EdgesAreClashes(e0, code, info, seen)
    requires AddsProduct(e0, e1, Defs(code[n]), LiveButSource(code[n], info.liveOut[n]))
    ensures EdgesAreClashes(e1, code, info, seen + {n})
  {
    forall a, b
      ensures Edge(e1, a, b) <==> Clash(code, info, seen + {n}, a, b) || Clash(code, info, seen + {n}, b, a)
    {
      ClashStep(code, info, seen, n, a, b);
      ClashStep(code, info, seen, n, b, a);
      assert Edge(e0, a, b) <==> Clash(code, info, seen, a, b) || Clash(code, info, seen, b, a);
    }
  }

  /** Every written register clashes with the registers live after the instruction. */
  method AddClashes(g: InterferenceGraph, code: Code, info: LivenessInfo)
    requires g.Valid() && HasKeys(code, info)
    requires AllDefs(code) <= g.nodes && forall n | n in code :: info.liveOut[n] <= g.nodes
    requires NoEdges(g.edges)
    requires g.liveAcrossCalls == {}
    modifies g
    ensures g.Valid() && g.nodes == old(g.nodes)
    ensures EdgesAreClashes(g.edges, code, info, code.Keys)
    ensures SameAdj(old(g.preferences), g.preferences)
    ensures g.liveAcrossCalls == LiveOutOfCalls(code, info, code.Keys)
  {
    var todo := code.Keys;
    ghost var seen := {};
    while todo != {}
      invariant g.Valid() && g.nodes == old(g.nodes) && seen + todo == code.Keys
      invariant EdgesAreClashes(g.edges, code, info, seen)
      invariant SameAdj(old(g.preferences), g.preferences)
      invariant g.liveAcrossCalls == LiveOutOfCalls(code, info, seen)
      decreases todo
    {
      var n :| n in todo;
      todo := todo - {n};
      ghost var before := g.edges;
      AddProduct(g, Defs(code[n]), LiveButSource(code[n], info.liveOut[n]));
      ClashesStep(before, g.edges, code, info, seen, n);
      seen := seen + {n};
      if IsCall(code[n]) {
        g.liveAcrossCalls := g.liveAcrossCalls + info.liveOut[n];
      }
    }
  }

  method AddProduct(g: InterferenceGraph, defs: set<Reg>, live: set<Reg>)
    requires g.Valid() && live <= g.nodes && defs <= g.nodes
    modifies g`nodes, g`edges, g`preferences
    ensures g.Valid() && g.nodes == old(g.nodes)
    ensures AddsProduct(old(g.edges), g.edges, defs, live)
    ensures SameAdj(old(g.preferences), g.preferences)
  {
    var todo := defs;
    while todo != {}
      invariant g.Valid() && g.nodes == old(g.nodes) && todo <= defs
      invariant AddsProduct(old(g.edges), g.edges, defs - todo, live)
      invariant SameAdj(old(g.preferences), g.preferences)
      decreases todo
    {
      var d :| d in todo;
      ghost var before := g.edges;
      g.AddEdges(d, live);
      AddsProductStep(old(g.edges), before, g.edges, defs - todo, d, live);
      assert defs - (todo - {d}) == (defs - todo) + {d};
      todo := todo - {d};
    }
    assert defs - todo == defs;
  }

  method IsUsed(code: Code, r: Reg) returns (used: bool)
    ensures used <==> r in AllUses(code)
  {
    var todo := code.Keys;
    while todo != {}
      invariant todo <= code.Keys
      invariant forall n | n in code && n !in todo :: r !in Uses(code[n])
      decreases todo
    {
      var n :| n in todo;
      if r in Uses(code[n]) {
        return true;
      }
      todo := todo - {n};
    }
    return false;
  }

  ghost predicate AddsParamClashes(edges: Adjacency, next: Adjacency, fn: Function, ps: set<Reg>) {
    forall a, b :: Edge(next, a, b) <==> Edge(edges, a, b) || ParamClash(fn, ps, a, b) || ParamClash(fn, ps, b, a)
  }

  lemma ParamClashStep(e0: Adjacency, e1: Adjacency, e2: Adjacency, fn: Function, ps: set<Reg>, p: Reg)
    requires AddsParamClashes(e0, e1, fn, ps) && p in AllRegs(fn)
    requires if p in AllUses(fn.code) then Extends(e1, e2, p, AllRegs(fn)) else e1 == e2
    ensures AddsParamClashes(e0, e2, fn, ps + {p})
  {
    forall a, b
      ensures Edge(e2, a, b) <==> Edge(e0, a, b) || ParamClash(fn, ps + {p}, a, b) || ParamClash(fn, ps + {p}, b, a)
    {
      assert Edge(e1, a, b) <==> Edge(e0, a, b) || ParamClash(fn, ps, a, b) || ParamClash(fn, ps, b, a);
    }
  }

  method AddParamClashes(g: InterferenceGraph, fn: Function)
    requires g.Valid() && g.nodes == AllRegs(fn)
    modifies g`nodes, g`edges, g`preferences
    ensures g.Valid() && g.nodes == old(g.nodes)
    ensures AddsParamClashes(old(g.edges), g.edges, fn, Elements(fn.params))
    ensures SameAdj(old(g.preferences), g.preferences)
  {
    for k := 0 to |fn.params|
      invariant g.Valid() && g.nodes == AllRegs(fn)
      invariant AddsParamClashes(old(g.edges), g.edges, fn, Elements(fn.params[..k]))
      invariant SameAdj(old(g.preferences), g.preferences)
    {
      var p := fn.params[k];
      assert p in AllRegs(fn);
      var used := IsUsed(fn.code, p);
      ghost var before := g.edges;
      if used {
        g.AddEdges(p, g.nodes);
      }
      ParamClashStep(old(g.edges), before, g.edges, fn, Elements(fn.params[..k]), p);
      assert Elements(fn.params[..k + 1]) == Elements(fn.params[..k]) + {p};
    }
    assert fn.params[..|fn.params|] == fn.params;
  }

  ghost predicate PreferencesAreMoves(prefs: Adjacency, code: Code, seen: set<Node>) {
    forall a, b :: Edge(prefs, a, b) <==> MoveBetween(code, seen, a, b)
  }

  lemma PreferenceStep(p0: Adjacency, p1: Adjacency, code: Code, seen: set<Node>, n: Node)
    requires n in code && PreferencesAreMoves(p0, code, seen)
    requires var i := code[n];
      if IsMove(i) && |i.args| == 1 && i.dest != i.args[0] then Extends(p0, p1, i.dest, {i.args[0]}) else SameAdj(p0, p1)
    ensures PreferencesAreMoves(p1, code, seen + {n})
  {
    forall a, b
      ensures Edge(p1, a, b) <==> MoveBetween(code, seen + {n}, a, b)
    {
      assert Edge(p0, a, b) <==> MoveBetween(code, seen, a, b);
      if MoveAt(code, n, a, b) || MoveAt(code, n, b, a) {
        assert n in seen + {n};
      } else if MoveBetween(code, seen, a, b) {
        var k :| k in seen && (MoveAt(code, k, a, b) || MoveAt(code, k, b, a));
        assert k in seen + {n};
      }
    }
  }

  /** A preference for the two sides of a move. */
  method AddPreferenceAt(g: InterferenceGraph, fn: Function, n: Node, ghost seen: set<Node>)
    requires g.Valid() && g.nodes == AllRegs(fn) && n in fn.code
    requires PreferencesAreMoves(g.preferences, fn.code, seen)
    modifies g`nodes, g`edges, g`preferences
    ensures g.Valid() && g.nodes == old(g.nodes)
    ensures SameAdj(old(g.edges), g.edges)
    ensures PreferencesAreMoves(g.preferences, fn.code, seen + {n})
  {
    var i := fn.code[n];
    if IsMove(i) && |i.args| == 1 {
      assert i.dest in Defs(i) && i.args[0] in Uses(i);
      assert i.dest in AllRegs(fn) && i.args[0] in AllRegs(fn);
      g.AddPreference(i.dest, i.args[0]);
    }
    PreferenceStep(old(g.preferences), g.preferences, fn.code, seen, n);
  }

  method AddPreferences(g: InterferenceGraph, fn: Function)
    requires g.Valid() && g.nodes == AllRegs(fn)
    requires NoEdges(g.preferences)
    modifies g`nodes, g`edges, g`preferences
    ensures g.Valid() && g.nodes == old(g.nodes)
    ensures SameAdj(old(g.edges), g.edges)
    ensures PreferencesAreMoves(g.preferences, fn.code, fn.code.Keys)
  {
    var todo := fn.code.Keys;
    ghost var seen := {};
    while todo != {}
      invariant g.Valid() && g.nodes == old(g.nodes) && seen + todo == fn.code.Keys
      invariant SameAdj(old(g.edges), g.edges)
      invariant PreferencesAreMoves(g.preferences, fn.code, seen)
      decreases todo
    {
      var n :| n in todo;
      todo := todo - {n};
      AddPreferenceAt(g, fn, n, seen);
      seen := seen + {n};
    }
  }

  method BuildInterferenceGraph(fn: Function, info: LivenessInfo) returns (g: InterferenceGraph)
    requires IsSolution(fn.code, info) && IsLeast(fn.code, info)
    ensures fresh(g) && g.Valid()
    ensures g.nodes == AllRegs(fn)
    ensures forall a, b :: Edge(g.edges, a, b) <==> Interferes(fn, info, a, b)
    ensures forall a, b :: Edge(g.preferences, a, b) <==> MoveBetween(fn.code, fn.code.Keys, a, b)
    ensures g.liveAcrossCalls == LiveOutOfCalls(fn.code, info, fn.code.Keys)
  {
    LiveIsUsed(fn.code, info);
    g := new InterferenceGraph();
    AddAllNodes(g, fn);
    AddClashes(g, fn.code, info);
    AddParamClashes(g, fn);
    AddPreferences(g, fn);
  }
}
