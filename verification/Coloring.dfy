/** Assigning colours and spill slots to the merged interference graph (pkg/regalloc/irc.go,
    assignColors and buildResult), on values. */
module Coloring {
  import opened Values
  import opened RTL
  import opened Liveness
  import opened Interference
  import opened Conventions
  import opened Coalescing
  import opened Params
  import L = LTL

  datatype Colors = Colors(color: map<Reg, nat>, colored: set<Reg>, slot: map<Reg, int>, spilled: set<Reg>, next: int)

  type Places = map<Reg, L.Loc>

  /** The colours of the registers that r interferes with. */
  ghost function Taken(g: Merge, c: Colors, r: Reg): set<nat>
    requires Descends(g.coalesced, g.alias) && c.colored <= c.color.Keys
  {
    set n | n in Adj(g.edges, r) && Rep(g.coalesced, g.alias, n) in c.colored :: c.color[Rep(g.coalesced, g.alias, n)]
  }

  ghost predicate SlotsOk(c: Colors) {
    && c.spilled <= c.slot.Keys && 0 <= c.next && c.next % 8 == 0
    && (forall r | r in c.spilled :: 0 <= c.slot[r] < c.next && c.slot[r] % 8 == 0)
    && (forall a, b | a in c.spilled && b in c.spilled && a != b :: c.slot[a] != c.slot[b])
  }

  ghost predicate ColorsOk(g: Merge, pre: Places, c: Colors) {
    && c.colored <= c.color.Keys
    && (forall r | r in c.colored :: c.color[r] < K)
    && (forall a, b | Edge(g.edges, a, b) && a in c.colored && b in c.colored && a !in g.coalesced && b !in g.coalesced ::
          c.color[a] != c.color[b])
    && (forall r | r in c.colored && r in g.lac && r !in pre :: c.color[r] >= FIRST_CALLEE_SAVED_COLOR)
    && (forall p | p in pre && pre[p].R? :: p in c.colored)
  }

  /** No two interfering registers have one colour, and no two registers share a spill slot. */
  ghost predicate GoodColors(g: Merge, pre: Places, c: Colors) {
    SlotsOk(c) && ColorsOk(g, pre, c)
  }

  /** The parameters in registers have the colours of their registers. */
  ghost predicate PlacesKept(pre: Places, c: Colors) {
    forall p | p in pre && pre[p].R? :: p in c.color && c.color[p] == pre[p].reg
  }

  function Painted(c: Colors, r: Reg, k: nat): Colors {
    c.(color := c.color[r := k], colored := c.colored + {r})
  }

  function Spilled(c: Colors, r: Reg): Colors {
    c.(slot := c.slot[r := c.next], spilled := c.spilled + {r}, next := c.next + 8)
  }

  /** d is c with r placed: in the first colour from `start` that is not taken, or in a new slot when
      `choice` is negative and every colour is taken. */
  ghost predicate Placed(c: Colors, d: Colors, r: Reg, taken: set<nat>, start: nat, choice: int) {
    if choice < 0 then
      d == Spilled(c, r) && forall k: nat | start <= k < K :: k in taken
    else
      start <= choice < K && d == Painted(c, r, choice) && choice !in taken && forall j: nat | start <= j < choice :: j in taken
  }

  lemma PaintKeepsGood(g: Merge, pre: Places, c: Colors, r: Reg, k: nat)
    requires Sound(g) && GoodColors(g, pre, c)
    requires k < K && k !in Taken(g, c, r) && (r in g.lac ==> k >= FIRST_CALLEE_SAVED_COLOR)
    ensures GoodColors(g, pre, Painted(c, r, k))
  {
    var d := Painted(c, r, k);
    forall a, b | Edge(g.edges, a, b) && a in d.colored && b in d.colored && a !in g.coalesced && b !in g.coalesced
      ensures d.color[a] != d.color[b]
    {
      assert Edge(g.edges, b, a) && a != b;
      assert b in Adj(g.edges, a) && a in Adj(g.edges, b);
      if a == r {
        assert c.color[b] in Taken(g, c, r);
      } else if b == r {
        assert c.color[a] in Taken(g, c, r);
      }
    }
  }

  lemma SpillKeepsGood(g: Merge, pre: Places, c: Colors, r: Reg)
    requires GoodColors(g, pre, c)
    ensures GoodColors(g, pre, Spilled(c, r))
  {
  }

  /** For a parameter that is read, exactly the colours below its own are forced out: the first free
      colour is the register it arrived in. */
  lemma ParamGetsItsColor(read: set<Reg>, unread: set<Reg>, lac0: set<Reg>, g: Merge, pre: Places, c: Colors, p: Reg)
    requires Sound(g) && ParamsApart(read, unread, lac0, g)
    requires DensePlaces(pre, g.nodes) && pre.Keys <= read + unread
    requires GoodColors(g, pre, c) && PlacesKept(pre, c)
    requires p in pre && pre[p].R? && p in read
    ensures pre[p].reg !in Taken(g, c, p) && forall j: nat | j < pre[p].reg :: j in Taken(g, c, p)
  {
    var i := pre[p].reg;
    forall j: nat | j < i
      ensures j in Taken(g, c, p)
    {
      assert HeldBy(pre, g.nodes, j);
      var q :| q in pre && pre[q] == L.R(j) && q in g.nodes;
      assert Edge(g.edges, p, q);
      assert q !in g.coalesced;
      assert c.color[Rep(g.coalesced, g.alias, q)] in Taken(g, c, p);
    }
    forall n | n in Adj(g.edges, p) && Rep(g.coalesced, g.alias, n) in c.colored
      ensures c.color[Rep(g.coalesced, g.alias, n)] != i
    {
      assert Edge(g.edges, p, n);
      assert RepsApart(g, p, n);
      assert p !in g.coalesced;
      var q := Rep(g.coalesced, g.alias, n);
      assert Edge(g.edges, p, q);
    }
  }

  /** Every node has been dealt with. */
  ghost predicate AllPlaced(g: Merge, pre: Places, c: Colors) {
    forall r | r in g.nodes :: r in g.coalesced || r in pre || r in c.colored || r in c.spilled
  }

  /** What the merged register r inherits from its representative. */
  ghost predicate Inherits(g: Merge, pre: Places, c: Colors, pre': Places, d: Colors, r: Reg)
    requires Descends(g.coalesced, g.alias)
  {
    var q := Rep(g.coalesced, g.alias, r);
    if q in c.colored then
      && q in c.color && r in d.colored && r in d.color && d.color[r] == c.color[q]
      && (r in d.spilled <==> r in c.spilled) && SameAt(c.slot, d.slot, r) && SameAt(pre, pre', r)
    else if q in c.spilled then
      && q in c.slot && r in d.spilled && r in d.slot && d.slot[r] == c.slot[q]
      && (r in d.colored <==> r in c.colored) && SameAt(c.color, d.color, r) && SameAt(pre, pre', r)
    else if q in pre then
      && r in pre' && pre'[r] == pre[q]
      && (r in d.colored <==> r in c.colored) && SameAt(c.color, d.color, r)
      && (r in d.spilled <==> r in c.spilled) && SameAt(c.slot, d.slot, r)
    else
      Unchanged(pre, c, pre', d, r)
  }

  ghost predicate SameAt<T>(m: map<Reg, T>, m': map<Reg, T>, r: Reg) {
    (r in m <==> r in m') && (r in m ==> m[r] == m'[r])
  }

  ghost predicate Unchanged(pre: Places, c: Colors, pre': Places, d: Colors, r: Reg) {
    && (r in d.colored <==> r in c.colored) && SameAt(c.color, d.color, r)
    && (r in d.spilled <==> r in c.spilled) && SameAt(c.slot, d.slot, r) && SameAt(pre, pre', r)
  }

  /** The copying of places from representatives, done for the registers of `done`. */
  ghost predicate Copied(g: Merge, pre: Places, c: Colors, pre': Places, d: Colors, done: set<Reg>)
    requires Descends(g.coalesced, g.alias)
  {
    && d.next == c.next
    && forall r: Reg :: if r in done then Inherits(g, pre, c, pre', d, r) else Unchanged(pre, c, pre', d, r)
  }

  /** Where buildResult puts r: a fixed place comes first, then a spill slot, then a colour. */
  ghost function PlaceOf(pre: Places, d: Colors, r: Reg): Option<L.Loc> {
    if r in pre then Some(pre[r])
    else if r in d.spilled && r in d.slot then Some(L.S(L.SlotLocal, d.slot[r], L.Tlong))
    else if r in d.colored && r in d.color && d.color[r] < K then Some(L.R(Register(d.color[r])))
    else None
  }

  /** The place of r comes from the spill slot of `owner`, from the colour of its representative, or from
      the parameter that represents it. */
  datatype Origin = FromSlot(owner: Reg) | FromColor | FromParam

  ghost predicate ComesFrom(g: Merge, pre: Places, c: Colors, r: Reg, place: Option<L.Loc>, origin: Origin)
    requires Descends(g.coalesced, g.alias)
  {
    var q := Rep(g.coalesced, g.alias, r);
    match origin
    case FromSlot(w) =>
      && w in c.spilled && w in c.slot && Rep(g.coalesced, g.alias, w) == q
      && place == Some(L.S(L.SlotLocal, c.slot[w], L.Tlong))
    case FromColor => q in c.colored && q in c.color && c.color[q] < K && place == Some(L.R(Register(c.color[q])))
    case FromParam => q in pre && pre[q].S? && place == Some(pre[q])
  }

  lemma WhereFrom(g: Merge, pre: Places, c: Colors, pre': Places, d: Colors, r: Reg) returns (origin: Origin)
    requires Sound(g) && r in g.nodes
    requires ArgPlaces(pre)
      && GoodColors(g, pre, c) && AllPlaced(g, pre, c) && Copied(g, pre, c, pre', d, g.coalesced)
      && (r in pre ==> r !in g.coalesced && PlacesKept(pre, c))
    ensures ComesFrom(g, pre, c, r, PlaceOf(pre', d, r), origin)
  {
    var q := Rep(g.coalesced, g.alias, r);
    if r in pre {
      assert Unchanged(pre, c, pre', d, r);
      if pre[r].R? {
        assert c.color[r] == pre[r].reg < NUM_ARG_REGS;
        RegistersDiffer(c.color[r], c.color[r]);
        origin := FromColor;
      } else {
        origin := FromParam;
      }
    } else if r !in g.coalesced {
      assert Unchanged(pre, c, pre', d, r);
      origin := if r in c.spilled then FromSlot(r) else FromColor;
    } else {
      assert Inherits(g, pre, c, pre', d, r);
      RepInNodes(g, r);
      if q in c.colored {
        origin := if r in c.spilled then FromSlot(r) else FromColor;
      } else if q in c.spilled {
        origin := FromSlot(q);
      } else {
        assert q in pre;
        origin := FromParam;
      }
    }
  }

  /** Proper colouring: interfering registers get different places.  Only parameters with a fixed place
      need a side condition. */
  lemma InterferingPlacesDiffer(g: Merge, pre: Places, c: Colors, pre': Places, d: Colors, a: Reg, b: Reg)
    requires Sound(g) && Edge(g.edges, a, b)
    requires ArgPlaces(pre)
      && GoodColors(g, pre, c) && AllPlaced(g, pre, c) && Copied(g, pre, c, pre', d, g.coalesced)
      && (a in pre || b in pre ==> g.coalesced !! pre.Keys && PlacesKept(pre, c))
    ensures PlaceOf(pre', d, a).Some? && PlaceOf(pre', d, b).Some? && PlaceOf(pre', d, a) != PlaceOf(pre', d, b)
  {
    assert Edge(g.edges, b, a);
    var x := WhereFrom(g, pre, c, pre', d, a);
    var y := WhereFrom(g, pre, c, pre', d, b);
    assert RepsApart(g, a, b);
    var p, q := Rep(g.coalesced, g.alias, a), Rep(g.coalesced, g.alias, b);
    if x.FromColor? && y.FromColor? {
      assert c.color[p] != c.color[q];
      RegistersDiffer(c.color[p], c.color[q]);
    } else if x.FromParam? && y.FromParam? {
      assert pre[p] != pre[q];
    }
  }

  /** A register that is a colour, or a slot for a word; outgoing slots are for calls only. */
  predicate IsPlace(l: L.Loc) {
    match l
    case R(r) => IsAllocatable(r)
    case S(slot, _, _) => slot != L.SlotOutgoing && IsWordSlot(l)
    case Nowhere => false
  }

  /** Totality: every register has a place, a register or one of the caller's or the function's slots. */
  lemma EveryRegisterPlaced(g: Merge, pre: Places, c: Colors, pre': Places, d: Colors, r: Reg)
    requires Sound(g) && r in g.nodes
    requires ArgPlaces(pre) && GoodColors(g, pre, c) && AllPlaced(g, pre, c) && Copied(g, pre, c, pre', d, g.coalesced)
    ensures PlaceOf(pre', d, r).Some?
    ensures IsPlace(PlaceOf(pre', d, r).value)
  {
    if r in pre {
      if r in g.coalesced {
        assert Inherits(g, pre, c, pre', d, r);
      } else {
        assert Unchanged(pre, c, pre', d, r);
      }
    } else {
      var x := WhereFrom(g, pre, c, pre', d, r);
      if x.FromColor? {
        ColorIsAllocatable(c.color[Rep(g.coalesced, g.alias, r)]);
      }
    }
  }

  predicate SurvivesCall(l: L.Loc) {
    (l.R? && L.IsCalleeSaved(l.reg)) || (l.S? && l.slot == L.SlotLocal)
  }

  /** Call safety: a register live across a call gets a callee-saved register or a slot of its own. */
  lemma CrossingPlaceSurvives(g: Merge, pre: Places, c: Colors, pre': Places, d: Colors, r: Reg)
    requires Sound(g) && r in g.nodes && r in g.lac
    requires ArgPlaces(pre) && GoodColors(g, pre, c) && AllPlaced(g, pre, c) && Copied(g, pre, c, pre', d, g.coalesced)
    requires Rep(g.coalesced, g.alias, r) !in pre && r !in pre
    ensures PlaceOf(pre', d, r).Some? && SurvivesCall(PlaceOf(pre', d, r).value)
  {
    var q := Rep(g.coalesced, g.alias, r);
    assert q in g.lac;
    var x := WhereFrom(g, pre, c, pre', d, r);
    if x.FromColor? {
      RegistersDiffer(c.color[q], c.color[q]);
    }
  }

  /** Copying keeps every coloured register with a colour and every spilled one with a slot. */
  ghost predicate Complete(d: Colors) {
    && d.colored <= d.color.Keys && d.spilled <= d.slot.Keys
    && forall r | r in d.colored :: d.color[r] < K
  }

  lemma CopiedComplete(g: Merge, pre: Places, c: Colors, pre': Places, d: Colors)
    requires Sound(g) && GoodColors(g, pre, c) && Copied(g, pre, c, pre', d, g.coalesced)
    ensures Complete(d)
  {
    forall r | r in d.colored
      ensures r in d.color && d.color[r] < K
    {
      if r in g.coalesced { assert Inherits(g, pre, c, pre', d, r); } else { assert Unchanged(pre, c, pre', d, r); }
    }
    forall r | r in d.spilled
      ensures r in d.slot
    {
      if r in g.coalesced { assert Inherits(g, pre, c, pre', d, r); } else { assert Unchanged(pre, c, pre', d, r); }
    }
  }

  /** A precoloured parameter that is not merged stays where it arrived. */
  lemma ParamStays(g: Merge, pre: Places, c: Colors, pre': Places, d: Colors, p: Reg)
    requires Sound(g) && Copied(g, pre, c, pre', d, g.coalesced) && p in pre && p !in g.coalesced
    ensures PlaceOf(pre', d, p) == Some(pre[p])
  {
    assert Unchanged(pre, c, pre', d, p);
  }

  /** At the start only the parameters that arrive in registers are coloured, each with its own register. */
  lemma InitialColorsGood(params: seq<Reg>, lac: set<Reg>, g: Merge)
    requires IsUndirected(g.nodes, g.edges)
    ensures var pre := Precolored(params, lac);
      var c := Colors(InitialColors(pre), InitialColors(pre).Keys, map[], {}, 0);
      GoodColors(g, pre, c) && PlacesKept(pre, c)
  {
    var pre := Precolored(params, lac);
    var color := InitialColors(pre);
    forall a, b | a in color && b in color && a != b
      ensures color[a] != color[b]
    {
      PrecoloredDiffer(params, lac, a, b);
    }
    forall r | r in color
      ensures color[r] < K
    {
      assert pre[r] == ArgLocation(LastIndex(params, r));
    }
  }

  /** The effect of copying the place of q to r. */
  ghost function CopiedFrom(pre: Places, c: Colors, r: Reg, q: Reg): (Places, Colors) {
    if q in c.colored && q in c.color then
      (pre, c.(color := c.color[r := c.color[q]], colored := c.colored + {r}))
    else if q in c.spilled && q in c.slot then
      (pre, c.(slot := c.slot[r := c.slot[q]], spilled := c.spilled + {r}))
    else if q in pre then
      (pre[r := pre[q]], c)
    else
      (pre, c)
  }

  /** Representatives are never merged themselves, so the order of copying does not matter. */
  lemma CopyStep(g: Merge, pre: Places, c: Colors, pre1: Places, c1: Colors, done: set<Reg>, r: Reg)
    requires Sound(g) && r in g.coalesced && r !in done && done <= g.coalesced
    requires Copied(g, pre, c, pre1, c1, done)
    requires c.colored <= c.color.Keys && c.spilled <= c.slot.Keys
    ensures var d := CopiedFrom(pre1, c1, r, Rep(g.coalesced, g.alias, r));
      && Copied(g, pre, c, d.0, d.1, done + {r})
      && (c1.colored <= c1.color.Keys ==> d.1.colored <= d.1.color.Keys)
      && (c1.spilled <= c1.slot.Keys ==> d.1.spilled <= d.1.slot.Keys)
  {
    var q := Rep(g.coalesced, g.alias, r);
    var d := CopiedFrom(pre1, c1, r, q);
    assert Unchanged(pre, c, pre1, c1, q);
    assert Unchanged(pre, c, pre1, c1, r);
    forall x: Reg
      ensures if x in done + {r} then Inherits(g, pre, c, d.0, d.1, x) else Unchanged(pre, c, d.0, d.1, x)
    {
      if x != r {
        assert if x in done then Inherits(g, pre, c, pre1, c1, x) else Unchanged(pre, c, pre1, c1, x);
      }
    }
  }

  // --- Which registers are not spilled ---

  /** The first colour that r may have. */
  function StartColor(g: Merge, r: Reg): nat {
    if r in g.lac then FIRST_CALLEE_SAVED_COLOR else 0
  }

  ghost predicate PlacedNext(g: Merge, c: Colors, d: Colors, r: Reg)
    requires Descends(g.coalesced, g.alias)
  {
    c.colored <= c.color.Keys && exists choice :: Placed(c, d, r, Taken(g, c, r), StartColor(g, r), choice)
  }

  ghost predicate PlacedAt(g: Merge, stack: seq<Reg>, trace: seq<Colors>, i: nat)
    requires Descends(g.coalesced, g.alias) && i < |stack| && i < |trace| - 1
  {
    PlacedNext(g, trace[i], trace[i + 1], stack[|stack| - 1 - i])
  }

  /** The registers of the stack have been placed, the last one first: each has the first colour that it may have and that no
      neighbour has, or else a slot. */
  ghost predicate PlacedInTurn(g: Merge, stack: seq<Reg>, trace: seq<Colors>)
    requires Descends(g.coalesced, g.alias)
  {
    |trace| == |stack| + 1 && PlacedSoFar(g, stack, trace)
  }

  ghost predicate PlacedSoFar(g: Merge, stack: seq<Reg>, trace: seq<Colors>)
    requires Descends(g.coalesced, g.alias)
  {
    forall i: nat | i < |stack| && i < |trace| - 1 :: PlacedAt(g, stack, trace, i)
  }

  lemma OneMorePlaced(g: Merge, stack: seq<Reg>, trace: seq<Colors>, c: Colors, r: Reg)
    requires Descends(g.coalesced, g.alias) && 0 < |trace| <= |stack| && r == stack[|stack| - |trace|]
    requires PlacedSoFar(g, stack, trace) && PlacedNext(g, trace[|trace| - 1], c, r)
    ensures PlacedSoFar(g, stack, trace + [c])
  {
    forall i: nat | i < |trace + [c]| - 1
      ensures PlacedAt(g, stack, trace + [c], i)
    {
      if i < |trace| - 1 {
        assert PlacedAt(g, stack, trace, i);
      }
    }
  }

  /** The register at position i had few neighbours when it was pushed, and it was pushed once. */
  ghost predicate FewAt(edges: Adjacency, stack: seq<Reg>, i: nat)
    requires i < |stack|
  {
    stack[i] !in stack[..i] && |Adj(edges, stack[i]) - Elements(stack[..i])| < K
  }

  ghost predicate FewBefore(edges: Adjacency, stack: seq<Reg>) {
    forall i: nat :: i < |stack| ==> FewAt(edges, stack, i)
  }

  lemma {:induction false} ManyColors(start: nat, taken: set<nat>)
    requires start <= K && forall k: nat | start <= k < K :: k in taken
    ensures |taken| >= K - start
    decreases K - start
  {
    if start < K {
      forall k: nat | start + 1 <= k < K
        ensures k in taken - {start}
      {
      }
      ManyColors(start + 1, taken - {start});
    }
  }

  /** The neighbours of r that have a colour, or whose representatives have one. */
  ghost function Holders(g: Merge, c: Colors, r: Reg): set<Reg>
    requires Descends(g.coalesced, g.alias)
  {
    set n | n in Adj(g.edges, r) && Rep(g.coalesced, g.alias, n) in c.colored
  }

  lemma {:induction false} ColorsOfFew(g: Merge, c: Colors, ns: set<Reg>, taken: set<nat>)
    requires Descends(g.coalesced, g.alias) && c.colored <= c.color.Keys
    requires forall n | n in ns :: Rep(g.coalesced, g.alias, n) in c.colored
    requires taken == set n | n in ns :: c.color[Rep(g.coalesced, g.alias, n)]
    ensures |taken| <= |ns|
    decreases |ns|
  {
    if n :| n in ns {
      var rest := ns - {n};
      var fewer := set m | m in rest :: c.color[Rep(g.coalesced, g.alias, m)];
      ColorsOfFew(g, c, rest, fewer);
      assert taken == fewer + {c.color[Rep(g.coalesced, g.alias, n)]};
    }
  }

  lemma FewTaken(g: Merge, c: Colors, r: Reg)
    requires Descends(g.coalesced, g.alias) && c.colored <= c.color.Keys
    ensures |Taken(g, c, r)| <= |Holders(g, c, r)|
  {
    var taken := set n | n in Holders(g, c, r) :: c.color[Rep(g.coalesced, g.alias, n)];
    assert taken == Taken(g, c, r);
    ColorsOfFew(g, c, Holders(g, c, r), taken);
  }

  /** A register is spilled only if its neighbours have enough colours. */
  lemma NotSpilledNext(g: Merge, c: Colors, d: Colors, r: Reg)
    requires Descends(g.coalesced, g.alias) && PlacedNext(g, c, d, r)
    requires |Holders(g, c, r)| + StartColor(g, r) < K
    ensures d.spilled == c.spilled && d.colored == c.colored + {r}
  {
    var choice :| Placed(c, d, r, Taken(g, c, r), StartColor(g, r), choice);
    FewTaken(g, c, r);
    if choice < 0 {
      ManyColors(StartColor(g, r), Taken(g, c, r));
    }
  }

  /** A register with few neighbours is not spilled. */
  lemma {:induction false} FewNotSpilled(g: Merge, stack: seq<Reg>, trace: seq<Colors>, r: Reg, i: nat)
    requires Descends(g.coalesced, g.alias) && PlacedInTurn(g, stack, trace) && i <= |stack|
    requires |Adj(g.edges, r)| + StartColor(g, r) < K && r !in trace[0].spilled
    ensures r !in trace[i].spilled
  {
    if i > 0 {
      FewNotSpilled(g, stack, trace, r, i - 1);
      assert PlacedAt(g, stack, trace, i - 1);
      if stack[|stack| - i] == r {
        SubsetSize(Holders(g, trace[i - 1], r), Adj(g.edges, r));
        NotSpilledNext(g, trace[i - 1], trace[i], r);
      }
    }
  }

  /** What is above a register on the stack is not below it. */
  lemma AboveIsNotBelow(edges: Adjacency, stack: seq<Reg>, i: nat)
    requires FewBefore(edges, stack) && i < |stack|
    ensures Elements(stack[i + 1..]) !! Elements(stack[..i])
  {
    forall j: nat | i < j < |stack|
      ensures stack[j] !in stack[..i]
    {
      assert FewAt(edges, stack, j);
      assert stack[..i] == stack[..j][..i];
    }
  }

  lemma HoldersAreAbove(g: Merge, stack: seq<Reg>, c: Colors, i: nat)
    requires g.coalesced == {} && FewBefore(g.edges, stack) && i < |stack| && c.colored <= Elements(stack[i + 1..])
    ensures |Holders(g, c, stack[i])| < K
  {
    AboveIsNotBelow(g.edges, stack, i);
    assert FewAt(g.edges, stack, i);
    SubsetSize(Holders(g, c, stack[i]), Adj(g.edges, stack[i]) - Elements(stack[..i]));
  }

  /** If nothing is coloured at first, and every register had few neighbours when it was pushed, only registers that are live
      across calls are spilled. */
  lemma {:induction false} SimplifiedNotSpilled(g: Merge, stack: seq<Reg>, trace: seq<Colors>, i: nat)
    requires g.coalesced == {} && FewBefore(g.edges, stack) && PlacedInTurn(g, stack, trace) && i <= |stack|
    requires trace[0].colored == {} && trace[0].spilled == {}
    ensures trace[i].colored <= Elements(stack[|stack| - i..]) && trace[i].spilled <= g.lac
  {
    if i > 0 {
      SimplifiedNotSpilled(g, stack, trace, i - 1);
      assert PlacedAt(g, stack, trace, i - 1);
      var at := |stack| - i;
      assert stack[at..] == [stack[at]] + stack[at + 1..];
      ElementsAppend([stack[at]], stack[at + 1..]);
      if stack[at] !in g.lac {
        HoldersAreAbove(g, stack, trace[i - 1], at);
        NotSpilledNext(g, trace[i - 1], trace[i], stack[at]);
      }
    }
  }

  /** A register that is not merged, has no place of its own and is not spilled is in a register. */
  lemma ColoredIsInRegister(g: Merge, pre: Places, c: Colors, pre': Places, d: Colors, r: Reg)
    requires Sound(g) && r in g.nodes && r !in g.coalesced && r !in pre && r !in c.spilled
    requires GoodColors(g, pre, c) && AllPlaced(g, pre, c) && Copied(g, pre, c, pre', d, g.coalesced)
    ensures PlaceOf(pre', d, r).Some? && PlaceOf(pre', d, r).value.R?
  {
    assert Unchanged(pre, c, pre', d, r);
  }
}
