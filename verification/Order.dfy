/** The order in which blocks are laid out (pkg/linearize/linearize.go, computeOrder): reverse postorder of a
    depth-first traversal. */
module Order {
  import opened LTL

  function BlockSuccessors(block: Block): seq<Node> {
    if block == [] then []
    else
      match block[|block| - 1]
      case Lbranch(succ) => [succ]
      case Lcond(_, _, ifso, ifnot) => [ifso, ifnot]
      case Ljumptable(_, targets) => targets
      case _ => []
  }

  function Succs(code: Code, n: Node): seq<Node> {
    if n in code then BlockSuccessors(code[n]) else []
  }

  ghost predicate IsPath(code: Code, p: seq<Node>) {
    p != [] && forall i | 0 <= i < |p| - 1 :: p[i + 1] in Succs(code, p[i])
  }

  ghost predicate Connects(code: Code, p: seq<Node>, a: Node, b: Node) {
    IsPath(code, p) && p[0] == a && p[|p| - 1] == b
  }

  /** There is a path, possibly empty, from a to b. */
  ghost predicate Reaches(code: Code, a: Node, b: Node) {
    exists p :: Connects(code, p, a, b)
  }

  lemma ReachesItself(code: Code, a: Node)
    ensures Reaches(code, a, a)
  {
    assert Connects(code, [a], a, a);
  }

  lemma ReachesFurther(code: Code, a: Node, b: Node, c: Node)
    requires Reaches(code, a, b) && c in Succs(code, b)
    ensures Reaches(code, a, c)
  {
    var p :| Connects(code, p, a, b);
    assert Connects(code, p + [c], a, c);
  }

  /** A set with a node and all successors of its members holds whatever the node reaches. */
  lemma {:induction false} ClosedUnderReach(code: Code, ns: set<Node>, p: seq<Node>)
    requires IsPath(code, p) && p[0] in ns
    requires forall n, s | n in ns && s in Succs(code, n) :: s in ns
    ensures p[|p| - 1] in ns
    decreases |p|
  {
    if |p| == 1 {
    } else {
      assert p[0 + 1] in Succs(code, p[0]);
      assert IsPath(code, p[1..]) by {
        forall i | 0 <= i < |p[1..]| - 1
          ensures p[1..][i + 1] in Succs(code, p[1..][i])
        {
          assert p[i + 1 + 1] in Succs(code, p[i + 1]);
        }
      }
      ClosedUnderReach(code, ns, p[1..]);
    }
  }

  ghost predicate AllReach(code: Code, ns: set<Node>, n: Node) {
    forall g | g in ns :: Reaches(code, g, n)
  }

  /** An edge goes on to a block finished earlier, or back to one that leads here, or nowhere. */
  ghost predicate EdgeSeen(code: Code, visited: set<Node>, before: seq<Node>, n: Node, s: Node) {
    s in visited && (s in code ==> s in before || Reaches(code, s, n))
  }

  ghost predicate Finished(code: Code, visited: set<Node>, postorder: seq<Node>, i: nat)
    requires i < |postorder|
  {
    forall s | s in Succs(code, postorder[i]) :: EdgeSeen(code, visited, postorder[..i], postorder[i], s)
  }

  /** The state of the traversal while the blocks in open are unfinished. */
  ghost predicate Traversed(code: Code, entry: Node, visited: set<Node>, postorder: seq<Node>, open: set<Node>) {
    && open <= visited
    && (forall i, j | 0 <= i < j < |postorder| :: postorder[i] != postorder[j])
    && (forall n | n in postorder :: n in code && n in visited && n !in open)
    && (forall n | n in visited :: Reaches(code, entry, n) && (n in code ==> n in postorder || n in open))
    && (forall i | 0 <= i < |postorder| :: Finished(code, visited, postorder, i))
  }

  /** The traversal went on from an earlier state. */
  ghost predicate Continues(visited0: set<Node>, postorder0: seq<Node>, visited: set<Node>, postorder: seq<Node>) {
    visited0 <= visited && postorder0 <= postorder
  }

  lemma FinishBlock(code: Code, entry: Node, visited: set<Node>, postorder: seq<Node>, open: set<Node>, n: Node)
    requires Traversed(code, entry, visited, postorder, open + {n}) && n !in open && n in code
    requires AllReach(code, open, n)
    requires forall s | s in Succs(code, n) :: s in visited
    ensures Traversed(code, entry, visited, postorder + [n], open)
  {
    var po := postorder + [n];
    ReachesItself(code, n);
    forall i | 0 <= i < |po|
      ensures Finished(code, visited, po, i)
    {
      assert po[..i] == postorder[..i];
      if i < |postorder| {
        assert Finished(code, visited, postorder, i);
      }
    }
  }

  lemma OpenBlock(code: Code, entry: Node, visited: set<Node>, postorder: seq<Node>, open: set<Node>, n: Node)
    requires Traversed(code, entry, visited, postorder, open) && n !in visited && Reaches(code, entry, n)
    ensures Traversed(code, entry, visited + {n}, postorder, open + {n})
    ensures n !in code ==> Traversed(code, entry, visited + {n}, postorder, open)
  {
    forall i | 0 <= i < |postorder|
      ensures Finished(code, visited + {n}, postorder, i)
    {
      assert Finished(code, visited, postorder, i);
    }
  }

  /** Every reachable block exactly once, the entry first, and every edge forward unless it closes a cycle. */
  ghost predicate IsOrder(code: Code, entry: Node, order: seq<Node>) {
    && (forall i, j | 0 <= i < j < |order| :: order[i] != order[j])
    && (forall n :: n in order <==> n in code && Reaches(code, entry, n))
    && (entry in code ==> order != [] && order[0] == entry)
    && (forall i, j | 0 <= i < |order| && 0 <= j < |order| && order[j] in Succs(code, order[i]) ::
          i < j || Reaches(code, order[j], order[i]))
  }

  ghost predicate IsReverse(a: seq<Node>, b: seq<Node>) {
    |a| == |b| && forall i | 0 <= i < |a| :: a[i] == b[|b| - 1 - i]
  }

  lemma VisitedIsReachable(code: Code, entry: Node, visited: set<Node>, postorder: seq<Node>)
    requires Traversed(code, entry, visited, postorder, {}) && entry in visited
    ensures forall n :: n in postorder <==> n in code && Reaches(code, entry, n)
  {
    forall n | n in code && Reaches(code, entry, n)
      ensures n in postorder
    {
      var p :| Connects(code, p, entry, n);
      forall v, s | v in visited && s in Succs(code, v)
        ensures s in visited
      {
        var i :| 0 <= i < |postorder| && postorder[i] == v;
        assert Finished(code, visited, postorder, i);
        assert EdgeSeen(code, visited, postorder[..i], v, s);
      }
      ClosedUnderReach(code, visited, p);
    }
  }

  lemma ReversedIsOrder(code: Code, entry: Node, visited: set<Node>, postorder: seq<Node>, order: seq<Node>)
    requires Traversed(code, entry, visited, postorder, {}) && entry in visited && IsReverse(order, postorder)
    requires entry in code ==> postorder != [] && postorder[|postorder| - 1] == entry
    ensures IsOrder(code, entry, order)
  {
    VisitedIsReachable(code, entry, visited, postorder);
    var last := |postorder| - 1;
    forall n
      ensures n in order <==> n in postorder
    {
      if n in postorder {
        var i :| 0 <= i < |postorder| && postorder[i] == n;
        assert order[last - i] == n;
      }
    }
    forall i, j | 0 <= i < |order| && 0 <= j < |order| && order[j] in Succs(code, order[i])
      ensures i < j || Reaches(code, order[j], order[i])
    {
      var p, q := last - i, last - j;
      assert order[i] == postorder[p] && order[j] == postorder[q];
      assert Finished(code, visited, postorder, p);
      assert EdgeSeen(code, visited, postorder[..p], postorder[p], postorder[q]);
      if order[j] in postorder[..p] {
        var r :| 0 <= r < p && postorder[r] == postorder[q];
        assert r == q;
      }
    }
  }

  /** The variables of the traversal. */
  class Traversal {
    const code: Code
    const entry: Node
    var visited: set<Node>
    var postorder: seq<Node>

    constructor (code: Code, entry: Node)
      ensures this.code == code && this.entry == entry && visited == {} && postorder == []
    {
      this.code, this.entry := code, entry;
      visited, postorder := {}, [];
    }

    ghost predicate Valid(open: set<Node>)
      reads this
    {
      Traversed(code, entry, visited, postorder, open)
    }

    method Dfs(n: Node, ghost open: set<Node>)
      requires Valid(open) && AllReach(code, open, n) && Reaches(code, entry, n)
      modifies this
      ensures Valid(open) && n in visited
      ensures Continues(old(visited), old(postorder), visited, postorder)
      ensures n in code && n !in old(visited) ==> postorder != [] && postorder[|postorder| - 1] == n
      decreases code.Keys - visited, 0
    {
      if n in visited {
        return;
      }
      OpenBlock(code, entry, visited, postorder, open, n);
      visited := visited + {n};
      if n !in code {
        return;
      }
      VisitAll(n, open);
      FinishBlock(code, entry, visited, postorder, open, n);
      postorder := postorder + [n];
    }

    method VisitAll(n: Node, ghost open: set<Node>)
      requires n in code && n in visited && Valid(open + {n})
      requires AllReach(code, open, n) && Reaches(code, entry, n)
      modifies this
      ensures Valid(open + {n}) && forall s | s in Succs(code, n) :: s in visited
      ensures Continues(old(visited), old(postorder), visited, postorder)
      decreases code.Keys - visited, 1
    {
      var succs := BlockSuccessors(code[n]);
      ghost var inner := open + {n};
      for i := 0 to |succs|
        invariant Valid(inner)
        invariant Continues(old(visited), old(postorder), visited, postorder)
        invariant forall s | s in succs[..i] :: s in visited
      {
        SuccessorReached(n, open, succs[i]);
        assert code.Keys - visited <= code.Keys - old(visited);
        Dfs(succs[i], inner);
        assert succs[..i + 1] == succs[..i] + [succs[i]];
      }
      assert succs[..|succs|] == succs;
    }

    lemma SuccessorReached(n: Node, open: set<Node>, s: Node)
      requires AllReach(code, open, n) && Reaches(code, entry, n) && s in Succs(code, n)
      ensures AllReach(code, open + {n}, s) && Reaches(code, entry, s)
    {
      ReachesItself(code, n);
      ReachesFurther(code, entry, n, s);
      forall g | g in open + {n}
        ensures Reaches(code, g, s)
      {
        ReachesFurther(code, g, n, s);
      }
    }
  }

  method ComputeOrder(code: Code, entry: Node) returns (order: seq<Node>)
    ensures IsOrder(code, entry, order)
  {
    var t := new Traversal(code, entry);
    ReachesItself(code, entry);
    t.Dfs(entry, {});
    var n := |t.postorder|;
    order := [];
    while |order| < n
      invariant |order| <= n
      invariant forall i | 0 <= i < |order| :: order[i] == t.postorder[n - 1 - i]
    {
      order := order + [t.postorder[n - 1 - |order|]];
    }
    ReversedIsOrder(code, entry, t.visited, t.postorder, order);
  }
}
