/** Functions of any number of registers that are live together: register allocation ends on those that have no more registers
    than there are colours, and never on the others (pkg/regalloc/irc.go, Allocate and decrementDegree). */
module WideFunctions {
  import opened Values
  import opened RTL
  import opened Liveness
  import opened Interference
  import opened Conventions
  import opened Coalescing
  import opened Params
  import opened Rounds
  import opened Progress
  import opened Spilling
  import opened Irc

  function Numbers(n: nat): seq<Reg> {
    seq(n, i => i + 1)
  }

  /** Makes the constants 1 to n, in the registers 1 to n, and passes them on to f. */
  function Wide(n: nat): Function {
    Function([], WideCode(n), 1)
  }

  function WideCode(n: nat): Code {
    map k: nat | 1 <= k <= n + 1 ::
      if k <= n then Iop(Oconst(Ointconst(k)), [], k, k + 1) else Itailcall(Sig(n), FunSymbol("f"), Numbers(n))
  }

  lemma {:induction false} LiveAt(n: nat, info: LivenessInfo, k: nat)
    requires IsSolution(WideCode(n), info) && 1 <= k <= n + 1
    ensures forall r: Reg | 1 <= r < k :: r in info.liveIn[k]
    ensures k <= n ==> forall r: Reg | 1 <= r <= k :: r in info.liveOut[k]
    decreases n + 1 - k
  {
    var code := WideCode(n);
    assert SolvedAt(code, info, k);
    if k == n + 1 {
      forall r: Reg | 1 <= r < k
        ensures r in info.liveIn[k]
      {
        assert Numbers(n)[r - 1] == r;
      }
    } else {
      LiveAt(n, info, k + 1);
      assert code[k].Successors() == [k + 1] && k + 1 in code[k].Successors();
      forall r: Reg | 1 <= r <= k
        ensures r in LiveAfter(info.liveIn, code[k])
      {
        assert r in At(info.liveIn, k + 1);
      }
    }
  }

  lemma WideRegs(n: nat)
    ensures forall r: Reg :: r in AllRegs(Wide(n)) <==> 1 <= r <= n
  {
    var code := WideCode(n);
    forall r: Reg
      ensures r in AllDefs(code) <==> 1 <= r <= n
    {
      if 1 <= r <= n { assert r in code && r in Defs(code[r]); }
    }
    forall r: Reg | r in AllUses(code)
      ensures 1 <= r <= n
    {
      var k :| k in code && r in Uses(code[k]);
      assert r in Numbers(n);
    }
  }

  lemma {:induction false} SizeUpTo(n: nat, rs: set<Reg>)
    requires forall r: Reg :: r in rs <==> 1 <= r <= n
    ensures |rs| == n
  {
    if n == 0 {
      assert rs == {};
    } else {
      SizeUpTo(n - 1, rs - {n});
    }
  }

  lemma AllInterfere(n: nat, info: LivenessInfo, a: Reg, b: Reg)
    requires IsSolution(WideCode(n), info) && 1 <= a <= n && 1 <= b <= n && a != b
    ensures Interferes(Wide(n), info, a, b)
  {
    var x, y := if a < b then b else a, if a < b then a else b;
    LiveAt(n, info, x);
    assert ClashesAt(WideCode(n), info, x, x, y);
    assert Clash(WideCode(n), info, WideCode(n).Keys, x, y);
  }

  lemma ClashesAreMutual(fn: Function, info: LivenessInfo)
    ensures IsUndirected(AllRegs(fn), ClashGraph(fn, info))
  {
    forall a, b | Edge(ClashGraph(fn, info), a, b)
      ensures a != b && b in AllRegs(fn) && Edge(ClashGraph(fn, info), b, a)
    {
    }
  }

  lemma WideIsClique(n: nat, info: LivenessInfo)
    requires IsSolution(WideCode(n), info)
    ensures Unmoved(StartGraph(Wide(n), info), MoveGraph(Wide(n)))
    ensures AllAdjacent(AllRegs(Wide(n)), ClashGraph(Wide(n), info)) && |AllRegs(Wide(n))| == n
  {
    ClashesAreMutual(Wide(n), info);
    WideRegs(n);
    SizeUpTo(n, AllRegs(Wide(n)));
    WideEdges(n, info);
  }

  lemma WideEdges(n: nat, info: LivenessInfo)
    requires IsSolution(WideCode(n), info) && forall r: Reg :: r in AllRegs(Wide(n)) <==> 1 <= r <= n
    ensures AllAdjacent(AllRegs(Wide(n)), ClashGraph(Wide(n), info)) && NoEdges(MoveGraph(Wide(n)))
  {
    forall a: Reg, b: Reg | a in AllRegs(Wide(n)) && b in AllRegs(Wide(n)) && a != b
      ensures Edge(ClashGraph(Wide(n), info), a, b)
    {
      AllInterfere(n, info, a, b);
    }
    assert forall a, b :: !MoveBetween(WideCode(n), WideCode(n).Keys, a, b);
  }

  /** Exactly the functions of at most 27 such registers are allocated, however many rounds there are. */
  lemma WideEndsIff(n: nat, info: LivenessInfo, rounds: nat, run: seq<Snapshot>)
    requires IsSolution(WideCode(n), info) && LoopRun(Wide(n), info, rounds, run) && rounds >= n
    ensures Last(run).IsIdle() <==> n <= K
  {
    var g, prefs := StartGraph(Wide(n), info), MoveGraph(Wide(n));
    WideIsClique(n, info);
    assert Precolored([], g.lac).Keys == {};
    if n > K {
      CliqueRunsOn(g, prefs, rounds, run);
    } else {
      FewerThanColors(g);
      SimplifiableEnds(g, prefs, {}, rounds, run);
    }
  }

  lemma FewerThanColors(g: Merge)
    requires IsUndirected(g.nodes, g.edges) && |g.nodes| <= K
    ensures Simplifiable(g.nodes, g.edges, {})
  {
    forall r | r in g.nodes
      ensures |Adj(g.edges, r)| < K
    {
      assert forall m | m in Adj(g.edges, r) :: Edge(g.edges, r, m);
      SubsetSize(Adj(g.edges, r) + {r}, g.nodes);
    }
    FewNeighboursSimplify(g.nodes, g.edges, {});
  }
}
