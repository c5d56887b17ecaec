/** Runs of deterministic machines, and the ways one machine can simulate another. */
module Runs {

  function Iterate<S>(step: S -> S, s: S, k: nat): S
    decreases k
  {
    if k == 0 then s else Iterate(step, step(s), k - 1)
  }

  lemma {:induction false} IterateAdd<S>(step: S -> S, s: S, j: nat, k: nat)
    ensures Iterate(step, s, j + k) == Iterate(step, Iterate(step, s, j), k)
    decreases j
  {
    if j == 0 {
    } else {
      IterateAdd(step, step(s), j - 1, k);
    }
  }

  lemma {:induction false} IterateLast<S>(step: S -> S, s: S, k: nat)
    ensures Iterate(step, s, k + 1) == step(Iterate(step, s, k))
    decreases k
  {
    if k == 0 {
      assert Iterate(step, step(s), 0) == step(s);
    } else {
      IterateLast(step, step(s), k - 1);
    }
  }

  ghost predicate PreservedByStep<S(!new), T(!new)>(f: S -> S, g: T -> T, r: (S, T) -> bool) {
    forall s, t | r(s, t) :: r(f(s), g(t))
  }

  /** Machines that step together stay related. */
  lemma {:induction false} Lockstep<S(!new), T(!new)>(f: S -> S, g: T -> T, r: (S, T) -> bool, s: S, t: T, k: nat)
    requires PreservedByStep(f, g, r) && r(s, t)
    ensures r(Iterate(f, s, k), Iterate(g, t, k))
    decreases k
  {
    if k == 0 {
    } else {
      Lockstep(f, g, r, f(s), g(t), k - 1);
    }
  }

  /** Some positive number of g-steps from t reaches a state related to s. */
  ghost predicate Catches<S, T>(g: T -> T, r: (S, T) -> bool, s: S, t: T) {
    exists j: nat :: j > 0 && r(s, Iterate(g, t, j))
  }

  ghost predicate Expands<S(!new), T(!new)>(f: S -> S, g: T -> T, r: (S, T) -> bool) {
    forall s, t {:trigger Catches(g, r, f(s), t)} :: r(s, t) ==> Catches(g, r, f(s), t)
  }

  lemma CatchUp<S(!new), T(!new)>(f: S -> S, g: T -> T, r: (S, T) -> bool, s: S, t: T) returns (j: nat)
    requires Expands(f, g, r) && r(s, t)
    ensures j > 0 && r(f(s), Iterate(g, t, j))
  {
    assert Catches(g, r, f(s), t);
    j :| j > 0 && r(f(s), Iterate(g, t, j));
  }

  /** When each f-step takes at least one g-step, k f-steps take some j >= k g-steps. */
  lemma {:induction false} Expansion<S(!new), T(!new)>(f: S -> S, g: T -> T, r: (S, T) -> bool, s: S, t: T, k: nat)
    returns (j: nat)
    requires Expands(f, g, r) && r(s, t)
    ensures j >= k && r(Iterate(f, s, k), Iterate(g, t, j))
    decreases k
  {
    if k == 0 {
      j := 0;
    } else {
      var i := CatchUp(f, g, r, s, t);
      var t' := Iterate(g, t, i);
      var rest := Expansion(f, g, r, f(s), t', k - 1);
      IterateAdd(g, t, i, rest);
      j := i + rest;
    }
  }

  /** Some number of steps, possibly none, leads from s to t. */
  ghost predicate Goes<S(!new)>(f: S -> S, s: S, t: S) {
    exists k: nat :: Iterate(f, s, k) == t
  }

  lemma GoesNowhere<S(!new)>(f: S -> S, s: S)
    ensures Goes(f, s, s)
  {
    assert Iterate(f, s, 0) == s;
  }

  lemma GoesOneStep<S(!new)>(f: S -> S, s: S)
    ensures Goes(f, s, f(s))
  {
    assert Iterate(f, f(s), 0) == f(s);
    assert Iterate(f, s, 1) == f(s);
  }

  lemma GoesOn<S(!new)>(f: S -> S, s: S, t: S, u: S)
    requires Goes(f, s, t) && Goes(f, t, u)
    ensures Goes(f, s, u)
  {
    var j: nat :| Iterate(f, s, j) == t;
    var k: nat :| Iterate(f, t, k) == u;
    IterateAdd(f, s, j, k);
    assert Iterate(f, s, j + k) == u;
  }
}
