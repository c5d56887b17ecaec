/** Label cleanup (pkg/linearize/cleanup.go): labels that nothing jumps to are dropped. */
module Cleanup {
  import opened Values
  import opened Runs
  import opened Linear
  import opened Tunneling
  import L = LTL

  /** All labels jumped to, and no others. */
  ghost predicate AreUsed(code: Code, used: set<Label>) {
    forall l :: l in used <==> exists i | 0 <= i < |code| :: l in Targets(code[i])
  }

  method CollectUsedLabels(code: Code) returns (used: set<Label>)
    ensures AreUsed(code, used)
  {
    used := {};
    for i := 0 to |code|
      invariant forall l :: l in used <==> exists k | 0 <= k < i :: l in Targets(code[k])
    {
      match code[i] {
        case Lgoto(l) => used := used + {l};
        case Lcond(_, _, ifso) => used := used + {ifso};
        case Ljumptable(_, targets) => used := used + set l | l in targets;
        case _ =>
      }
    }
  }

  predicate IsKept(i: Instr, used: set<Label>) {
    i.Llabel? ==> i.lbl in used
  }

  /** The code without the labels not used. */
  function Kept(code: Code, used: set<Label>): Code {
    if code == [] then []
    else
      var last := code[|code| - 1];
      Kept(code[..|code| - 1], used) + if IsKept(last, used) then [last] else []
  }

  /** What CleanupLabels promises: it drops just labels nothing jumps to, and not the first label. */
  ghost predicate IsCleaned(code: Code, out: Code) {
    exists used :: CleanedBy(code, out, used)
  }

  ghost predicate CleanedBy(code: Code, out: Code, used: set<Label>) {
    && out == Kept(code, used)
    && (forall i | 0 <= i < |code| :: Targets(code[i]) <= used)
    && (forall l | l in used && Llabel(l) in code :: IsFirstLabel(code, l) || exists i | 0 <= i < |code| :: l in Targets(code[i]))
    && (forall l | IsFirstLabel(code, l) :: l in used)
  }

  ghost predicate IsFirstLabel(code: Code, l: Label) {
    exists i | 0 <= i < |code| :: code[i] == Llabel(l) && forall k | 0 <= k < i :: !code[k].Llabel?
  }

  method EntryLabel(code: Code) returns (l: Label)
    ensures forall x | IsFirstLabel(code, x) :: x == l
    ensures Llabel(l) in code ==> IsFirstLabel(code, l)
  {
    for i := 0 to |code|
      invariant forall k | 0 <= k < i :: !code[k].Llabel?
    {
      if code[i].Llabel? {
        return code[i].lbl;
      }
    }
    return 0;
  }

  method CleanupLabels(fn: Function)
    modifies fn
    ensures IsCleaned(old(fn.code), fn.code)
  {
    var code := fn.code;
    var collected := CollectUsedLabels(code);
    var entryLabel := EntryLabel(code);
    var used := collected + {entryLabel};
    var newCode: Code := [];
    for i := 0 to |code|
      invariant newCode == Kept(code[..i], used)
    {
      assert code[..i + 1][..i] == code[..i];
      if !(code[i].Llabel? && code[i].lbl !in used) {
        newCode := newCode + [code[i]];
      }
    }
    assert code[..|code|] == code;
    fn.code := newCode;
    assert CleanedBy(code, newCode, used);
  }

  // --- Why this preserves meaning ---

  /** Where the instruction at pc has gone. */
  ghost function Place(code: Code, used: set<Label>, pc: nat): nat
    requires pc <= |code|
  {
    |Kept(code[..pc], used)|
  }

  lemma {:induction false} KeptGrows(code: Code, used: set<Label>, n: nat)
    requires n <= |code|
    ensures Kept(code[..n], used) <= Kept(code, used)
    decreases |code|
  {
    if n == |code| {
      assert code[..n] == code;
    } else {
      var last := |code| - 1;
      KeptGrows(code[..last], used, n);
      assert code[..last][..n] == code[..n];
    }
  }

  /** A kept instruction is found in its place; one not kept takes none. */
  lemma PlaceStep(code: Code, used: set<Label>, pc: nat)
    requires pc < |code|
    ensures IsKept(code[pc], used) ==>
      && Place(code, used, pc) < |Kept(code, used)| && Kept(code, used)[Place(code, used, pc)] == code[pc]
      && Place(code, used, pc + 1) == Place(code, used, pc) + 1
    ensures !IsKept(code[pc], used) ==> Place(code, used, pc + 1) == Place(code, used, pc)
  {
    assert code[..pc + 1][..pc] == code[..pc];
    KeptGrows(code, used, pc + 1);
  }

  lemma PlaceEnd(code: Code, used: set<Label>)
    ensures Place(code, used, |code|) == |Kept(code, used)|
  {
    assert code[..|code|] == code;
  }

  lemma {:induction false} InKept(code: Code, used: set<Label>, i: Instr)
    ensures i in Kept(code, used) <==> i in code && IsKept(i, used)
    decreases |code|
  {
    if code == [] {
    } else {
      var last := |code| - 1;
      assert code == code[..last] + [code[last]];
      InKept(code[..last], used, i);
    }
  }

  lemma FindKept(code: Code, used: set<Label>, l: Label)
    requires l in used
    ensures FindLabel(Kept(code, used), l) ==
            match FindLabel(code, l) case Some(at) => Some(Place(code, used, at)) case None => None
  {
    InKept(code, used, Llabel(l));
    var r := FindLabel(code, l);
    if r.Some? {
      var at := r.value;
      PlaceStep(code, used, at);
      KeptGrows(code, used, at);
      InKept(code[..at], used, Llabel(l));
      assert Kept(code, used)[..Place(code, used, at)] == Kept(code[..at], used);
      FoundAt(Kept(code, used), l, Place(code, used, at));
    }
  }

  /** The state of the original code, and that of the cleaned code. */
  ghost predicate Match(code: Code, used: set<Label>, s: State, t: State) {
    if s.Running? then s.pc <= |code| && t == s.(pc := Place(code, used, s.pc)) else t == s
  }

  ghost predicate SeenMatch(code: Code, used: set<Label>, x: Seen, y: Seen) {
    Match(code, used, x.st, y.st) && x.log == y.log
  }

  /** Dropped labels are passed unseen. */
  lemma {:induction false} SkipLabels(g: Seen -> Seen, o: Oracle, code: Code, used: set<Label>, pc: nat, s: L.Machine, log: seq<Instr>)
    returns (j: nat, end: nat)
    requires Watches(g, o, code) && pc <= |code|
    ensures pc <= end <= |code| && Place(code, used, end) == Place(code, used, pc)
    ensures end < |code| ==> IsKept(code[end], used)
    ensures Iterate(g, Seen(RunningAt(pc, s), log), j) == Seen(RunningAt(end, s), log)
    decreases |code| - pc
  {
    if pc < |code| && !IsKept(code[pc], used) {
      var x, x1 := Seen(RunningAt(pc, s), log), Seen(RunningAt(pc + 1, s), log);
      assert g(x) == Watch(o, code, x) == x1;
      PlaceStep(code, used, pc);
      var i;
      i, end := SkipLabels(g, o, code, used, pc + 1, s, log);
      j := 1 + i;
      assert Iterate(g, x, j) == Iterate(g, x1, i);
    } else {
      j, end := 0, pc;
    }
  }

  lemma JumpKept(code: Code, used: set<Label>, l: Label, s: L.Machine)
    requires l in used
    ensures Match(code, used, Jump(code, l, s), Jump(Kept(code, used), l, s))
  {
    FindKept(code, used, l);
  }

  /** A kept instruction does the same in its new place. */
  lemma KeptStep(o: Oracle, code: Code, used: set<Label>, pc: nat, s: L.Machine)
    requires pc < |code| && IsKept(code[pc], used) && Targets(code[pc]) <= used
    ensures Match(code, used, StepInstr(o, code, code[pc], pc, s),
                  StepInstr(o, Kept(code, used), code[pc], Place(code, used, pc), s))
  {
    var i := code[pc];
    PlaceStep(code, used, pc);
    if JumpsTo(o, i, s).Some? {
      var l := JumpsTo(o, i, s).value;
      assert l in Targets(i);
      StepWithJump(o, code, i, pc, s);
      StepWithJump(o, Kept(code, used), i, Place(code, used, pc), s);
      JumpKept(code, used, l, s);
    } else {
      GoesOn(o, code, i, pc, s);
      GoesOn(o, Kept(code, used), i, Place(code, used, pc), s);
    }
  }

  /** What a step that does not jump leads to, but for the position. */
  function Onward(o: Oracle, i: Instr, s: L.Machine): State {
    StepInstr(o, [], i, 0, s)
  }

  lemma GoesOn(o: Oracle, code: Code, i: Instr, pc: nat, s: L.Machine)
    requires JumpsTo(o, i, s).None?
    ensures var t := Onward(o, i, s); StepInstr(o, code, i, pc, s) == if t.Running? then t.(pc := pc + 1) else t
  {
  }

  lemma CleanStep(g: Seen -> Seen, o: Oracle, code: Code, used: set<Label>, x: Seen, y: Seen) returns (j: nat)
    requires Watches(g, o, code) && SeenMatch(code, used, x, y)
    requires forall i | 0 <= i < |code| :: Targets(code[i]) <= used
    ensures j > 0 && SeenMatch(code, used, Iterate(g, x, j), Watch(o, Kept(code, used), y))
  {
    if x.st.Running? {
      var s := L.Machine(x.st.ls, x.st.m, x.st.tr);
      var i, end := SkipLabels(g, o, code, used, x.st.pc, s, x.log);
      var x1 := Seen(RunningAt(end, s), x.log);
      assert Iterate(g, x, i) == x1;
      OneMore(g, o, code, x, x1, i);
      j := i + 1;
      if end < |code| {
        PlaceStep(code, used, end);
        KeptStep(o, code, used, end, s);
      } else {
        PlaceEnd(code, used);
      }
    } else {
      OneMore(g, o, code, x, x, 0);
      j := 1;
    }
  }

  lemma OneMore(g: Seen -> Seen, o: Oracle, code: Code, x: Seen, x1: Seen, i: nat)
    requires Watches(g, o, code) && Iterate(g, x, i) == x1
    ensures Iterate(g, x, i + 1) == Watch(o, code, x1)
  {
    IterateLast(g, x, i);
    assert g(x1) == Watch(o, code, x1);
  }

  lemma {:induction false} KeptRuns(f: Seen -> Seen, g: Seen -> Seen, o: Oracle, code: Code, out: Code, used: set<Label>,
                                    x: Seen, y: Seen, k: nat)
    returns (j: nat)
    requires Watches(f, o, out) && Watches(g, o, code) && SeenMatch(code, used, x, y)
    requires out == Kept(code, used) && forall i | 0 <= i < |code| :: Targets(code[i]) <= used
    ensures j >= k && SeenMatch(code, used, Iterate(g, x, j), Iterate(f, y, k))
    decreases k
  {
    if k == 0 {
      j := 0;
    } else {
      var i := CleanStep(g, o, code, used, x, y);
      var y' := Watch(o, out, y);
      assert f(y) == y';
      var x' := Iterate(g, x, i);
      var rest := KeptRuns(f, g, o, code, out, used, x', y', k - 1);
      ThenIterate(g, x, x', i, rest);
      j := i + rest;
      assert Iterate(g, x, j) == Iterate(g, x', rest);
      assert Iterate(f, y, k) == Iterate(f, y', k - 1);
    }
  }

  /** Cleanup preserves meaning: any run of the cleaned code is a run of the original one, with the same visible
      instructions, that takes at least as many steps. */
  lemma CleanRuns(f: Seen -> Seen, g: Seen -> Seen, o: Oracle, code: Code, out: Code, used: set<Label>,
                                     x: Seen, y: Seen, k: nat)
    returns (j: nat)
    requires Watches(f, o, out) && Watches(g, o, code) && CleanedBy(code, out, used) && SeenMatch(code, used, x, y)
    ensures j >= k && SeenMatch(code, used, Iterate(g, x, j), Iterate(f, y, k))
  {
    j := KeptRuns(f, g, o, code, out, used, x, y, k);
  }
}
