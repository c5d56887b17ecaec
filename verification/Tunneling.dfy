/** Branch tunnelling (pkg/linearize/tunneling.go): jumps to jumps go to where those lead. */
module Tunneling {
  import opened Values
  import opened Runs
  import opened Linear
  import L = LTL

  type JumpMap = map<Label, Label>

  /** The labels that are followed by a goto, with its target. */
  ghost predicate IsJumpMap(code: Code, jumps: JumpMap) {
    && (forall l | l in jumps :: exists i :: JumpAt(code, i, l, jumps[l]))
    && (forall i, l, t | JumpAt(code, i, l, t) :: l in jumps)
  }

  ghost predicate JumpAt(code: Code, i: int, l: Label, t: Label) {
    0 <= i < |code| - 1 && code[i] == Llabel(l) && code[i + 1] == Lgoto(t)
  }

  method BuildJumpTargetMap(code: Code) returns (jumps: JumpMap)
    ensures IsJumpMap(code, jumps)
  {
    jumps := map[];
    var i := 0;
    while i < |code| - 1
      invariant 0 <= i && (i <= |code| - 1 || i == 0)
      invariant forall l | l in jumps :: exists j :: JumpAt(code, j, l, jumps[l])
      invariant forall j, l, t | JumpAt(code, j, l, t) && j < i :: l in jumps
    {
      if code[i].Llabel? && code[i + 1].Lgoto? {
        assert JumpAt(code, i, code[i].lbl, code[i + 1].target);
        jumps := jumps[code[i].lbl := code[i + 1].target];
      }
      i := i + 1;
    }
  }

  /** The label n jumps on, or earlier if the chain ends. */
  function Hop(jumps: JumpMap, l: Label, n: nat): Label
    decreases n
  {
    if n == 0 || l !in jumps then l else Hop(jumps, jumps[l], n - 1)
  }

  lemma {:induction false} HopLast(jumps: JumpMap, l: Label, n: nat)
    requires Hop(jumps, l, n) in jumps
    ensures Hop(jumps, l, n + 1) == jumps[Hop(jumps, l, n)]
    decreases n
  {
    if n == 0 {
      assert Hop(jumps, jumps[l], 0) == jumps[l];
    } else {
      HopLast(jumps, jumps[l], n - 1);
    }
  }

  ghost predicate LeadsTo(jumps: JumpMap, l: Label, r: Label) {
    exists n: nat :: Hop(jumps, l, n) == r
  }

  ghost predicate LeadsOnTo(jumps: JumpMap, l: Label, r: Label) {
    exists n: nat :: n > 0 && l in jumps && Hop(jumps, l, n) == r
  }

  lemma LeadsFurther(jumps: JumpMap, l: Label, r: Label)
    requires LeadsTo(jumps, l, r) && r in jumps
    ensures LeadsTo(jumps, l, jumps[r])
  {
    var n: nat :| Hop(jumps, l, n) == r;
    HopLast(jumps, l, n);
    assert Hop(jumps, l, n + 1) == jumps[r];
  }

  lemma LeadsOnFurther(jumps: JumpMap, l: Label, r: Label)
    requires LeadsOnTo(jumps, l, r) && r in jumps
    ensures LeadsOnTo(jumps, l, jumps[r])
  {
    var n: nat :| n > 0 && l in jumps && Hop(jumps, l, n) == r;
    HopLast(jumps, l, n);
    assert Hop(jumps, l, n + 1) == jumps[r];
  }

  lemma LeadsOnOnce(jumps: JumpMap, l: Label)
    requires l in jumps
    ensures LeadsOnTo(jumps, l, jumps[l])
  {
    assert Hop(jumps, jumps[l], 0) == jumps[l];
    assert Hop(jumps, l, 1) == jumps[l];
  }

  /** Jumps alone lead from l to r, and r is either no jump or on a cycle of jumps. */
  ghost predicate IsResolution(jumps: JumpMap, l: Label, r: Label) {
    LeadsTo(jumps, l, r) && (r in jumps ==> LeadsOnTo(jumps, r, r))
  }

  /** Follows the jumps; always ends, at a label they lead to. */
  method ResolveLabel(lbl: Label, jumps: JumpMap) returns (current: Label)
    ensures IsResolution(jumps, lbl, current)
  {
    var visited: set<Label> := {};
    current := lbl;
    assert Hop(jumps, lbl, 0) == lbl;
    while true
      invariant LeadsTo(jumps, lbl, current)
      invariant visited <= jumps.Keys
      invariant forall v | v in visited :: LeadsOnTo(jumps, v, current)
      decreases jumps.Keys - visited
    {
      if current in visited {
        return;
      }
      if current !in jumps {
        return;
      }
      forall v | v in visited + {current}
        ensures LeadsOnTo(jumps, v, jumps[current])
      {
        if v == current {
          LeadsOnOnce(jumps, current);
        } else {
          LeadsOnFurther(jumps, v, current);
        }
      }
      LeadsFurther(jumps, lbl, current);
      visited := visited + {current};
      current := jumps[current];
    }
  }

  ghost predicate AreResolutions(jumps: JumpMap, resolved: JumpMap) {
    resolved.Keys == jumps.Keys && forall l | l in jumps :: IsResolution(jumps, l, resolved[l])
  }

  method ResolveChains(jumps: JumpMap) returns (resolved: JumpMap)
    ensures AreResolutions(jumps, resolved)
  {
    resolved := map[];
    var todo := jumps.Keys;
    while todo != {}
      invariant todo <= jumps.Keys && resolved.Keys == jumps.Keys - todo
      invariant forall l | l in resolved :: IsResolution(jumps, l, resolved[l])
      decreases todo
    {
      var l :| l in todo;
      todo := todo - {l};
      var r := ResolveLabel(l, jumps);
      resolved := resolved[l := r];
    }
  }

  function Target(resolved: JumpMap, l: Label): Label {
    if l in resolved then resolved[l] else l
  }

  function TunnelInstruction(i: Instr, resolved: JumpMap): Instr {
    match i
    case Lgoto(l) => Lgoto(Target(resolved, l))
    case Lcond(cond, args, ifso) => Lcond(cond, args, Target(resolved, ifso))
    case Ljumptable(arg, targets) =>
      Ljumptable(arg, seq(|targets|, i requires 0 <= i < |targets| => Target(resolved, targets[i])))
    case _ => i
  }

  function TunnelCode(code: Code, resolved: JumpMap): (out: Code)
    ensures |out| == |code|
  {
    seq(|code|, i requires 0 <= i < |code| => TunnelInstruction(code[i], resolved))
  }

  /** What Tunnel promises: all targets are replaced by where the jumps at them lead. */
  ghost predicate IsTunneled(code: Code, out: Code) {
    exists jumps, resolved :: TunneledBy(code, out, jumps, resolved)
  }

  ghost predicate TunneledBy(code: Code, out: Code, jumps: JumpMap, resolved: JumpMap) {
    IsJumpMap(code, jumps) && AreResolutions(jumps, resolved) && out == TunnelCode(code, resolved)
  }

  method Tunnel(fn: Function)
    modifies fn
    ensures IsTunneled(old(fn.code), fn.code)
  {
    ghost var code := fn.code;
    var jumps := BuildJumpTargetMap(fn.code);
    var resolved := ResolveChains(jumps);
    for i := 0 to |fn.code|
      invariant |fn.code| == |code|
      invariant forall k | 0 <= k < i :: fn.code[k] == TunnelInstruction(code[k], resolved)
      invariant forall k | i <= k < |code| :: fn.code[k] == code[k]
    {
      fn.code := fn.code[i := TunnelInstruction(fn.code[i], resolved)];
    }
    assert fn.code == TunnelCode(code, resolved);
    assert TunneledBy(code, fn.code, jumps, resolved);
  }

  /** Where an instruction may jump to. */
  function JumpTargets(i: Instr): seq<Label> {
    match i
    case Lgoto(l) => [l]
    case Lcond(_, _, ifso) => [ifso]
    case Ljumptable(_, targets) => targets
    case _ => []
  }

  function Targets(i: Instr): set<Label> {
    set l | l in JumpTargets(i)
  }

  /** They are exactly those that it jumps to in some state, if its condition ever holds. */
  lemma TargetsAreJumps(i: Instr, l: Label)
    requires i.Lcond? ==> exists o: Oracle, s: L.Machine :: EvalCondCode(o, i.cond, GetAll(s.ls, i.args)) == Some(true)
    ensures l in Targets(i) <==> exists o: Oracle, s: L.Machine :: JumpsTo(o, i, s) == Some(l)
  {
    if l in Targets(i) {
      match i
      case Lgoto(_) =>
        var o: Oracle, s: L.Machine :| true;
        assert JumpsTo(o, i, s) == Some(l);
      case Lcond(cond, args, ifso) =>
        var o: Oracle, s: L.Machine :| EvalCondCode(o, cond, GetAll(s.ls, args)) == Some(true);
        assert JumpsTo(o, i, s) == Some(l);
      case Ljumptable(arg, targets) =>
        var k: nat :| k < |targets| && targets[k] == l;
        var o: Oracle, t: L.Machine :| true;
        var s := L.Machine(map[arg := Vnum(k)], t.m, t.tr);
        assert JumpsTo(o, i, s) == Some(l);
    }
  }

  lemma TargetsAre(i: Instr, resolved: JumpMap)
    ensures |JumpTargets(TunnelInstruction(i, resolved))| == |JumpTargets(i)|
    ensures forall k | 0 <= k < |JumpTargets(i)| :: JumpTargets(TunnelInstruction(i, resolved))[k] == Target(resolved, JumpTargets(i)[k])
  {
  }

  lemma JumpsAreMapped(code: Code, out: Code, jumps: JumpMap, resolved: JumpMap, j: int, r: Label, t: Label)
    requires TunneledBy(code, out, jumps, resolved) && JumpAt(out, j, r, t)
    ensures r in jumps
  {
    assert code[j] == Llabel(r) && code[j + 1].Lgoto?;
    assert JumpAt(code, j, r, code[j + 1].target);
  }

  /** No jump leads to a jump any more, unless that is on a cycle of jumps; and the jumps it has led along are the code's. */
  lemma NoDetours(code: Code, out: Code, jumps: JumpMap, resolved: JumpMap, i: nat, k: nat)
    requires TunneledBy(code, out, jumps, resolved) && i < |code| && k < |JumpTargets(code[i])|
    ensures |JumpTargets(out[i])| == |JumpTargets(code[i])|
    ensures LeadsTo(jumps, JumpTargets(code[i])[k], JumpTargets(out[i])[k])
    ensures forall j, t | JumpAt(out, j, JumpTargets(out[i])[k], t) :: LeadsOnTo(jumps, JumpTargets(out[i])[k], JumpTargets(out[i])[k])
  {
    TargetsAre(code[i], resolved);
    var l, r := JumpTargets(code[i])[k], JumpTargets(out[i])[k];
    if l in resolved {
      assert IsResolution(jumps, l, r);
    } else {
      assert Hop(jumps, l, 0) == l;
    }
    forall j, t | JumpAt(out, j, r, t)
      ensures LeadsOnTo(jumps, r, r)
    {
      JumpsAreMapped(code, out, jumps, resolved, j, r, t);
    }
  }

  // --- Why this preserves meaning ---

  lemma SameLabels(code: Code, resolved: JumpMap, l: Label)
    ensures FindLabel(TunnelCode(code, resolved), l) == FindLabel(code, l)
  {
    var out := TunnelCode(code, resolved);
    forall i | 0 <= i < |code|
      ensures out[i] == Llabel(l) <==> code[i] == Llabel(l)
    {
    }
    match FindLabel(code, l)
    case Some(at) =>
      assert forall i | 0 <= i < at :: code[..at][i] == code[i] && out[..at][i] == out[i];
      FoundAt(out, l, at);
    case None =>
      assert forall i | 0 <= i < |code| :: code[i] in code;
  }

  /** With unique labels, a label in the map is found right before its goto. */
  lemma JumpFound(code: Code, jumps: JumpMap, l: Label) returns (i: nat)
    requires UniqueLabels(code) && IsJumpMap(code, jumps) && l in jumps
    ensures JumpAt(code, i, l, jumps[l]) && FindLabel(code, l) == Some(i)
  {
    var k :| JumpAt(code, k, l, jumps[l]);
    i := k;
    assert forall j | 0 <= j < i :: code[..i][j] == code[j] != Llabel(l);
    FoundAt(code, l, i);
  }

  lemma OneHop(g: Seen -> Seen, o: Oracle, code: Code, i: nat, l: Label, t: Label, s: L.Machine, log: seq<Instr>)
    requires Watches(g, o, code) && JumpAt(code, i, l, t) && FindLabel(code, l) == Some(i)
    ensures Iterate(g, Seen(Jump(code, l, s), log), 2) == Seen(Jump(code, t, s), log)
  {
    var x0, x1, x2 := Seen(RunningAt(i, s), log), Seen(RunningAt(i + 1, s), log), Seen(Jump(code, t, s), log);
    assert g(x0) == Watch(o, code, x0) == x1;
    assert g(x1) == Watch(o, code, x1) == x2;
    assert Iterate(g, x1, 1) == Iterate(g, x2, 0);
    assert Iterate(g, x0, 2) == Iterate(g, x1, 1);
  }

  lemma ThenIterate(g: Seen -> Seen, x: Seen, y: Seen, j: nat, k: nat)
    requires Iterate(g, x, j) == y
    ensures Iterate(g, x, j + k) == Iterate(g, y, k)
  {
    IterateAdd(g, x, j, k);
  }

  /** Jumping to a label and on along n jumps, unseen. */
  lemma {:induction false} HopRuns(g: Seen -> Seen, o: Oracle, code: Code, jumps: JumpMap, l: Label, n: nat, s: L.Machine, log: seq<Instr>)
    returns (j: nat)
    requires Watches(g, o, code) && UniqueLabels(code) && IsJumpMap(code, jumps)
    ensures Iterate(g, Seen(Jump(code, l, s), log), j) == Seen(Jump(code, Hop(jumps, l, n), s), log)
    decreases n
  {
    if n == 0 || l !in jumps {
      j := 0;
    } else {
      var i := JumpFound(code, jumps, l);
      var t := jumps[l];
      var x, y := Seen(Jump(code, l, s), log), Seen(Jump(code, t, s), log);
      OneHop(g, o, code, i, l, t, s, log);
      assert Iterate(g, x, 2) == y;
      var k := HopRuns(g, o, code, jumps, t, n - 1, s, log);
      ThenIterate(g, x, y, 2, k);
      assert Hop(jumps, l, n) == Hop(jumps, t, n - 1);
      j := 2 + k;
    }
  }

  /** The original code catches up with a jump of the tunnelled code. */
  lemma JumpCatchesUp(g: Seen -> Seen, o: Oracle, code: Code, jumps: JumpMap, resolved: JumpMap,
                                         l: Label, s: L.Machine, log: seq<Instr>)
    returns (j: nat)
    requires Watches(g, o, code) && UniqueLabels(code) && IsJumpMap(code, jumps) && AreResolutions(jumps, resolved)
    ensures Iterate(g, Seen(Jump(code, l, s), log), j) ==
            Seen(Jump(TunnelCode(code, resolved), Target(resolved, l), s), log)
  {
    SameLabels(code, resolved, Target(resolved, l));
    j := 0;
    if l in resolved {
      assert IsResolution(jumps, l, resolved[l]);
      var n: nat :| Hop(jumps, l, n) == resolved[l];
      j := HopRuns(g, o, code, jumps, l, n, s, log);
    }
  }

  /** The label a step jumps to, if it jumps. */
  function JumpsTo(o: Oracle, i: Instr, s: L.Machine): Option<Label> {
    match i
    case Lgoto(l) => Some(l)
    case Lcond(cond, args, ifso) => if EvalCondCode(o, cond, GetAll(s.ls, args)) == Some(true) then Some(ifso) else None
    case Ljumptable(arg, targets) =>
      var v := Get(s.ls, arg);
      if v.Vnum? && 0 <= v.n < |targets| then Some(targets[v.n]) else None
    case _ => None
  }

  lemma StepWithJump(o: Oracle, code: Code, i: Instr, pc: nat, s: L.Machine)
    requires JumpsTo(o, i, s).Some?
    ensures StepInstr(o, code, i, pc, s) == Jump(code, JumpsTo(o, i, s).value, s)
  {
  }

  lemma StepWithoutJump(o: Oracle, code: Code, out: Code, resolved: JumpMap, i: Instr, pc: nat, s: L.Machine)
    requires JumpsTo(o, i, s).None?
    ensures StepInstr(o, out, TunnelInstruction(i, resolved), pc, s) == StepInstr(o, code, i, pc, s)
  {
  }

  lemma TunnelSame(o: Oracle, resolved: JumpMap, i: Instr, s: L.Machine)
    ensures Visible(TunnelInstruction(i, resolved)) == Visible(i)
    ensures JumpsTo(o, TunnelInstruction(i, resolved), s) ==
            match JumpsTo(o, i, s) case Some(l) => Some(Target(resolved, l)) case None => None
  {
  }

  /** One step of the tunnelled code is some steps of the original code. */
  lemma TunnelStep(g: Seen -> Seen, o: Oracle, code: Code, out: Code, jumps: JumpMap, resolved: JumpMap, x: Seen)
    returns (j: nat)
    requires Watches(g, o, code) && UniqueLabels(code) && TunneledBy(code, out, jumps, resolved)
    ensures j > 0 && Iterate(g, x, j) == Watch(o, out, x)
  {
    j := 1;
    assert g(x) == Watch(o, code, x);
    assert Iterate(g, g(x), 0) == g(x);
    if x.st.Running? && x.st.pc < |code| {
      var i, s, pc := code[x.st.pc], L.Machine(x.st.ls, x.st.m, x.st.tr), x.st.pc;
      TunnelSame(o, resolved, i, s);
      if JumpsTo(o, i, s).Some? {
        StepWithJump(o, code, i, pc, s);
        StepWithJump(o, out, out[pc], pc, s);
        var k := JumpCatchesUp(g, o, code, jumps, resolved, JumpsTo(o, i, s).value, s, x.log + Visible(i));
        IterateAdd(g, x, 1, k);
        j := 1 + k;
      } else {
        StepWithoutJump(o, code, out, resolved, i, pc, s);
      }
    }
  }

  lemma {:induction false} TunnelRunsBy(f: Seen -> Seen, g: Seen -> Seen, o: Oracle, code: Code, out: Code,
                                        jumps: JumpMap, resolved: JumpMap, x: Seen, k: nat)
    returns (j: nat)
    requires Watches(f, o, out) && Watches(g, o, code) && UniqueLabels(code) && TunneledBy(code, out, jumps, resolved)
    ensures j >= k && Iterate(g, x, j) == Iterate(f, x, k)
    decreases k
  {
    if k == 0 {
      j := 0;
    } else {
      var i := TunnelStep(g, o, code, out, jumps, resolved, x);
      var x' := Watch(o, out, x);
      assert f(x) == x';
      var rest := TunnelRunsBy(f, g, o, code, out, jumps, resolved, x', k - 1);
      IterateAdd(g, x, i, rest);
      j := i + rest;
    }
  }

  /** Tunnelling preserves meaning: any run of the tunnelled code is a run of the original one, with the same
      visible instructions, that takes at least as many steps. */
  lemma TunnelRuns(f: Seen -> Seen, g: Seen -> Seen, o: Oracle, code: Code, out: Code, x: Seen, k: nat)
    returns (j: nat)
    requires Watches(f, o, out) && Watches(g, o, code) && UniqueLabels(code) && IsTunneled(code, out)
    ensures j >= k && Iterate(g, x, j) == Iterate(f, x, k)
  {
    var jumps, resolved :| TunneledBy(code, out, jumps, resolved);
    j := TunnelRunsBy(f, g, o, code, out, jumps, resolved, x, k);
  }
}
