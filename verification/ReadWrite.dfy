/** Liveness asks for no more than the instructions do: the registers that they are said to read and to write are
    exactly those that their steps depend on and change. */
module ReadWrite {
  import opened Values
  import opened RTL
  import opened Liveness
  import opened Interference

  /** As many operands as the operation takes, and something to choose from. */
  predicate IsComplete(i: Instr) {
    match i
    case Iop(op, args, _, _) => op == Omove ==> |args| == 1
    case Icond(cond, args, _, _) => if cond.Ccompimm? then |args| == 1 && !cond.kind.IsFloat() else |args| == 2
    case Ijumptable(_, targets) => targets != []
    case _ => true
  }

  predicate MovesToItself(i: Instr) {
    i.Iop? && i.op == Omove && i.args == [i.dest]
  }

  ghost predicate SameBut(rs1: RegFile, rs2: RegFile, r: Reg) {
    forall x | x != r :: Get(rs1, x) == Get(rs2, x)
  }

  /** The same has happened, but that registers in rs may differ. */
  ghost predicate SameStep(s1: State, s2: State, rs: set<Reg>) {
    if s1.Running? && s2.Running? then
      s1.pc == s2.pc && s1.m == s2.m && s1.tr == s2.tr && forall x | x !in rs :: Get(s1.rs, x) == Get(s2.rs, x)
    else
      s1 == s2
  }

  ghost predicate DependsOn(i: Instr, r: Reg, o: Oracle, rs1: RegFile, rs2: RegFile) {
    SameBut(rs1, rs2, r) && !SameStep(StepInstr(o, i, rs1, map[], []), StepInstr(o, i, rs2, map[], []), {r} - Defs(i))
  }

  /** In some environment what r holds makes a difference, other than that it is still there. */
  ghost predicate Reads(i: Instr, r: Reg) {
    exists o, rs1, rs2 :: DependsOn(i, r, o, rs1, rs2)
  }

  ghost predicate Changes(i: Instr, r: Reg, o: Oracle, rs: RegFile) {
    var s := StepInstr(o, i, rs, map[], []);
    s.Running? && Get(s.rs, r) != Get(rs, r)
  }

  ghost predicate Writes(i: Instr, r: Reg) {
    exists o, rs :: Changes(i, r, o, rs)
  }

  // --- What is not used makes no difference ---

  lemma SameArgs(rs1: RegFile, rs2: RegFile, r: Reg, args: seq<Reg>)
    requires SameBut(rs1, rs2, r) && r !in Elements(args)
    ensures GetAll(rs1, args) == GetAll(rs2, args)
  {
  }

  lemma SameWritten(rs1: RegFile, rs2: RegFile, r: Reg, d: Reg)
    requires SameBut(rs1, rs2, r)
    ensures forall v, x {:trigger Get(rs1[d := v], x)} | x != r || x == d :: Get(rs1[d := v], x) == Get(rs2[d := v], x)
  {
    forall v, x {:trigger Get(rs1[d := v], x)} | x != r || x == d
      ensures Get(rs1[d := v], x) == Get(rs2[d := v], x)
    {
      assert x != r ==> Get(rs1, x) == Get(rs2, x);
    }
  }

  lemma UnusedIsUnread(i: Instr, r: Reg, o: Oracle, rs1: RegFile, rs2: RegFile)
    requires SameBut(rs1, rs2, r) && r !in Uses(i)
    ensures SameStep(StepInstr(o, i, rs1, map[], []), StepInstr(o, i, rs2, map[], []), {r} - Defs(i))
  {
    match i
    case Iop(_, args, dest, _) =>
      SameArgs(rs1, rs2, r, args);
      SameWritten(rs1, rs2, r, dest);
    case Iload(_, _, args, dest, _) =>
      SameArgs(rs1, rs2, r, args);
      SameWritten(rs1, rs2, r, dest);
    case Istore(_, _, args, src, _) =>
      SameArgs(rs1, rs2, r, args);
      assert Get(rs1, src) == Get(rs2, src);
    case Icall(_, fn, args, dest, _) =>
      SameArgs(rs1, rs2, r, args);
      SameCallee(rs1, rs2, r, fn);
      SameWritten(rs1, rs2, r, dest);
    case Itailcall(_, fn, args) =>
      SameArgs(rs1, rs2, r, args);
      SameCallee(rs1, rs2, r, fn);
    case Ibuiltin(_, args, res, _) =>
      SameArgs(rs1, rs2, r, args);
      if res.Some? {
        SameWritten(rs1, rs2, r, res.value);
      }
    case Icond(_, args, _, _) => SameArgs(rs1, rs2, r, args);
    case Ijumptable(arg, _) => assert Get(rs1, arg) == Get(rs2, arg);
    case Ireturn(ret) => assert ret.Some? ==> Get(rs1, ret.value) == Get(rs2, ret.value);
    case _ =>
  }

  lemma SameCallee(rs1: RegFile, rs2: RegFile, r: Reg, fn: FunRef)
    requires SameBut(rs1, rs2, r) && r !in CalleeUses(fn)
    ensures CalleeOf(fn, rs1) == CalleeOf(fn, rs2)
  {
    if fn.FunReg? {
      assert Get(rs1, fn.reg) == Get(rs2, fn.reg);
    }
  }

  // --- What is used does ---

  /** Answers differently for the operands vs. */
  function Telling(vs: seq<Val>): Oracle {
    Oracle((_, args, _) => Some(if args == vs then Vnum(1) else Vnum(2)),
           (_, _, args, _) => Some(if args == vs then Vnum(1) else Vnum(2)),
           (_, _, args, v, _) => Some(if args == vs && v == Vundef then map[] else map[0 := 1]),
           (_, _, m) => Some((Vnum(3), m)),
           (_, _, m) => Some((Vnum(3), m)),
           (_, v) => if v == Vundef then Some(0) else None,
           (_, _, x, y) => if x == Vundef && y == Vundef then Some(true) else None,
           (_, _, _) => map[])
  }

  lemma ArgsDiffer(r: Reg, args: seq<Reg>)
    requires r in Elements(args)
    ensures GetAll(map[r := Vnum(0)], args) != GetAll(map[], args)
  {
    var k: nat :| k < |args| && args[k] == r;
    assert GetAll(map[r := Vnum(0)], args)[k] != GetAll(map[], args)[k];
  }

  lemma ComputationReads(i: Instr, r: Reg)
    requires (i.Iop? || i.Iload?) && IsComplete(i) && r in Elements(i.args)
    ensures DependsOn(i, r, Telling(GetAll(map[], i.args)), map[r := Vnum(0)], map[])
  {
    var rs1: RegFile, rs2: RegFile := map[r := Vnum(0)], map[];
    ArgsDiffer(r, i.args);
    var o := Telling(GetAll(rs2, i.args));
    var s1, s2 := StepInstr(o, i, rs1, map[], []), StepInstr(o, i, rs2, map[], []);
    assert s1.Running? && s2.Running? && Get(s1.rs, i.dest) != Get(s2.rs, i.dest);
  }

  lemma StoreReads(i: Instr, r: Reg)
    requires i.Istore? && r in Uses(i)
    ensures DependsOn(i, r, Telling(GetAll(map[], i.args)), map[r := Vnum(0)], map[])
  {
    var rs1: RegFile, rs2: RegFile := map[r := Vnum(0)], map[];
    if r in Elements(i.args) {
      ArgsDiffer(r, i.args);
    }
    var o := Telling(GetAll(rs2, i.args));
    var m1, m2: Mem := map[0 := 1], map[];
    assert 0 in m1 && 0 !in m2;
    assert StepInstr(o, i, rs1, map[], []) == Running(i.succ, rs1, m1, []);
    assert StepInstr(o, i, rs2, map[], []) == Running(i.succ, rs2, m2, []);
  }

  lemma CallReads(i: Instr, r: Reg)
    requires (i.Icall? || i.Ibuiltin? || i.Itailcall?) && r in Uses(i)
    ensures DependsOn(i, r, Telling([]), map[r := Vnum(0)], map[])
  {
    var rs1: RegFile, rs2: RegFile := map[r := Vnum(0)], map[];
    if r in Elements(i.args) {
      ArgsDiffer(r, i.args);
    }
    var s1, s2 := StepInstr(Telling([]), i, rs1, map[], []), StepInstr(Telling([]), i, rs2, map[], []);
    match i
    case Icall(_, fn, args, _, _) =>
      assert s1.tr[0] == EvCall(CalleeOf(fn, rs1), GetAll(rs1, args)) && s2.tr[0] == EvCall(CalleeOf(fn, rs2), GetAll(rs2, args));
    case Ibuiltin(name, args, _, _) =>
      assert s1.tr[0] == EvBuiltin(name, GetAll(rs1, args)) && s2.tr[0] == EvBuiltin(name, GetAll(rs2, args));
    case _ =>
  }

  lemma BranchReads(i: Instr, r: Reg)
    requires (i.Icond? || i.Ijumptable? || i.Ireturn?) && IsComplete(i) && r in Uses(i)
    ensures DependsOn(i, r, Telling([]), map[r := Vnum(0)], map[])
  {
  }

  /** An instruction reads exactly the registers it uses. */
  lemma UsesAreReads(i: Instr, r: Reg)
    requires IsComplete(i)
    ensures r in Uses(i) <==> Reads(i, r)
  {
    if r in Uses(i) {
      match i
      case Iop(_, _, _, _) => ComputationReads(i, r);
      case Iload(_, _, _, _, _) => ComputationReads(i, r);
      case Istore(_, _, _, _, _) => StoreReads(i, r);
      case Icall(_, _, _, _, _) => CallReads(i, r);
      case Ibuiltin(_, _, _, _) => CallReads(i, r);
      case Itailcall(_, _, _) => CallReads(i, r);
      case _ => BranchReads(i, r);
    } else if Reads(i, r) {
      var o, rs1, rs2 :| DependsOn(i, r, o, rs1, rs2);
      UnusedIsUnread(i, r, o, rs1, rs2);
    }
  }

  /** And changes exactly those that it defines, unless it copies a register to itself. */
  lemma DefsAreWrites(i: Instr, r: Reg)
    requires IsComplete(i) && !MovesToItself(i)
    ensures r in Defs(i) <==> Writes(i, r)
  {
    if r in Defs(i) {
      DefChanges(i, r);
    }
  }

  lemma DefChanges(i: Instr, r: Reg)
    requires IsComplete(i) && !MovesToItself(i) && r in Defs(i)
    ensures Writes(i, r)
  {
    if i.Iop? && i.op == Omove {
      assert i.args[0] != r;
      assert GetAll(map[r := Vnum(0)], i.args) == [Vundef];
      assert Changes(i, r, Telling([]), map[r := Vnum(0)]);
    } else {
      assert Changes(i, r, Telling([]), map[]);
    }
  }

  // --- What may share a place ---

  ghost predicate Differ(i: Instr, a: Reg, b: Reg, o: Oracle, rs: RegFile) {
    var s := StepInstr(o, i, rs, map[], []);
    s.Running? && Get(s.rs, a) != Get(s.rs, b)
  }

  /** After the instruction the two registers may hold different values. */
  ghost predicate MayDiffer(i: Instr, a: Reg, b: Reg) {
    exists o, rs :: Differ(i, a, b, o, rs)
  }

  /** A register that is written may differ from any other one, but for the source of a move: these alone need not be kept
      apart when both are live. */
  lemma WrittenMayDiffer(i: Instr, a: Reg, b: Reg)
    requires IsComplete(i) && a in Defs(i) && a != b
    ensures MayDiffer(i, a, b) <==> !IsMoveSource(i, b)
  {
    if IsMove(i) {
      var c := i.args[0];
      assert forall rs: RegFile :: GetAll(rs, i.args) == [Get(rs, c)];
      if c != b { assert Differ(i, a, b, Telling([]), map[c := Vnum(0)]); }
    } else {
      assert Differ(i, a, b, Telling([]), map[]);
    }
  }

  // --- Where it goes on ---

  ghost predicate GoesTo(i: Instr, n: Node, o: Oracle, rs: RegFile) {
    var s := StepInstr(o, i, rs, map[], []);
    s.Running? && s.pc == n
  }

  /** In some environment the instruction is followed by n. */
  ghost predicate LeadsTo(i: Instr, n: Node) {
    exists o, rs :: GoesTo(i, n, o, rs)
  }

  /** Everything works, numbers are what they are, and floating-point comparisons are b. */
  function Deciding(b: bool): Oracle {
    Oracle((_, _, _) => Some(Vnum(0)), (_, _, _, _) => Some(Vnum(0)), (_, _, _, _, m) => Some(m),
           (_, _, m) => Some((Vnum(0), m)), (_, _, m) => Some((Vnum(0), m)), (_, v: Val) => if v.Vnum? then Some(v.n) else Some(0),
           (_, _, _, _) => Some(b), (_, _, _) => map[])
  }

  /** A comparison of a number with itself has one outcome only. */
  predicate MayBranch(i: Instr) {
    i.Icond? && !i.cond.Ccompimm? && !i.cond.kind.IsFloat() ==> |i.args| == 2 && i.args[0] != i.args[1]
  }

  /** A number for which the comparison with n is b. */
  function Solution(cmp: Cmp, n: int, b: bool): (x: int)
    ensures cmp.Holds(x, n) == b
  {
    if cmp.Holds(n, n) == b then n else if cmp.Holds(n - 1, n) == b then n - 1 else n + 1
  }

  lemma BranchGoes(i: Instr, b: bool)
    requires i.Icond? && IsComplete(i) && MayBranch(i)
    ensures LeadsTo(i, if b then i.ifso else i.ifnot)
  {
    var wanted := if i.cond.Cnotcomp? then !b else b;
    var x := Solution(i.cond.cmp, if i.cond.Ccompimm? then i.cond.n else 0, wanted);
    var o, rs := Deciding(wanted), map[i.args[0] := Vnum(x)];
    if !i.cond.Ccompimm? && !i.cond.kind.IsFloat() {
      rs := rs[i.args[1] := Vnum(0)];
    }
    var vs := GetAll(rs, i.args);
    assert i.cond.Ccompimm? || !i.cond.kind.IsFloat() ==> vs[0] == Vnum(x);
    assert EvalCondCode(o, i.cond, vs) == Some(b);
    assert GoesTo(i, if b then i.ifso else i.ifnot, o, rs);
  }

  /** An instruction may be followed by exactly its successors. */
  lemma SuccessorsAreNext(i: Instr, n: Node)
    requires IsComplete(i) && MayBranch(i)
    ensures n in i.Successors() <==> LeadsTo(i, n)
  {
    if n in i.Successors() {
      match i
      case Icond(_, _, ifso, ifnot) =>
        BranchGoes(i, n == ifso);
      case Ijumptable(arg, targets) =>
        var k: nat :| k < |targets| && targets[k] == n;
        assert GoesTo(i, n, Deciding(true), map[arg := Vnum(k)]);
      case Iop(op, args, _, _) =>
        assert op == Omove ==> |GetAll<Reg>(map[], args)| == 1;
        assert GoesTo(i, n, Deciding(true), map[]);
      case Inop(_) => assert GoesTo(i, n, Deciding(true), map[]);
      case Iload(_, _, _, _, _) => assert GoesTo(i, n, Deciding(true), map[]);
      case Istore(_, _, _, _, _) => assert GoesTo(i, n, Deciding(true), map[]);
      case Icall(_, _, _, _, _) => assert GoesTo(i, n, Deciding(true), map[]);
      case Ibuiltin(_, _, _, _) => assert GoesTo(i, n, Deciding(true), map[]);
    }
  }
}
