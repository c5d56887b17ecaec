/** Linear: a flat list of instructions with labels and jumps (pkg/linear/ast.go), with a small-step semantics. */
module Linear {
  import opened Values
  import opened Runs
  import L = LTL

  /** Labels are positive; 0 is no label. */
  type Label = nat

  datatype Instr =
    | Lgetstack(slot: L.SlotKind, ofs: int, ty: L.Typ, reg: MReg)
    | Lsetstack(src: MReg, slot: L.SlotKind, ofs: int, ty: L.Typ)
    | Lop(op: Operation, args: seq<L.Loc>, dest: L.Loc)
    | Lload(chunk: Chunk, addr: AddrMode, args: seq<L.Loc>, dest: L.Loc)
    | Lstore(chunk: Chunk, addr: AddrMode, args: seq<L.Loc>, srcLoc: L.Loc)
    | Lcall(sig: Sig, fn: L.FunRef)
    | Ltailcall(sig: Sig, fn: L.FunRef)
    | Lbuiltin(name: string, args: seq<L.Loc>, res: Option<L.Loc>)
    | Llabel(lbl: Label)
    | Lgoto(target: Label)
    | Lcond(cond: ConditionCode, args: seq<L.Loc>, ifso: Label)
    | Ljumptable(arg: L.Loc, targets: seq<Label>)
    | Lreturn
  {
    /** Instructions that go on with the next one, and are no labels. */
    predicate IsStraight() {
      !Ltailcall? && !Llabel? && !Lgoto? && !Lcond? && !Ljumptable? && !Lreturn?
    }
  }

  type Code = seq<Instr>

  datatype State =
    | Running(pc: nat, ls: L.LocSet, m: Mem, tr: Trace)
    | Returned(ls: L.LocSet, m: Mem, tr: Trace)
    | TailCalled(callee: Callee, m: Mem, tr: Trace)
    | Stuck

  /** Where a callee finds argument i: X0..X7, then the caller's outgoing slots (AAPCS64 section 6.8.2). */
  function ArgPlace(i: nat): L.Loc {
    if i < 8 then L.R(i) else L.S(L.SlotOutgoing, (i - 8) * 8, L.Tlong)
  }

  function ArgPlaces(n: nat): (places: seq<L.Loc>)
    ensures |places| == n
  {
    seq(n, i requires 0 <= i < n => ArgPlace(i))
  }

  /** All locations that an instruction reads or writes; a call reads the places of the arguments. */
  function Operands(i: Instr): seq<L.Loc> {
    match i
    case Lgetstack(slot, ofs, ty, reg) => [L.S(slot, ofs, ty), L.R(reg)]
    case Lsetstack(src, slot, ofs, ty) => [L.R(src), L.S(slot, ofs, ty)]
    case Lop(_, args, dest) => args + [dest]
    case Lload(_, _, args, dest) => args + [dest]
    case Lstore(_, _, args, src) => args + [src]
    case Lcall(sig, fn) => L.CalleeLocs(fn) + ArgPlaces(sig.nargs)
    case Ltailcall(_, fn) => L.CalleeLocs(fn)
    case Lbuiltin(_, args, res) => args + if res.Some? then [res.value] else []
    case Lcond(_, args, _) => args
    case Ljumptable(arg, _) => [arg]
    case _ => []
  }

  /** A straight instruction. */
  function Exec(o: Oracle, i: Instr, s: L.Machine): Option<L.Machine> {
    match i
    case Lgetstack(slot, ofs, ty, reg) => Some(s.(ls := s.ls[L.R(reg) := Get(s.ls, L.S(slot, ofs, ty))]))
    case Lsetstack(src, slot, ofs, ty) => Some(s.(ls := s.ls[L.S(slot, ofs, ty) := Get(s.ls, L.R(src))]))
    case Lop(op, args, dest) => L.ExecInstr(o, L.Lop(op, args, dest), s)
    case Lload(chunk, addr, args, dest) => L.ExecInstr(o, L.Lload(chunk, addr, args, dest), s)
    case Lstore(chunk, addr, args, src) => L.ExecInstr(o, L.Lstore(chunk, addr, args, src), s)
    case Lbuiltin(name, args, res) => L.ExecInstr(o, L.Lbuiltin(name, args, res), s)
    case Lcall(sig, fn) => L.DoCall(o, L.CalleeOf(fn, s.ls), GetAll(s.ls, ArgPlaces(sig.nargs)), s)
    case _ => None
  }

  function ExecAll(o: Oracle, code: Code, s: L.Machine): Option<L.Machine> {
    if code == [] then Some(s)
    else
      match Exec(o, code[0], s)
      case Some(s') => ExecAll(o, code[1..], s')
      case None => None
  }

  /** The index of the first occurrence of a label. */
  function FindLabel(code: Code, l: Label): (r: Option<nat>)
    ensures r.Some? <==> Llabel(l) in code
    ensures r.Some? ==> r.value < |code| && code[r.value] == Llabel(l) && Llabel(l) !in code[..r.value]
  {
    if code == [] then None
    else if code[0] == Llabel(l) then Some(0)
    else
      match FindLabel(code[1..], l)
      case None => None
      case Some(k) => FindLabelStep(code, l, k); Some(k + 1)
  }

  lemma FindLabelStep(code: Code, l: Label, k: nat)
    requires code != [] && code[0] != Llabel(l) && k < |code[1..]| && Llabel(l) !in code[1..][..k]
    ensures Llabel(l) !in code[..k + 1]
  {
    assert code[..k + 1] == [code[0]] + code[1..][..k];
  }

  function Jump(code: Code, l: Label, s: L.Machine): State {
    match FindLabel(code, l)
    case Some(pc) => Running(pc, s.ls, s.m, s.tr)
    case None => Stuck
  }

  function StepInstr(o: Oracle, code: Code, i: Instr, pc: nat, s: L.Machine): State {
    match i
    case Llabel(_) => Running(pc + 1, s.ls, s.m, s.tr)
    case Lgoto(l) => Jump(code, l, s)
    case Lcond(cond, args, ifso) =>
      (match EvalCondCode(o, cond, GetAll(s.ls, args))
       case Some(b) => if b then Jump(code, ifso, s) else Running(pc + 1, s.ls, s.m, s.tr)
       case None => Stuck)
    case Ljumptable(arg, targets) =>
      var v := Get(s.ls, arg);
      if v.Vnum? && 0 <= v.n < |targets| then Jump(code, targets[v.n], s) else Stuck
    case Ltailcall(_, fn) => TailCalled(L.CalleeOf(fn, s.ls), s.m, s.tr)
    case Lreturn => Returned(s.ls, s.m, s.tr)
    case _ =>
      (match Exec(o, i, s)
       case Some(s') => Running(pc + 1, s'.ls, s'.m, s'.tr)
       case None => Stuck)
  }

  function Step(o: Oracle, code: Code, s: State): State {
    if s.Running? then
      if s.pc < |code| then StepInstr(o, code, code[s.pc], s.pc, L.Machine(s.ls, s.m, s.tr)) else Stuck
    else
      s
  }

  function Stepper(o: Oracle, code: Code): State -> State {
    s => Step(o, code, s)
  }

  /** Machine s at pc. */
  function RunningAt(pc: nat, s: L.Machine): State {
    Running(pc, s.ls, s.m, s.tr)
  }

  ghost predicate CodeAt(code: Code, at: nat, part: Code) {
    at + |part| <= |code| && code[at..at + |part|] == part
  }

  lemma CodeAtPrefix(code: Code, a: Code, b: Code)
    requires a + b <= code
    ensures CodeAt(code, |a|, b)
  {
    assert (a + b)[|a|..] == b;
  }

  lemma CodeAtSplit(code: Code, at: nat, a: Code, b: Code)
    requires CodeAt(code, at, a + b)
    ensures CodeAt(code, at, a) && CodeAt(code, at + |a|, b)
  {
    var part := code[at..at + |a + b|];
    assert part[..|a|] == a && part[|a|..] == b;
  }

  lemma {:induction false} ExecAllAppend(o: Oracle, a: Code, b: Code, s: L.Machine)
    ensures ExecAll(o, a + b, s) == match ExecAll(o, a, s) case Some(s') => ExecAll(o, b, s') case None => None
  {
    if a == [] {
      assert a + b == b;
    } else {
      assert (a + b)[1..] == a[1..] + b;
      match Exec(o, a[0], s)
      case Some(s') => ExecAllAppend(o, a[1..], b, s');
      case None =>
    }
  }

  lemma ExecAllLast(o: Oracle, a: Code, i: Instr, s: L.Machine, s': L.Machine)
    requires ExecAll(o, a, s) == Some(s')
    ensures ExecAll(o, a + [i], s) == Exec(o, i, s')
  {
    ExecAllAppend(o, a, [i], s);
    assert [i][1..] == [];
    match Exec(o, i, s')
    case None =>
    case Some(s'') => assert ExecAll(o, [], s'') == Some(s'');
  }

  lemma {:induction false} StuckStays(o: Oracle, code: Code, k: nat)
    ensures Iterate(Stepper(o, code), Stuck, k) == Stuck
    decreases k
  {
    if k == 0 {
    } else {
      StuckStays(o, code, k - 1);
    }
  }

  /** Straight code runs to its end, one step an instruction, or gets stuck. */
  lemma {:induction false} RunStraight(o: Oracle, code: Code, at: nat, part: Code, s: L.Machine)
    requires CodeAt(code, at, part) && forall i | i in part :: i.IsStraight()
    ensures Iterate(Stepper(o, code), RunningAt(at, s), |part|) ==
            match ExecAll(o, part, s) case Some(s') => RunningAt(at + |part|, s') case None => Stuck
    decreases |part|
  {
    if part == [] {
    } else {
      assert code[at] == part[0] && CodeAt(code, at + 1, part[1..]);
      match Exec(o, part[0], s)
      case Some(s') =>
        assert Step(o, code, RunningAt(at, s)) == RunningAt(at + 1, s');
        RunStraight(o, code, at + 1, part[1..], s');
      case None =>
        assert part[0] in part && L.Machine(s.ls, s.m, s.tr) == s;
        assert Step(o, code, RunningAt(at, s)) == Stuck;
        StuckStays(o, code, |part| - 1);
    }
  }

  // --- Watching a run ---

  /** What an instruction shows: labels and jumps nothing, the others themselves without their targets. */
  function Visible(i: Instr): seq<Instr> {
    match i
    case Llabel(_) => []
    case Lgoto(_) => []
    case Lcond(cond, args, _) => [Lcond(cond, args, 0)]
    case Ljumptable(arg, _) => [Ljumptable(arg, [])]
    case _ => [i]
  }

  /** A state, and the visible instructions executed so far. */
  datatype Seen = Seen(st: State, log: seq<Instr>)

  function Watch(o: Oracle, code: Code, x: Seen): Seen {
    Seen(Step(o, code, x.st), x.log + if x.st.Running? && x.st.pc < |code| then Visible(code[x.st.pc]) else [])
  }

  function Watcher(o: Oracle, code: Code): Seen -> Seen {
    x => Watch(o, code, x)
  }

  /** g watches the code run. */
  ghost predicate Watches(g: Seen -> Seen, o: Oracle, code: Code) {
    forall x {:trigger Watch(o, code, x)} :: g(x) == Watch(o, code, x)
  }

  /** Every label stands at one place only. */
  ghost predicate UniqueLabels(code: Code) {
    forall i, j | 0 <= i < j < |code| && code[i].Llabel? && code[j].Llabel? :: code[i] != code[j]
  }

  /** A function, whose code the passes rewrite. */
  class Function {
    var code: Code

    constructor (code: Code)
      ensures this.code == code
    {
      this.code := code;
    }
  }

  /** The first place of a label is where it is found. */
  lemma {:induction false} FoundAt(code: Code, l: Label, at: nat)
    requires at < |code| && code[at] == Llabel(l) && Llabel(l) !in code[..at]
    ensures FindLabel(code, l) == Some(at)
    decreases at
  {
    if at == 0 {
    } else {
      assert code[..at] == [code[0]] + code[1..][..at - 1];
      FoundAt(code[1..], l, at - 1);
    }
  }
}
