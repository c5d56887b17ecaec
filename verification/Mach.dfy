/** Mach: code over a concrete stack frame (pkg/mach/ast.go), with a small-step semantics. */
module Mach {
  import opened Values
  import opened Runs
  import opened Frame
  import L = LTL
  import Lin = Linear

  // --- The stack ---

  datatype Cell = Cell(ty: L.Typ, v: Val)

  /** What is on the stack, by offset from the frame pointer. */
  type Stack = map<int, Cell>

  /** A store destroys whatever it overlaps. */
  function Put(stack: Stack, ofs: int, ty: L.Typ, v: Val): Stack {
    (map a | a in stack && DisjointRanges(a, SlotSize(stack[a].ty), ofs, SlotSize(ty)) :: stack[a])[ofs := Cell(ty, v)]
  }

  function Peek(stack: Stack, ofs: int, ty: L.Typ): Val {
    if ofs in stack && stack[ofs].ty == ty then stack[ofs].v else Vundef
  }

  lemma PeekPut(stack: Stack, ofs: int, ty: L.Typ, v: Val)
    ensures Peek(Put(stack, ofs, ty, v), ofs, ty) == v
    ensures forall a, t {:trigger Peek(stack, a, t)} {:trigger Peek(Put(stack, ofs, ty, v), a, t)} |
              DisjointRanges(a, SlotSize(t), ofs, SlotSize(ty)) :: Peek(Put(stack, ofs, ty, v), a, t) == Peek(stack, a, t)
  {
  }

  // --- Instructions ---

  datatype FunRef = FunReg(reg: MReg) | FunSymbol(name: string)

  datatype Instr =
    | Mgetstack(ofs: int, ty: L.Typ, reg: MReg)
    | Msetstack(srcReg: MReg, ofs: int, ty: L.Typ)
    | Mgetparam(ofs: int, ty: L.Typ, reg: MReg)
    | Mop(op: Operation, args: seq<MReg>, dest: MReg)
    | Mload(chunk: Chunk, addr: AddrMode, args: seq<MReg>, dest: MReg)
    | Mstore(chunk: Chunk, addr: AddrMode, args: seq<MReg>, src: MReg)
    | Mcall(sig: Sig, fn: FunRef)
    | Mtailcall(sig: Sig, fn: FunRef)
    | Mbuiltin(name: string, args: seq<MReg>, res: Option<MReg>)
    | Mlabel(lbl: Lin.Label)
    | Mgoto(target: Lin.Label)
    | Mcond(cond: ConditionCode, args: seq<MReg>, ifso: Lin.Label)
    | Mjumptable(arg: MReg, targets: seq<Lin.Label>)
    | Mreturn
  {
    /** Instructions that go on with the next one, and are no labels. */
    predicate IsStraight() {
      !Mtailcall? && !Mlabel? && !Mgoto? && !Mcond? && !Mjumptable? && !Mreturn?
    }

    /** A load of a register from the stack. */
    predicate IsLoad() {
      Mgetstack? || Mgetparam?
    }
  }

  type Code = seq<Instr>

  datatype Machine = Machine(regs: map<MReg, Val>, stack: Stack, m: Mem, tr: Trace)

  datatype State =
    | Running(pc: nat, regs: map<MReg, Val>, stack: Stack, m: Mem, tr: Trace)
    | Returned(regs: map<MReg, Val>, m: Mem, tr: Trace)
    | TailCalled(callee: Callee, regs: map<MReg, Val>, m: Mem, tr: Trace)
    | Stuck

  function CalleeOf(fn: FunRef, regs: map<MReg, Val>): Callee {
    match fn
    case FunReg(r) => ToAddress(Get(regs, r))
    case FunSymbol(name) => ToSymbol(name)
  }

  /** Where a callee finds argument i: X0..X7, then at the stack pointer. */
  function ArgumentAt(layout: FrameLayout, i: nat, s: Machine): Val {
    if i < 8 then Get(s.regs, i) else Peek(s.stack, layout.StackPointer() + (i - 8) * 8, L.Tlong)
  }

  function Arguments(layout: FrameLayout, n: nat, s: Machine): (vs: seq<Val>)
    ensures |vs| == n
  {
    seq(n, i requires 0 <= i < n => ArgumentAt(layout, i, s))
  }

  /** The registers after a call: X0 holds the result, the other caller-saved registers hold junk. */
  function RegsAfterCall(regs: map<MReg, Val>, res: Val, junk: map<MReg, Val>): map<MReg, Val> {
    map[L.X0 := res] + (map r | r in regs && L.IsCalleeSaved(r) :: regs[r])
    + (map r | r in junk && r != L.X0 && !L.IsCalleeSaved(r) :: junk[r])
  }

  /** The arguments on the stack are the callee's, and lost. */
  function StackAfterCall(layout: FrameLayout, stack: Stack): Stack {
    map a | a in stack && !(layout.StackPointer() <= a < layout.localOffset) :: stack[a]
  }

  function DoCall(o: Oracle, layout: FrameLayout, callee: Callee, vs: seq<Val>, s: Machine): Option<Machine> {
    match o.call(callee, vs, s.m)
    case Some((v, m')) =>
      Some(Machine(RegsAfterCall(s.regs, v, o.junk(callee, vs, s.m)), StackAfterCall(layout, s.stack), m', s.tr + [EvCall(callee, vs)]))
    case None => None
  }

  /** A straight instruction. */
  function Exec(o: Oracle, layout: FrameLayout, i: Instr, s: Machine): Option<Machine> {
    match i
    case Mgetstack(ofs, ty, reg) => Some(s.(regs := s.regs[reg := Peek(s.stack, ofs, ty)]))
    case Mgetparam(ofs, ty, reg) => Some(s.(regs := s.regs[reg := Peek(s.stack, ofs, ty)]))
    case Msetstack(src, ofs, ty) => Some(s.(stack := Put(s.stack, ofs, ty, Get(s.regs, src))))
    case Mop(op, args, dest) =>
      (match EvalOp(o, op, GetAll(s.regs, args), s.m)
       case Some(v) => Some(s.(regs := s.regs[dest := v]))
       case None => None)
    case Mload(chunk, addr, args, dest) =>
      (match o.load(chunk, addr, GetAll(s.regs, args), s.m)
       case Some(v) => Some(s.(regs := s.regs[dest := v]))
       case None => None)
    case Mstore(chunk, addr, args, src) =>
      (match o.store(chunk, addr, GetAll(s.regs, args), Get(s.regs, src), s.m)
       case Some(m') => Some(s.(m := m'))
       case None => None)
    case Mbuiltin(name, args, res) =>
      var vs := GetAll(s.regs, args);
      (match o.builtin(name, vs, s.m)
       case Some((v, m')) =>
         Some(Machine(if res.Some? then s.regs[res.value := v] else s.regs, s.stack, m', s.tr + [EvBuiltin(name, vs)]))
       case None => None)
    case Mcall(sig, fn) => DoCall(o, layout, CalleeOf(fn, s.regs), Arguments(layout, sig.nargs, s), s)
    case _ => None
  }

  function ExecAll(o: Oracle, layout: FrameLayout, code: Code, s: Machine): Option<Machine> {
    if code == [] then Some(s)
    else
      match Exec(o, layout, code[0], s)
      case Some(s') => ExecAll(o, layout, code[1..], s')
      case None => None
  }

  lemma {:induction false} ExecAllAppend(o: Oracle, layout: FrameLayout, a: Code, b: Code, s: Machine)
    ensures ExecAll(o, layout, a + b, s) ==
            match ExecAll(o, layout, a, s) case Some(s') => ExecAll(o, layout, b, s') case None => None
  {
    if a == [] {
      assert a + b == b;
    } else {
      assert (a + b)[1..] == a[1..] + b;
      match Exec(o, layout, a[0], s)
      case Some(s') => ExecAllAppend(o, layout, a[1..], b, s');
      case None =>
    }
  }

  lemma ExecOne(o: Oracle, layout: FrameLayout, i: Instr, s: Machine)
    ensures ExecAll(o, layout, [i], s) == Exec(o, layout, i, s)
  {
    assert [i][1..] == [];
    match Exec(o, layout, i, s)
    case None =>
    case Some(s') => assert ExecAll(o, layout, [], s') == Some(s');
  }

  /** One more instruction at the end. */
  lemma ExecAllLast(o: Oracle, layout: FrameLayout, a: Code, i: Instr, s: Machine)
    ensures ExecAll(o, layout, a + [i], s) == match ExecAll(o, layout, a, s) case Some(s') => Exec(o, layout, i, s') case None => None
  {
    ExecAllAppend(o, layout, a, [i], s);
    match ExecAll(o, layout, a, s)
    case None =>
    case Some(s') => ExecOne(o, layout, i, s');
  }

  // --- Runs ---

  /** The index of the first occurrence of a label. */
  function FindLabel(code: Code, l: Lin.Label): (r: Option<nat>)
    ensures r.Some? ==> r.value < |code| && code[r.value] == Mlabel(l)
  {
    if code == [] then None
    else if code[0] == Mlabel(l) then Some(0)
    else
      match FindLabel(code[1..], l)
      case None => None
      case Some(k) => Some(k + 1)
  }

  function Jump(code: Code, l: Lin.Label, s: Machine): State {
    match FindLabel(code, l)
    case Some(pc) => RunningAt(pc, s)
    case None => Stuck
  }

  function StepInstr(o: Oracle, layout: FrameLayout, code: Code, i: Instr, pc: nat, s: Machine): State {
    match i
    case Mlabel(_) => RunningAt(pc + 1, s)
    case Mgoto(l) => Jump(code, l, s)
    case Mcond(cond, args, ifso) =>
      (match EvalCondCode(o, cond, GetAll(s.regs, args))
       case Some(b) => if b then Jump(code, ifso, s) else RunningAt(pc + 1, s)
       case None => Stuck)
    case Mjumptable(arg, targets) =>
      var v := Get(s.regs, arg);
      if v.Vnum? && 0 <= v.n < |targets| then Jump(code, targets[v.n], s) else Stuck
    case Mtailcall(_, fn) => TailCalled(CalleeOf(fn, s.regs), s.regs, s.m, s.tr)
    case Mreturn => Returned(s.regs, s.m, s.tr)
    case _ =>
      (match Exec(o, layout, i, s)
       case Some(s') => RunningAt(pc + 1, s')
       case None => Stuck)
  }

  function Step(o: Oracle, layout: FrameLayout, code: Code, s: State): State {
    if s.Running? then
      if s.pc < |code| then StepInstr(o, layout, code, code[s.pc], s.pc, Machine(s.regs, s.stack, s.m, s.tr)) else Stuck
    else
      s
  }

  function Stepper(o: Oracle, layout: FrameLayout, code: Code): State -> State {
    s => Step(o, layout, code, s)
  }

  /** Machine s at pc. */
  function RunningAt(pc: nat, s: Machine): State {
    Running(pc, s.regs, s.stack, s.m, s.tr)
  }

  ghost predicate CodeAt(code: Code, at: nat, part: Code) {
    at + |part| <= |code| && code[at..at + |part|] == part
  }

  lemma {:induction false} EndStays(o: Oracle, layout: FrameLayout, code: Code, s: State, k: nat)
    requires !s.Running?
    ensures Iterate(Stepper(o, layout, code), s, k) == s
    decreases k
  {
    if k > 0 {
      EndStays(o, layout, code, s, k - 1);
    }
  }

  /** Straight code runs to its end, one step an instruction, or gets stuck. */
  lemma {:induction false} RunStraight(o: Oracle, layout: FrameLayout, code: Code, at: nat, part: Code, s: Machine)
    requires CodeAt(code, at, part) && forall i | i in part :: i.IsStraight()
    ensures Iterate(Stepper(o, layout, code), RunningAt(at, s), |part|) ==
            match ExecAll(o, layout, part, s) case Some(s') => RunningAt(at + |part|, s') case None => Stuck
    decreases |part|
  {
    if part == [] {
    } else {
      assert code[at] == part[0] && part[0] in part && CodeAt(code, at + 1, part[1..]);
      assert Machine(s.regs, s.stack, s.m, s.tr) == s;
      match Exec(o, layout, part[0], s)
      case Some(s') =>
        assert Step(o, layout, code, RunningAt(at, s)) == RunningAt(at + 1, s');
        RunStraight(o, layout, code, at + 1, part[1..], s');
      case None =>
        assert Step(o, layout, code, RunningAt(at, s)) == Stuck;
        EndStays(o, layout, code, Stuck, |part| - 1);
    }
  }

  /** The first place of a label is where it is found. */
  lemma {:induction false} FoundAt(code: Code, l: Lin.Label, at: nat)
    requires at < |code| && code[at] == Mlabel(l) && Mlabel(l) !in code[..at]
    ensures FindLabel(code, l) == Some(at)
    decreases at
  {
    if at > 0 {
      assert code[..at] == [code[0]] + code[1..][..at - 1];
      FoundAt(code[1..], l, at - 1);
    }
  }

  lemma {:induction false} NotFound(code: Code, l: Lin.Label)
    requires Mlabel(l) !in code
    ensures FindLabel(code, l) == None
  {
    if code != [] {
      NotFound(code[1..], l);
    }
  }
}
