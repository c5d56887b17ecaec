/** LTL: a control-flow graph of basic blocks over locations (pkg/ltl/ast.go), with a block-step semantics. */
module LTL {
  import opened Values

  type Node = nat

  datatype SlotKind = SlotLocal | SlotIncoming | SlotOutgoing
  datatype Typ = Tint | Tfloat | Tlong | Tsingle | Tany32 | Tany64

  /** A machine register or a stack slot.  `Nowhere` is the absent location that looking up an
      unallocated register yields. */
  datatype Loc = Nowhere | R(reg: MReg) | S(slot: SlotKind, ofs: int, ty: Typ)

  const X0: MReg := 0
  const X8: MReg := 8

  datatype FunRef = FunLoc(loc: Loc) | FunSymbol(name: string)

  datatype Instr =
    | Lnop
    | Lop(op: Operation, args: seq<Loc>, dest: Loc)
    | Lload(chunk: Chunk, addr: AddrMode, args: seq<Loc>, dest: Loc)
    | Lstore(chunk: Chunk, addr: AddrMode, args: seq<Loc>, src: Loc)
    | Lcall(sig: Sig, fn: FunRef, args: seq<Loc>)
    | Ltailcall(sig: Sig, fn: FunRef, args: seq<Loc>)
    | Lbuiltin(name: string, args: seq<Loc>, res: Option<Loc>)
    | Lbranch(succ: Node)
    | Lcond(cond: ConditionCode, args: seq<Loc>, ifso: Node, ifnot: Node)
    | Ljumptable(arg: Loc, targets: seq<Node>)
    | Lreturn

  function CalleeLocs(fn: FunRef): seq<Loc> {
    match fn
    case FunLoc(l) => [l]
    case FunSymbol(_) => []
  }

  /** All locations that an instruction reads or writes. */
  function Operands(i: Instr): seq<Loc> {
    match i
    case Lop(_, args, dest) => args + [dest]
    case Lload(_, _, args, dest) => args + [dest]
    case Lstore(_, _, args, src) => args + [src]
    case Lcall(_, fn, args) => CalleeLocs(fn) + args
    case Ltailcall(_, fn, args) => CalleeLocs(fn) + args
    case Lbuiltin(_, args, res) => args + if res.Some? then [res.value] else []
    case Lcond(_, args, _, _) => args
    case Ljumptable(arg, _) => [arg]
    case _ => []
  }

  type Block = seq<Instr>
  type Code = map<Node, Block>

  datatype Function = Function(params: seq<Loc>, code: Code, entry: Node)

  type LocSet = map<Loc, Val>

  /** X19..X28 and D8..D15. */
  predicate IsCalleeSaved(r: MReg) {
    19 <= r <= 28 || 72 <= r <= 79
  }

  /** Locations a call leaves alone: callee-saved registers (AAPCS64 section 6.1.1) and the caller's slots. */
  predicate Preserved(l: Loc) {
    match l
    case R(r) => IsCalleeSaved(r)
    case S(slot, _, _) => slot != SlotOutgoing
    case Nowhere => false
  }

  /** What a call leaves alone. */
  function Survivors(ls: LocSet): LocSet {
    map l | l in ls && Preserved(l) :: ls[l]
  }

  /** What a call leaves in the other caller-saved registers than X0. */
  function CallJunk(junk: map<MReg, Val>): LocSet {
    map r | r in junk && r != X0 && !Preserved(R(r)) :: R(r) := junk[r]
  }

  /** The locations after a call: X0 holds the result, the other caller-saved registers hold junk. */
  function AfterCall(ls: LocSet, res: Val, junk: map<MReg, Val>): LocSet {
    map[R(X0) := res] + Survivors(ls) + CallJunk(junk)
  }

  /** A call does not care what is in a location that it does not preserve. */
  lemma AfterCallForgets(ls: LocSet, l: Loc, v: Val, res: Val, junk: map<MReg, Val>)
    requires !Preserved(l)
    ensures AfterCall(ls[l := v], res, junk) == AfterCall(ls, res, junk)
  {
    assert Survivors(ls[l := v]) == Survivors(ls);
  }

  datatype State =
    | Running(pc: Node, ls: LocSet, m: Mem, tr: Trace)
    | Returned(ls: LocSet, m: Mem, tr: Trace)
    | TailCalled(callee: Callee, args: seq<Val>, m: Mem, tr: Trace)
    | Stuck

  datatype Machine = Machine(ls: LocSet, m: Mem, tr: Trace)

  function CalleeOf(fn: FunRef, ls: LocSet): Callee {
    match fn
    case FunLoc(l) => ToAddress(Get(ls, l))
    case FunSymbol(name) => ToSymbol(name)
  }

  /** A call of the function with the given arguments. */
  function DoCall(o: Oracle, callee: Callee, vs: seq<Val>, s: Machine): Option<Machine> {
    match o.call(callee, vs, s.m)
    case Some((v, m')) =>
      Some(Machine(AfterCall(s.ls, v, o.junk(callee, vs, s.m)), m', s.tr + [EvCall(callee, vs)]))
    case None => None
  }

  /** An instruction that is not a terminator. */
  function ExecInstr(o: Oracle, i: Instr, s: Machine): Option<Machine> {
    match i
    case Lnop => Some(s)
    case Lop(op, args, dest) =>
      (match EvalOp(o, op, GetAll(s.ls, args), s.m)
       case Some(v) => Some(s.(ls := s.ls[dest := v]))
       case None => None)
    case Lload(chunk, addr, args, dest) =>
      (match o.load(chunk, addr, GetAll(s.ls, args), s.m)
       case Some(v) => Some(s.(ls := s.ls[dest := v]))
       case None => None)
    case Lstore(chunk, addr, args, src) =>
      (match o.store(chunk, addr, GetAll(s.ls, args), Get(s.ls, src), s.m)
       case Some(m') => Some(s.(m := m'))
       case None => None)
    case Lcall(_, fn, args) => DoCall(o, CalleeOf(fn, s.ls), GetAll(s.ls, args), s)
    case Lbuiltin(name, args, res) =>
      var vs := GetAll(s.ls, args);
      (match o.builtin(name, vs, s.m)
       case Some((v, m')) =>
         Some(Machine(if res.Some? then s.ls[res.value := v] else s.ls, m', s.tr + [EvBuiltin(name, vs)]))
       case None => None)
    case _ => None
  }

  function ExecBody(o: Oracle, body: seq<Instr>, s: Machine): Option<Machine> {
    if body == [] then Some(s)
    else
      match ExecInstr(o, body[0], s)
      case Some(s') => ExecBody(o, body[1..], s')
      case None => None
  }

  function Terminate(o: Oracle, i: Instr, s: Machine): State {
    match i
    case Lbranch(succ) => Running(succ, s.ls, s.m, s.tr)
    case Lcond(cond, args, ifso, ifnot) =>
      (match EvalCondCode(o, cond, GetAll(s.ls, args))
       case Some(b) => Running(if b then ifso else ifnot, s.ls, s.m, s.tr)
       case None => Stuck)
    case Ljumptable(arg, targets) =>
      var v := Get(s.ls, arg);
      if v.Vnum? && 0 <= v.n < |targets| then Running(targets[v.n], s.ls, s.m, s.tr) else Stuck
    case Ltailcall(_, fn, args) => TailCalled(CalleeOf(fn, s.ls), GetAll(s.ls, args), s.m, s.tr)
    case Lreturn => Returned(s.ls, s.m, s.tr)
    case _ => Stuck
  }

  /** A whole basic block: its body, then its last instruction. */
  function StepBlock(o: Oracle, block: Block, s: Machine): State {
    if block == [] then Stuck
    else
      match ExecBody(o, block[..|block| - 1], s)
      case Some(s') => Terminate(o, block[|block| - 1], s')
      case None => Stuck
  }

  function Step(o: Oracle, code: Code, s: State): State {
    if s.Running? then
      if s.pc in code then StepBlock(o, code[s.pc], Machine(s.ls, s.m, s.tr)) else Stuck
    else
      s
  }

  function Stepper(o: Oracle, code: Code): State -> State {
    s => Step(o, code, s)
  }

  lemma {:induction false} ExecBodyAppend(o: Oracle, a: seq<Instr>, b: seq<Instr>, s: Machine)
    ensures ExecBody(o, a + b, s) ==
            match ExecBody(o, a, s) case Some(s') => ExecBody(o, b, s') case None => None
  {
    if a == [] {
      assert a + b == b;
    } else {
      assert (a + b)[1..] == a[1..] + b;
      match ExecInstr(o, a[0], s)
      case Some(s') => ExecBodyAppend(o, a[1..], b, s');
      case None =>
    }
  }

  lemma ExecOne(o: Oracle, a: Instr, s: Machine)
    ensures ExecBody(o, [a], s) == ExecInstr(o, a, s)
  {
    var r := ExecInstr(o, a, s);
    assert [a][1..] == [];
    if r.Some? {
      assert ExecBody(o, [], r.value) == r;
    }
  }

  /** A block is its body and then its terminator. */
  lemma BlockIs(o: Oracle, body: seq<Instr>, t: Instr, s: Machine)
    ensures StepBlock(o, body + [t], s) ==
            match ExecBody(o, body, s) case Some(s') => Terminate(o, t, s') case None => Stuck
  {
    var block := body + [t];
    assert block[..|block| - 1] == body && block[|block| - 1] == t;
  }

  lemma BlockOfOne(o: Oracle, t: Instr, s: Machine)
    ensures StepBlock(o, [t], s) == Terminate(o, t, s)
  {
    assert [] + [t] == [t];
    BlockIs(o, [], t, s);
  }

  lemma BlockOfTwo(o: Oracle, a: Instr, t: Instr, s: Machine)
    ensures StepBlock(o, [a, t], s) ==
            match ExecInstr(o, a, s) case Some(s') => Terminate(o, t, s') case None => Stuck
  {
    assert [a] + [t] == [a, t];
    ExecOne(o, a, s);
    BlockIs(o, [a], t, s);
  }

  /** The rest of a block runs where its first instruction leaves off. */
  lemma BlockOfMore(o: Oracle, a: Instr, rest: Block, s: Machine, s1: Machine)
    requires ExecInstr(o, a, s) == Some(s1) && rest != []
    ensures StepBlock(o, [a] + rest, s) == StepBlock(o, rest, s1)
  {
    var body, t := rest[..|rest| - 1], rest[|rest| - 1];
    assert rest == body + [t] && [a] + rest == [a] + body + [t];
    ExecOne(o, a, s);
    ExecBodyAppend(o, [a], body, s);
    BlockIs(o, body, t, s1);
    BlockIs(o, [a] + body, t, s);
  }

  lemma BlockStuck(o: Oracle, a: Instr, block: Block, s: Machine)
    requires |block| >= 2 && block[0] == a && ExecInstr(o, a, s).None?
    ensures StepBlock(o, block, s).Stuck?
  {
    assert block[..|block| - 1][0] == a;
  }

  lemma MoveExec(o: Oracle, src: Loc, dst: Loc, s: Machine)
    ensures ExecInstr(o, Lop(Omove, [src], dst), s) == Some(s.(ls := s.ls[dst := Get(s.ls, src)]))
  {
    assert GetAll(s.ls, [src]) == [Get(s.ls, src)];
  }

  lemma MoveAndReturn(o: Oracle, src: Loc, dst: Loc, s: Machine)
    ensures StepBlock(o, [Lop(Omove, [src], dst), Lreturn], s) == Returned(s.ls[dst := Get(s.ls, src)], s.m, s.tr)
  {
    MoveExec(o, src, dst, s);
    BlockOfTwo(o, Lop(Omove, [src], dst), Lreturn, s);
  }
}
