/** RTL: a control-flow graph over pseudo-registers (pkg/rtl/ast.go), with a small-step semantics. */
module RTL {
  import opened Values

  type Node = nat
  type Reg = nat

  datatype FunRef = FunReg(reg: Reg) | FunSymbol(name: string)

  datatype Instr =
    | Inop(succ: Node)
    | Iop(op: Operation, args: seq<Reg>, dest: Reg, succ: Node)
    | Iload(chunk: Chunk, addr: AddrMode, args: seq<Reg>, dest: Reg, succ: Node)
    | Istore(chunk: Chunk, addr: AddrMode, args: seq<Reg>, src: Reg, succ: Node)
    | Icall(sig: Sig, fn: FunRef, args: seq<Reg>, callDest: Reg, succ: Node)  // callDest 0: no result
    | Itailcall(sig: Sig, fn: FunRef, args: seq<Reg>)
    | Ibuiltin(name: string, args: seq<Reg>, res: Option<Reg>, succ: Node)
    | Icond(cond: ConditionCode, args: seq<Reg>, ifso: Node, ifnot: Node)
    | Ijumptable(arg: Reg, targets: seq<Node>)
    | Ireturn(ret: Option<Reg>)
  {
    function Successors(): seq<Node> {
      match this
      case Icond(_, _, ifso, ifnot) => [ifso, ifnot]
      case Ijumptable(_, targets) => targets
      case Itailcall(_, _, _) => []
      case Ireturn(_) => []
      case _ => [this.succ]
    }
  }

  type Code = map<Node, Instr>

  datatype Function = Function(params: seq<Reg>, code: Code, entry: Node)

  type RegFile = map<Reg, Val>

  datatype State =
    | Running(pc: Node, rs: RegFile, m: Mem, tr: Trace)
    | Returned(res: Option<Val>, m: Mem, tr: Trace)
    | TailCalled(callee: Callee, args: seq<Val>, m: Mem, tr: Trace)
    | Stuck

  function CalleeOf(fn: FunRef, rs: RegFile): Callee {
    match fn
    case FunReg(r) => ToAddress(Get(rs, r))
    case FunSymbol(name) => ToSymbol(name)
  }

  function StepInstr(o: Oracle, i: Instr, rs: RegFile, m: Mem, tr: Trace): State {
    match i
    case Inop(succ) => Running(succ, rs, m, tr)
    case Iop(op, args, dest, succ) =>
      (match EvalOp(o, op, GetAll(rs, args), m)
       case Some(v) => Running(succ, rs[dest := v], m, tr)
       case None => Stuck)
    case Iload(chunk, addr, args, dest, succ) =>
      (match o.load(chunk, addr, GetAll(rs, args), m)
       case Some(v) => Running(succ, rs[dest := v], m, tr)
       case None => Stuck)
    case Istore(chunk, addr, args, src, succ) =>
      (match o.store(chunk, addr, GetAll(rs, args), Get(rs, src), m)
       case Some(m') => Running(succ, rs, m', tr)
       case None => Stuck)
    case Icall(_, fn, args, dest, succ) =>
      var callee, vs := CalleeOf(fn, rs), GetAll(rs, args);
      (match o.call(callee, vs, m)
       case Some((v, m')) =>
         Running(succ, if dest != 0 then rs[dest := v] else rs, m', tr + [EvCall(callee, vs)])
       case None => Stuck)
    case Itailcall(_, fn, args) => TailCalled(CalleeOf(fn, rs), GetAll(rs, args), m, tr)
    case Ibuiltin(name, args, res, succ) =>
      var vs := GetAll(rs, args);
      (match o.builtin(name, vs, m)
       case Some((v, m')) =>
         Running(succ, if res.Some? then rs[res.value := v] else rs, m', tr + [EvBuiltin(name, vs)])
       case None => Stuck)
    case Icond(cond, args, ifso, ifnot) =>
      (match EvalCondCode(o, cond, GetAll(rs, args))
       case Some(b) => Running(if b then ifso else ifnot, rs, m, tr)
       case None => Stuck)
    case Ijumptable(arg, targets) =>
      var v := Get(rs, arg);
      if v.Vnum? && 0 <= v.n < |targets| then Running(targets[v.n], rs, m, tr) else Stuck
    case Ireturn(ret) =>
      Returned(if ret.Some? then Some(Get(rs, ret.value)) else None, m, tr)
  }

  function Step(o: Oracle, code: Code, s: State): State {
    if s.Running? then
      if s.pc in code then StepInstr(o, code[s.pc], s.rs, s.m, s.tr) else Stuck
    else
      s
  }

  function Stepper(o: Oracle, code: Code): State -> State {
    s => Step(o, code, s)
  }
}
