/** From Linear to Mach code (pkg/stacking/transform.go): slots become places in the frame, and operands in slots are
    loaded into X16 and X17 first. */
module Stacking {
  import opened Values
  import opened Frame
  import opened Mach
  import opened Prolog
  import L = LTL
  import Lin = Linear

  const NUM_TEMPS: nat := 2

  /** X16 and X17. */
  function Temp(k: nat): MReg {
    16 + k
  }

  predicate IsTemp(r: MReg) {
    16 <= r < 16 + NUM_TEMPS
  }

  function Getstack(layout: FrameLayout, slot: L.SlotKind, ofs: int, ty: L.Typ, reg: MReg): Instr {
    match slot
    case SlotIncoming => Mgetparam(layout.IncomingSlotOffset(ofs), ty, reg)
    case _ => Mgetstack(layout.TranslateSlotOffset(slot, ofs), ty, reg)
  }

  function Setstack(layout: FrameLayout, src: MReg, slot: L.SlotKind, ofs: int, ty: L.Typ): Instr {
    Msetstack(src, layout.TranslateSlotOffset(slot, ofs), ty)
  }

  /** A location in a register, in temporary k if it is a slot; None is a panic. */
  function InReg(layout: FrameLayout, l: L.Loc, k: nat): Option<(Code, MReg)> {
    match l
    case R(r) => Some(([], r))
    case S(slot, ofs, ty) => if k < NUM_TEMPS then Some(([Getstack(layout, slot, ofs, ty, Temp(k))], Temp(k))) else None
    case Nowhere => None
  }

  /** All locations in registers, with the temporaries that ks says. */
  function InRegs(layout: FrameLayout, locs: seq<L.Loc>, ks: seq<nat>): (r: Option<(Code, seq<MReg>)>)
    requires |ks| == |locs|
    ensures r.Some? ==> |r.value.1| == |locs|
    decreases |locs|
  {
    if locs == [] then Some(([], []))
    else
      var last := |locs| - 1;
      match (InRegs(layout, locs[..last], ks[..last]), InReg(layout, locs[last], ks[last]))
      case (Some((code, regs)), Some((more, reg))) => Some((code + more, regs + [reg]))
      case _ => None
  }

  /** The temporaries by position. */
  function Positions(start: nat, n: nat): (ks: seq<nat>)
    ensures |ks| == n
  {
    seq(n, i requires 0 <= i < n => start + i)
  }

  function CountSlots(locs: seq<L.Loc>): (n: nat)
    ensures n <= |locs|
  {
    if locs == [] then 0 else CountSlots(locs[..|locs| - 1]) + if locs[|locs| - 1].S? then 1 else 0
  }

  /** The temporaries by number of slots before. */
  function SlotNumbers(locs: seq<L.Loc>): (ks: seq<nat>)
    ensures |ks| == |locs|
  {
    seq(|locs|, i requires 0 <= i < |locs| => CountSlots(locs[..i]))
  }

  /** Where a result is computed; a missing location becomes X0. */
  function ResultReg(dest: L.Loc): MReg {
    match dest
    case R(r) => r
    case S(_, _, _) => Temp(0)
    case Nowhere => L.X0
  }

  /** And how it gets into its slot. */
  function ResultCode(layout: FrameLayout, dest: L.Loc): Code {
    match dest
    case S(slot, ofs, ty) => [Setstack(layout, Temp(0), slot, ofs, ty)]
    case _ => []
  }

  function TransformFunRef(fn: L.FunRef): Option<FunRef> {
    match fn
    case FunLoc(l) => if l.R? then Some(FunReg(l.reg)) else None
    case FunSymbol(name) => Some(FunSymbol(name))
  }

  /** The code for an instruction, where restore restores the callee-saved registers; None is a panic. */
  function TransformInstr(layout: FrameLayout, restore: Code, i: Lin.Instr): Option<Code> {
    match i
    case Lgetstack(slot, ofs, ty, reg) => Some([Getstack(layout, slot, ofs, ty, reg)])
    case Lsetstack(src, slot, ofs, ty) => Some([Setstack(layout, src, slot, ofs, ty)])
    case Lop(op, args, dest) =>
      (match InRegs(layout, args, SlotNumbers(args))
       case Some((code, regs)) => Some(code + [Mop(op, regs, ResultReg(dest))] + ResultCode(layout, dest))
       case None => None)
    case Lload(chunk, addr, args, dest) =>
      (match InRegs(layout, args, Positions(0, |args|))
       case Some((code, regs)) =>
         if dest.Nowhere? then None else Some(code + [Mload(chunk, addr, regs, ResultReg(dest))] + ResultCode(layout, dest))
       case None => None)
    case Lstore(chunk, addr, args, src) =>
      (match InRegs(layout, args + [src], Positions(0, |args| + 1))
       case Some((code, regs)) => Some(code + [Mstore(chunk, addr, regs[..|args|], regs[|args|])])
       case None => None)
    case Lcall(sig, fn) => (match TransformFunRef(fn) case Some(f) => Some([Mcall(sig, f)]) case None => None)
    case Ltailcall(sig, fn) => (match TransformFunRef(fn) case Some(f) => Some(restore + [Mtailcall(sig, f)]) case None => None)
    case Lbuiltin(name, args, res) =>
      (match InRegs(layout, args, Positions(0, |args|))
       case Some((code, regs)) =>
         if res.None? then Some(code + [Mbuiltin(name, regs, None)])
         else if res.value.Nowhere? then None
         else Some(code + [Mbuiltin(name, regs, Some(ResultReg(res.value)))] + ResultCode(layout, res.value))
       case None => None)
    case Llabel(l) => Some([Mlabel(l)])
    case Lgoto(l) => Some([Mgoto(l)])
    case Lcond(cond, args, ifso) =>
      (match InRegs(layout, args, Positions(0, |args|))
       case Some((code, regs)) => Some(code + [Mcond(cond, regs, ifso)])
       case None => None)
    case Ljumptable(arg, targets) =>
      (match InReg(layout, arg, 0)
       case Some((code, reg)) => Some(code + [Mjumptable(reg, targets)])
       case None => None)
    case Lreturn => Some(restore + [Mreturn])
  }

  // --- What does not panic ---

  /** Slots are among the first two locations, and none is missing. */
  predicate SlotsFirst(locs: seq<L.Loc>) {
    forall i | 0 <= i < |locs| :: !locs[i].Nowhere? && (locs[i].S? ==> i < NUM_TEMPS)
  }

  predicate NoneMissing(locs: seq<L.Loc>) {
    forall i | 0 <= i < |locs| :: !locs[i].Nowhere?
  }

  /** What the translation can cope with: X16 and X17 suffice for the operands, and callees are no slots. */
  predicate IsLowerable(i: Lin.Instr) {
    match i
    case Lop(_, args, _) => NoneMissing(args) && CountSlots(args) <= NUM_TEMPS
    case Lload(_, _, args, dest) => SlotsFirst(args) && !dest.Nowhere?
    case Lstore(_, _, args, src) => SlotsFirst(args + [src])
    case Lcall(_, fn) => fn.FunLoc? ==> fn.loc.R?
    case Ltailcall(_, fn) => fn.FunLoc? ==> fn.loc.R?
    case Lbuiltin(_, args, res) => SlotsFirst(args) && res != Some(L.Nowhere)
    case Lcond(_, args, _) => SlotsFirst(args)
    case Ljumptable(arg, _) => !arg.Nowhere?
    case _ => true
  }

  lemma {:induction false} InRegsIff(layout: FrameLayout, locs: seq<L.Loc>, ks: seq<nat>)
    requires |ks| == |locs|
    ensures InRegs(layout, locs, ks).Some? <==>
            forall i | 0 <= i < |locs| :: !locs[i].Nowhere? && (locs[i].S? ==> ks[i] < NUM_TEMPS)
    decreases |locs|
  {
    if locs != [] {
      InRegsIff(layout, locs[..|locs| - 1], ks[..|locs| - 1]);
    }
  }

  lemma {:induction false} FewSlots(locs: seq<L.Loc>, n: nat)
    ensures CountSlots(locs) <= n <==> forall i | 0 <= i < |locs| :: locs[i].S? ==> CountSlots(locs[..i]) < n
    decreases |locs|
  {
    if locs != [] {
      var last := |locs| - 1;
      FewSlots(locs[..last], n);
      assert forall i | 0 <= i < last :: locs[..last][..i] == locs[..i];
    }
  }

  /** Exactly those instructions do not make the translation panic. */
  lemma TransformedIff(layout: FrameLayout, restore: Code, i: Lin.Instr)
    ensures TransformInstr(layout, restore, i).Some? <==> IsLowerable(i)
  {
    match i
    case Lop(_, args, _) =>
      InRegsIff(layout, args, SlotNumbers(args));
      FewSlots(args, NUM_TEMPS);
    case Lload(_, _, args, _) => InRegsIff(layout, args, Positions(0, |args|));
    case Lstore(_, _, args, src) => InRegsIff(layout, args + [src], Positions(0, |args| + 1));
    case Lbuiltin(_, args, _) => InRegsIff(layout, args, Positions(0, |args|));
    case Lcond(_, args, _) => InRegsIff(layout, args, Positions(0, |args|));
    case _ =>
  }

  // --- The transformation ---

  function Join(pieces: seq<Code>): Code {
    if pieces == [] then [] else Join(pieces[..|pieces| - 1]) + pieces[|pieces| - 1]
  }

  ghost predicate ArePieces(layout: FrameLayout, restore: Code, code: Lin.Code, pieces: seq<Code>) {
    |pieces| == |code| && forall k | 0 <= k < |code| :: TransformInstr(layout, restore, code[k]) == Some(pieces[k])
  }

  /** What the transformation decides on: the registers saved, the frame, the code for saving and restoring, and that of
      each instruction. */
  datatype Plan = Plan(code: Lin.Code, regs: seq<MReg>, layout: FrameLayout, save: Code, restore: Code, pieces: seq<Code>) {
    ghost predicate Valid() {
      && |regs| % 2 == 0 && (exists used :: AreSaved(code, used) && regs == PadToEven(used))
      && IsLayout(layout, InfoOf(AllLocs(code)), |regs|)
      && SavesUpTo(regs, |regs|, save) && RestoresFrom(regs, 0, restore)
      && ArePieces(layout, restore, code, pieces)
    }

    function Output(): Code {
      save + Join(pieces)
    }
  }

  class Transformer {
    const layout: FrameLayout
    const restore: Code

    constructor (layout: FrameLayout, restore: Code)
      ensures this.layout == layout && this.restore == restore
    {
      this.layout, this.restore := layout, restore;
    }

    method EnsureInReg(l: L.Loc, k: nat) returns (r: Option<(Code, MReg)>)
      ensures r == InReg(layout, l, k)
    {
      match l {
        case R(reg) => r := Some(([], reg));
        case S(slot, ofs, ty) =>
          if k >= NUM_TEMPS {
            return None;
          }
          r := Some(([Getstack(layout, slot, ofs, ty, Temp(k))], Temp(k)));
        case Nowhere => r := None;
      }
    }

    /** The temporaries by position. */
    method LocsToRegs(locs: seq<L.Loc>) returns (r: Option<(Code, seq<MReg>)>)
      ensures r == InRegs(layout, locs, Positions(0, |locs|))
    {
      var code: Code, regs: seq<MReg> := [], [];
      ghost var ks := Positions(0, |locs|);
      for i := 0 to |locs|
        invariant InRegs(layout, locs[..i], ks[..i]) == Some((code, regs))
      {
        var one := EnsureInReg(locs[i], i);
        PrefixStep(layout, locs, ks, i);
        if one.None? {
          NoneStays(layout, locs, ks, i + 1);
          return None;
        }
        code, regs := code + one.value.0, regs + [one.value.1];
      }
      assert locs[..|locs|] == locs && ks[..|locs|] == ks;
      r := Some((code, regs));
    }

    /** The temporaries one after the other, as slots need them. */
    method OpArgs(args: seq<L.Loc>) returns (r: Option<(Code, seq<MReg>)>)
      ensures r == InRegs(layout, args, SlotNumbers(args))
    {
      var code: Code, regs: seq<MReg>, tempIdx: nat := [], [], 0;
      ghost var ks := SlotNumbers(args);
      for i := 0 to |args|
        invariant InRegs(layout, args[..i], ks[..i]) == Some((code, regs)) && tempIdx == CountSlots(args[..i])
      {
        PrefixStep(layout, args, ks, i);
        assert args[..i + 1][..i] == args[..i];
        var one := EnsureInReg(args[i], tempIdx);
        if one.None? {
          NoneStays(layout, args, ks, i + 1);
          return None;
        }
        if args[i].S? {
          tempIdx := tempIdx + 1;
        }
        code, regs := code + one.value.0, regs + [one.value.1];
      }
      assert args[..|args|] == args && ks[..|args|] == ks;
      r := Some((code, regs));
    }

    method TransformLop(op: Operation, args: seq<L.Loc>, dest: L.Loc) returns (r: Option<Code>)
      ensures r == TransformInstr(layout, restore, Lin.Lop(op, args, dest))
    {
      var loaded := OpArgs(args);
      if loaded.None? {
        return None;
      }
      r := Some(loaded.value.0 + [Mop(op, loaded.value.1, ResultReg(dest))] + ResultCode(layout, dest));
    }

    method TransformLload(chunk: Chunk, addr: AddrMode, args: seq<L.Loc>, dest: L.Loc) returns (r: Option<Code>)
      ensures r == TransformInstr(layout, restore, Lin.Lload(chunk, addr, args, dest))
    {
      var loaded := LocsToRegs(args);
      if loaded.None? || dest.Nowhere? {
        return None;
      }
      r := Some(loaded.value.0 + [Mload(chunk, addr, loaded.value.1, ResultReg(dest))] + ResultCode(layout, dest));
    }

    method TransformLstore(chunk: Chunk, addr: AddrMode, args: seq<L.Loc>, src: L.Loc) returns (r: Option<Code>)
      ensures r == TransformInstr(layout, restore, Lin.Lstore(chunk, addr, args, src))
    {
      var locs, n := args + [src], |args|;
      var loaded := LocsToRegs(args);
      var one := EnsureInReg(src, n);
      assert locs[..n] == args && Positions(0, n + 1)[..n] == Positions(0, n);
      if loaded.None? || one.None? {
        return None;
      }
      r := Some(loaded.value.0 + one.value.0 + [Mstore(chunk, addr, loaded.value.1, one.value.1)]);
      assert (loaded.value.1 + [one.value.1])[..n] == loaded.value.1;
    }

    method TransformLbuiltin(name: string, args: seq<L.Loc>, res: Option<L.Loc>) returns (r: Option<Code>)
      ensures r == TransformInstr(layout, restore, Lin.Lbuiltin(name, args, res))
    {
      var loaded := LocsToRegs(args);
      if loaded.None? || res == Some(L.Nowhere) {
        return None;
      }
      var dest: Option<MReg>, store: Code := None, [];
      if res.Some? {
        dest, store := Some(ResultReg(res.value)), ResultCode(layout, res.value);
      }
      r := Some(loaded.value.0 + [Mbuiltin(name, loaded.value.1, dest)] + store);
      assert res.None? ==> r.value == loaded.value.0 + [Mbuiltin(name, loaded.value.1, None)];
    }

    method TransformLcond(cond: ConditionCode, args: seq<L.Loc>, ifso: Lin.Label) returns (r: Option<Code>)
      ensures r == TransformInstr(layout, restore, Lin.Lcond(cond, args, ifso))
    {
      var loaded := LocsToRegs(args);
      if loaded.None? {
        return None;
      }
      r := Some(loaded.value.0 + [Mcond(cond, loaded.value.1, ifso)]);
    }

    method TransformLjumptable(arg: L.Loc, targets: seq<Lin.Label>) returns (r: Option<Code>)
      ensures r == TransformInstr(layout, restore, Lin.Ljumptable(arg, targets))
    {
      var one := EnsureInReg(arg, 0);
      if one.None? {
        return None;
      }
      r := Some(one.value.0 + [Mjumptable(one.value.1, targets)]);
    }

    method TransformInst(i: Lin.Instr) returns (r: Option<Code>)
      ensures r == TransformInstr(layout, restore, i)
    {
      match i {
        case Lop(op, args, dest) => r := TransformLop(op, args, dest);
        case Lload(chunk, addr, args, dest) => r := TransformLload(chunk, addr, args, dest);
        case Lstore(chunk, addr, args, src) => r := TransformLstore(chunk, addr, args, src);
        case Lbuiltin(name, args, res) => r := TransformLbuiltin(name, args, res);
        case Lcond(cond, args, ifso) => r := TransformLcond(cond, args, ifso);
        case Ljumptable(arg, targets) => r := TransformLjumptable(arg, targets);
        case _ => r := TransformInstr(layout, restore, i);
      }
    }

    method TransformAll(code: Lin.Code) returns (body: Option<Code>, ghost pieces: seq<Code>)
      ensures body.Some? <==> forall i | i in code :: IsLowerable(i)
      ensures body.Some? ==> ArePieces(layout, restore, code, pieces) && body.value == Join(pieces)
    {
      var result: Code := [];
      pieces := [];
      for k := 0 to |code|
        invariant ArePieces(layout, restore, code[..k], pieces) && result == Join(pieces)
        invariant forall i | i in code[..k] :: IsLowerable(i)
      {
        var piece := TransformInst(code[k]);
        TransformedIff(layout, restore, code[k]);
        if piece.None? {
          return None, pieces;
        }
        assert (pieces + [piece.value])[..k] == pieces;
        assert code[..k + 1] == code[..k] + [code[k]];
        result, pieces := result + piece.value, pieces + [piece.value];
      }
      assert code[..|code|] == code;
      body := Some(result);
    }
  }

  lemma PrefixStep(layout: FrameLayout, locs: seq<L.Loc>, ks: seq<nat>, i: nat)
    requires |ks| == |locs| && i < |locs|
    ensures InRegs(layout, locs[..i + 1], ks[..i + 1]) ==
            match (InRegs(layout, locs[..i], ks[..i]), InReg(layout, locs[i], ks[i]))
            case (Some((code, regs)), Some((more, reg))) => Some((code + more, regs + [reg]))
            case _ => None
  {
    assert locs[..i + 1][..i] == locs[..i] && ks[..i + 1][..i] == ks[..i];
  }

  lemma {:induction false} NoneStays(layout: FrameLayout, locs: seq<L.Loc>, ks: seq<nat>, i: nat)
    requires |ks| == |locs| && i <= |locs| && InRegs(layout, locs[..i], ks[..i]).None?
    ensures InRegs(layout, locs, ks).None?
    decreases |locs| - i
  {
    if i < |locs| {
      PrefixStep(layout, locs, ks, i);
      NoneStays(layout, locs, ks, i + 1);
    } else {
      assert locs[..i] == locs && ks[..i] == ks;
    }
  }

  /** The whole function: which registers to save, the frame, and the code. */
  method Transform(code: Lin.Code) returns (out: Option<Code>, ghost p: Plan)
    ensures p.code == code && (out.Some? <==> forall i | i in code :: IsLowerable(i))
    ensures out.Some? ==> p.Valid() && out.value == p.Output()
  {
    var used := FindUsedCalleeSaveRegs(code);
    var regs := PadToEven(used);
    var layout := ComputeLayout(code, |regs|);
    var save := SaveRegisters(regs);
    var restore := RestoreRegisters(regs);
    var t := new Transformer(layout, restore);
    var body, pieces := t.TransformAll(code);
    p := Plan(code, regs, layout, save, restore, pieces);
    if body.None? {
      return None, p;
    }
    out := Some(save + body.value);
  }
}
