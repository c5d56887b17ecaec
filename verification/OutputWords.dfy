/** Compiled code mentions no other locations than allocatable registers and slots for words. */
module OutputWords {
  import opened Values
  import opened Linear
  import opened Words
  import opened Conventions
  import opened Linearize
  import opened Tunneling
  import opened Cleanup
  import Backend
  import Irc
  import Interference
  import Liveness
  import Coloring
  import Moves
  import RegMoves
  import RegTransform
  import Pipeline
  import R = RTL
  import L = LTL

  // --- Linear code ---

  lemma TermWords(t: L.Instr, next: Option<L.Node>, labels: map<L.Node, Label>)
    requires AllWords(L.Operands(t))
    ensures CodeIsWords(TermCode(t, next, labels))
  {
  }

  lemma PieceWords(p: Linearize.Plan, k: nat, piece: Code)
    requires k < |p.order| && p.order[k] in p.code && p.IsPiece(k, piece) && BlockIsWords(p.Block(k))
    ensures CodeIsWords(piece)
  {
    var body :| p.IsPieceWith(k, piece, body);
    LastWords(p, k);
    JoinedWords([Llabel(k + 1)], body);
    JoinedWords([Llabel(k + 1)] + body, p.Term(k));
  }

  lemma LastWords(p: Linearize.Plan, k: nat)
    requires k < |p.order| && p.order[k] in p.code && BlockIsWords(p.Block(k))
    ensures CodeIsWords(p.Term(k))
  {
    var b := p.Block(k);
    if b != [] {
      var t := b[|b| - 1];
      LastIsIn(b);
      TermWords(t, p.Next(k), p.labels);
      assert p.Term(k) == TermCode(t, p.Next(k), p.labels);
    }
  }

  lemma LastIsIn(b: L.Block)
    requires b != [] && BlockIsWords(b)
    ensures AllWords(L.Operands(b[|b| - 1]))
  {
    assert b[|b| - 1] in b;
  }

  lemma JoinedWords(a: Code, b: Code)
    requires CodeIsWords(a) && CodeIsWords(b)
    ensures CodeIsWords(a + b)
  {
  }

  lemma {:induction false} FlattenWords(pieces: seq<Code>)
    requires forall k | 0 <= k < |pieces| :: CodeIsWords(pieces[k])
    ensures CodeIsWords(Flatten(pieces))
    decreases |pieces|
  {
    if pieces != [] {
      FlattenWords(pieces[..|pieces| - 1]);
    }
  }

  lemma LaidOutWords(p: Linearize.Plan, pieces: seq<Code>, entry: L.Node, out: Code)
    requires Lays(p, pieces, entry, out) && forall n | n in p.code :: BlockIsWords(p.code[n])
    ensures CodeIsWords(out)
  {
    forall k | 0 <= k < |pieces|
      ensures CodeIsWords(pieces[k])
    {
      PieceWords(p, k, pieces[k]);
    }
    FlattenWords(pieces);
  }

  lemma TunneledWords(code: Code, out: Code)
    requires IsTunneled(code, out) && CodeIsWords(code)
    ensures CodeIsWords(out)
  {
    var jumps, resolved :| TunneledBy(code, out, jumps, resolved);
    forall c | c in out
      ensures AllWords(Operands(c))
    {
      var k: nat :| k < |out| && out[k] == c;
      assert code[k] in code;
      SameOperands(code[k], resolved);
    }
  }

  lemma SameOperands(i: Instr, resolved: JumpMap)
    ensures Operands(TunnelInstruction(i, resolved)) == Operands(i)
  {
  }

  lemma {:induction false} KeptWords(code: Code, used: set<Label>)
    requires CodeIsWords(code)
    ensures CodeIsWords(Kept(code, used))
    decreases |code|
  {
    if code != [] {
      KeptWords(code[..|code| - 1], used);
    }
  }

  /** The backend adds no other locations. */
  lemma TransformedWords(fn: L.Function, out: Code)
    requires Backend.IsTransformed(fn, out) && forall n | n in fn.code :: BlockIsWords(fn.code[n])
    ensures CodeIsWords(out)
  {
    var linear, tunneled :| IsLinearization(fn.code, fn.entry, linear) && IsTunneled(linear, tunneled) && IsCleaned(tunneled, out);
    var p: Linearize.Plan, pieces :| p.code == fn.code && Lays(p, pieces, fn.entry, linear);
    LaidOutWords(p, pieces, fn.entry, linear);
    TunneledWords(linear, tunneled);
    var used :| CleanedBy(tunneled, out, used);
    KeptWords(tunneled, used);
  }

  // --- LTL code ---

  lemma PlacesAreWords(alloc: Coloring.Places, regs: seq<R.Reg>)
    requires forall r | r in regs :: r in alloc && Coloring.IsPlace(alloc[r])
    ensures AllWords(RegTransform.TransformRegs(regs, alloc))
  {
  }

  ghost predicate HasPlaces(i: R.Instr, alloc: Coloring.Places) {
    forall r | r in Liveness.Uses(i) + Liveness.Defs(i) :: r in alloc && Coloring.IsPlace(alloc[r])
  }

  lemma ThenBranch(i: L.Instr, succ: L.Node)
    requires AllWords(L.Operands(i))
    ensures BlockIsWords([i, L.Lbranch(succ)])
  {
  }

  lemma OpWords(i: R.Instr, alloc: Coloring.Places)
    requires (i.Iop? || i.Iload?) && HasPlaces(i, alloc)
    ensures BlockIsWords(RegTransform.TransformInstr(i, alloc))
  {
    assert i.dest in Liveness.Defs(i) && forall r | r in i.args :: r in Liveness.Uses(i);
    PlacesAreWords(alloc, i.args);
    ThenBranch(RegTransform.TransformInstr(i, alloc)[0], i.succ);
  }

  lemma EffectWords(i: R.Instr, alloc: Coloring.Places)
    requires (i.Istore? || i.Ibuiltin?) && HasPlaces(i, alloc)
    ensures BlockIsWords(RegTransform.TransformInstr(i, alloc))
  {
    assert forall r | r in i.args :: r in Liveness.Uses(i);
    PlacesAreWords(alloc, i.args);
    ThenBranch(RegTransform.TransformInstr(i, alloc)[0], i.succ);
  }

  lemma CallWords(i: R.Instr, alloc: Coloring.Places)
    requires i.Icall? && HasPlaces(i, alloc)
    ensures BlockIsWords(RegTransform.TransformInstr(i, alloc))
  {
    var call := L.Lcall(i.sig, RegTransform.TransformCallee(i.fn, alloc), RegTransform.TransformRegs(i.args, alloc));
    var rest := RegTransform.ResultBlock(i, alloc);
    assert forall r | r in i.args :: r in Liveness.Uses(i);
    PlacesAreWords(alloc, i.args);
    assert AllWords(L.Operands(call));
    ResultWords(i, alloc);
    assert RegTransform.TransformInstr(i, alloc) == [call] + rest;
  }

  lemma ResultWords(i: R.Instr, alloc: Coloring.Places)
    requires i.Icall? && HasPlaces(i, alloc)
    ensures BlockIsWords(RegTransform.ResultBlock(i, alloc))
  {
    if i.callDest != 0 {
      assert i.callDest in Liveness.Defs(i);
    }
  }

  lemma ControlWords(i: R.Instr, alloc: Coloring.Places)
    requires (i.Inop? || i.Itailcall? || i.Icond? || i.Ijumptable? || i.Ireturn?) && HasPlaces(i, alloc)
    ensures BlockIsWords(RegTransform.TransformInstr(i, alloc))
  {
    match i
    case Itailcall(_, _, args) => PlacesAreWords(alloc, args);
    case Icond(_, args, _, _) => PlacesAreWords(alloc, args);
    case _ =>
  }

  lemma InstrWords(i: R.Instr, alloc: Coloring.Places)
    requires HasPlaces(i, alloc)
    ensures BlockIsWords(RegTransform.TransformInstr(i, alloc))
  {
    match i
    case Iop(_, _, _, _) => OpWords(i, alloc);
    case Iload(_, _, _, _, _) => OpWords(i, alloc);
    case Istore(_, _, _, _, _) => EffectWords(i, alloc);
    case Ibuiltin(_, _, _, _) => EffectWords(i, alloc);
    case Icall(_, _, _, _, _) => CallWords(i, alloc);
    case _ => ControlWords(i, alloc);
  }

  lemma MovesWords(moves: seq<Moves.Move>, fn: R.Function, alloc: Coloring.Places)
    requires RegTransform.MovesParams(moves, fn, alloc) && Irc.Total(Interference.AllRegs(fn), alloc)
    ensures BlockIsWords(Moves.MoveInstrs(moves))
  {
    PlacesAreWords(alloc, fn.params);
    assert AllWords(RegTransform.ArrivalPlaces(|fn.params|));
    forall i | i in Moves.MoveInstrs(moves)
      ensures AllWords(L.Operands(i))
    {
      var m :| m in moves && i == Moves.MoveInstr(m);
      assert forall l | RegMoves.IsTemp(l) :: IsWord(l);
    }
  }

  /** Compiled code is words. */
  lemma CompiledWords(fn: R.Function, out: Code, info: Liveness.LivenessInfo, alloc: Coloring.Places, moves: seq<Moves.Move>)
    requires Pipeline.CompiledBy(fn, out, info, alloc, moves)
    ensures CodeIsWords(out)
  {
    var ltl := Pipeline.LtlOf(fn, alloc, moves);
    MovesWords(moves, fn, alloc);
    forall n | n in ltl.code
      ensures BlockIsWords(ltl.code[n])
    {
      var i := fn.code[n];
      assert Liveness.Uses(i) <= Interference.AllRegs(fn) && Liveness.Defs(i) <= Interference.AllRegs(fn);
      InstrWords(i, alloc);
    }
    TransformedWords(ltl, out);
  }
}
