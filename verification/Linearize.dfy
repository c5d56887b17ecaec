/** From blocks to a list of instructions (pkg/linearize/linearize.go): a label and the code of each block in
    order, with jumps left out where the target comes next. */
module Linearize {
  import opened Values
  import opened Runs
  import opened Linear
  import opened CallMoves
  import opened Order
  import opened Words
  import L = LTL

  predicate IsTerminator(i: L.Instr) {
    i.Lbranch? || i.Lcond? || i.Ljumptable? || i.Ltailcall? || i.Lreturn?
  }

  ghost predicate IsBodyInstr(i: L.Instr) {
    !IsTerminator(i) && (i.Lcall? ==> OperandsSafe(i.sig, i.fn, i.args))
  }

  /** Ends with its only terminator, and calls have their operands where the moves can cope. */
  ghost predicate IsSafeBlock(b: L.Block) {
    b != [] && IsTerminator(b[|b| - 1]) && forall i | 0 <= i < |b| - 1 :: IsBodyInstr(b[i])
  }

  // --- Bodies ---

  /** Straight code that does what the LTL instructions do, from every machine state. */
  ghost predicate EmulatesBody(code: Code, body: seq<L.Instr>) {
    forall o: Oracle, s: L.Machine :: BodyOn(o, code, body, s)
  }

  ghost predicate BodyOn(o: Oracle, code: Code, body: seq<L.Instr>, s: L.Machine) {
    ExecAll(o, code, s) == L.ExecBody(o, body, s)
  }

  predicate AllStraight(code: Code) {
    forall c | c in code :: c.IsStraight()
  }

  lemma BodyStep(code: Code, body: seq<L.Instr>, part: Code, i: L.Instr)
    requires EmulatesBody(code, body) && Emulates(part, i)
    ensures EmulatesBody(code + part, body + [i])
  {
    forall o: Oracle, s: L.Machine
      ensures BodyOn(o, code + part, body + [i], s)
    {
      assert BodyOn(o, code, body, s);
      ExecAllAppend(o, code, part, s);
      L.ExecBodyAppend(o, body, [i], s);
      match L.ExecBody(o, body, s)
      case None =>
      case Some(s') =>
        L.ExecOne(o, i, s');
        assert EmulatesOn(o, part, i, s');
    }
  }

  lemma OneEmulates(c: Instr, i: L.Instr)
    requires c.IsStraight() && forall o: Oracle, s: L.Machine :: Exec(o, c, s) == L.ExecInstr(o, i, s)
    ensures Emulates([c], i)
  {
    forall o: Oracle, s: L.Machine
      ensures EmulatesOn(o, [c], i, s)
    {
      assert [c][1..] == [];
      match Exec(o, c, s)
      case None =>
      case Some(s') => assert ExecAll(o, [], s') == Some(s');
    }
  }

  /** Code for the first n instructions of a block. */
  ghost predicate IsBodyOf(b: L.Block, n: nat, body: Code)
    requires n <= |b|
  {
    && AllStraight(body) && (IsSafeBlock(b) ==> EmulatesBody(body, b[..n]))
    && (BlockIsWords(b) ==> CodeIsWords(body))
  }

  lemma BodyGrows(b: L.Block, n: nat, body: Code, part: Code)
    requires n < |b| - 1 && IsBodyOf(b, n, body) && AllStraight(part) && KeepsWords(part, b[n])
    requires IsBodyInstr(b[n]) ==> Emulates(part, b[n])
    ensures IsBodyOf(b, n + 1, body + part)
  {
    if IsSafeBlock(b) {
      BodyStep(body, b[..n], part, b[n]);
      assert b[..n + 1] == b[..n] + [b[n]];
    }
    WordsGrow(b, n, body, part);
  }

  lemma WordsGrow(b: L.Block, n: nat, body: Code, part: Code)
    requires n < |b| && (BlockIsWords(b) ==> CodeIsWords(body)) && KeepsWords(part, b[n])
    ensures BlockIsWords(b) ==> CodeIsWords(body + part)
  {
    assert b[n] in b;
  }

  method ConvertInstruction(i: L.Instr) returns (code: Code)
    ensures AllStraight(code) && KeepsWords(code, i)
    ensures IsBodyInstr(i) ==> Emulates(code, i)
  {
    match i
    case Lop(op, args, dest) =>
      OneEmulates(Lop(op, args, dest), i);
      code := [Lop(op, args, dest)];
    case Lload(chunk, addr, args, dest) =>
      OneEmulates(Lload(chunk, addr, args, dest), i);
      code := [Lload(chunk, addr, args, dest)];
    case Lstore(chunk, addr, args, src) =>
      OneEmulates(Lstore(chunk, addr, args, src), i);
      code := [Lstore(chunk, addr, args, src)];
    case Lbuiltin(name, args, res) =>
      OneEmulates(Lbuiltin(name, args, res), i);
      code := [Lbuiltin(name, args, res)];
    case Lcall(sig, fn, args) =>
      code := ConvertCall(sig, fn, args);
    case _ =>
      code := [];
      assert IsBodyInstr(i) ==> forall o: Oracle, s: L.Machine :: EmulatesOn(o, code, i, s);
  }

  // --- Layout ---

  function LabelOf(labels: map<L.Node, Label>, n: L.Node): Label {
    if n in labels then labels[n] else 0
  }

  function TermCode(t: L.Instr, next: Option<L.Node>, labels: map<L.Node, Label>): (code: Code)
    ensures forall l :: Llabel(l) !in code
  {
    match t
    case Lbranch(succ) => if next == Some(succ) then [] else [Lgoto(LabelOf(labels, succ))]
    case Lcond(cond, args, ifso, ifnot) =>
      var branch := Lcond(cond, args, LabelOf(labels, ifso));
      if next == Some(ifnot) then [branch] else [branch, Lgoto(LabelOf(labels, ifnot))]
    case Ljumptable(arg, targets) =>
      [Ljumptable(arg, seq(|targets|, i requires 0 <= i < |targets| => LabelOf(labels, targets[i])))]
    case Ltailcall(sig, fn, _) => [Ltailcall(sig, fn)]
    case Lreturn => [Lreturn]
    case _ => []
  }

  function Flatten(pieces: seq<Code>): Code {
    if pieces == [] then [] else Flatten(pieces[..|pieces| - 1]) + pieces[|pieces| - 1]
  }

  /** How a function is laid out: blocks in order and their labels. */
  datatype Plan = Plan(code: L.Code, order: seq<L.Node>, labels: map<L.Node, Label>) {
    /** Different blocks, numbered from 1. */
    ghost predicate Valid() {
      && (forall k | 0 <= k < |order| :: order[k] in code && order[k] in labels && labels[order[k]] == k + 1)
      && (forall i, j | 0 <= i < j < |order| :: order[i] != order[j])
      && (forall m | m in labels :: m in order)
    }

    function Block(k: nat): L.Block
      requires k < |order| && order[k] in code
    {
      code[order[k]]
    }

    function Next(k: nat): Option<L.Node> {
      if k + 1 < |order| then Some(order[k + 1]) else None
    }

    function Term(k: nat): Code
      requires k < |order| && order[k] in code
    {
      if Block(k) == [] then [] else TermCode(Block(k)[|Block(k)| - 1], Next(k), labels)
    }

    /** Code that does what the body of block k does, if that is safe. */
    ghost predicate BodyIsRight(k: nat, body: Code)
      requires k < |order| && order[k] in code
    {
      if Block(k) == [] then AllStraight(body) && CodeIsWords(body) else IsBodyOf(Block(k), |Block(k)| - 1, body)
    }

    /** The code of block k: its label, its body, its terminator. */
    ghost predicate IsPiece(k: nat, piece: Code)
      requires k < |order| && order[k] in code
    {
      exists body :: IsPieceWith(k, piece, body)
    }

    ghost predicate IsPieceWith(k: nat, piece: Code, body: Code)
      requires k < |order| && order[k] in code
    {
      piece == [Llabel(k + 1)] + body + Term(k) && BodyIsRight(k, body)
    }

    ghost predicate ArePieces(pieces: seq<Code>)
      requires Valid()
    {
      |pieces| <= |order| && forall k | 0 <= k < |pieces| :: IsPiece(k, pieces[k])
    }
  }

  /** No jump leads to what follows it anyway. */
  ghost predicate NoIdleJump(code: Code, i: nat)
    requires i < |code| - 1
  {
    code[i].Lgoto? ==> code[i + 1] != Llabel(code[i].target)
  }

  /** Nor does the last one lead to the block that comes next. */
  ghost predicate JumpsAway(code: Code, next: Label) {
    && (forall i: nat | i < |code| - 1 :: NoIdleJump(code, i))
    && (code != [] && code[|code| - 1].Lgoto? ==> code[|code| - 1].target != next)
  }

  lemma PieceJumpsAway(p: Plan, k: nat, piece: Code)
    requires p.Valid() && k < |p.order| && p.IsPiece(k, piece)
    ensures JumpsAway(piece, k + 2) && piece[0] == Llabel(k + 1)
  {
    var body :| p.IsPieceWith(k, piece, body);
    var term, n := p.Term(k), 1 + |body|;
    assert piece[..n] == [Llabel(k + 1)] + body && piece[n..] == term;
    forall i: nat | i < |piece|
      ensures piece[i].Lgoto? ==> i == |piece| - 1 && piece[i].target != k + 2
    {
      if 1 <= i < n {
        assert piece[i] == body[i - 1] && body[i - 1] in body;
      } else if i >= n {
        assert piece[i] == term[i - n];
      }
    }
  }

  lemma JoinJumpsAway(front: Code, piece: Code, at: Label, next: Label)
    requires JumpsAway(front, at) && JumpsAway(piece, next) && piece != [] && piece[0] == Llabel(at)
    ensures JumpsAway(front + piece, next)
  {
    forall i: nat | i < |front + piece| - 1
      ensures NoIdleJump(front + piece, i)
    {
      if i < |front| - 1 {
        assert NoIdleJump(front, i);
      } else if i >= |front| {
        assert NoIdleJump(piece, i - |front|);
      }
    }
  }

  lemma {:induction false} PiecesJumpAway(p: Plan, pieces: seq<Code>)
    requires p.Valid() && p.ArePieces(pieces)
    ensures JumpsAway(Flatten(pieces), |pieces| + 1)
    decreases |pieces|
  {
    if pieces != [] {
      var k := |pieces| - 1;
      PiecesJumpAway(p, pieces[..k]);
      PieceJumpsAway(p, k, pieces[k]);
      JoinJumpsAway(Flatten(pieces[..k]), pieces[k], k + 1, k + 2);
    }
  }

  /** The layout needs no jump from a block to the next one. */
  lemma FallsThrough(code: L.Code, entry: L.Node, out: Code, i: nat)
    requires IsLinearization(code, entry, out) && i < |out| - 1
    ensures NoIdleJump(out, i)
  {
    var p: Plan, pieces :| p.code == code && Lays(p, pieces, entry, out);
    PiecesJumpAway(p, pieces);
  }

  /** What Linearize promises: some layout of all reachable blocks. */
  ghost predicate Lays(p: Plan, pieces: seq<Code>, entry: L.Node, out: Code) {
    && IsOrder(p.code, entry, p.order) && p.Valid()
    && p.ArePieces(pieces) && |pieces| == |p.order| && out == Flatten(pieces)
  }

  ghost predicate IsLinearization(code: L.Code, entry: L.Node, out: Code) {
    exists p: Plan, pieces :: p.code == code && Lays(p, pieces, entry, out)
  }

  lemma {:induction false} OneMorePiece(p: Plan, pieces: seq<Code>, piece: Code)
    requires p.Valid() && p.ArePieces(pieces) && |pieces| < |p.order| && p.IsPiece(|pieces|, piece)
    ensures p.ArePieces(pieces + [piece]) && Flatten(pieces + [piece]) == Flatten(pieces) + piece
  {
    assert (pieces + [piece])[..|pieces|] == pieces;
  }

  /** The linearizer of one function. */
  class Linearizer {
    const fn: L.Function
    var order: seq<L.Node>
    var nodeToLbl: map<L.Node, Label>
    var nextLabel: Label
    var result: Code

    constructor (fn: L.Function)
      ensures this.fn == fn && order == [] && nodeToLbl == map[] && nextLabel == 0 && result == []
    {
      this.fn := fn;
      order, nodeToLbl, nextLabel, result := [], map[], 0, [];
    }

    method AssignLabels()
      requires forall i, j | 0 <= i < j < |order| :: order[i] != order[j]
      requires nodeToLbl == map[]
      modifies this`nodeToLbl, this`nextLabel
      ensures forall n | n in nodeToLbl :: n in order
      ensures forall k | 0 <= k < |order| :: order[k] in nodeToLbl && nodeToLbl[order[k]] == k + 1
    {
      nextLabel := 1;
      for i := 0 to |order|
        invariant nextLabel == i + 1
        invariant forall n | n in nodeToLbl :: n in order
        invariant forall k | 0 <= k < i :: order[k] in nodeToLbl && nodeToLbl[order[k]] == k + 1
      {
        nodeToLbl := nodeToLbl[order[i] := nextLabel];
        nextLabel := nextLabel + 1;
      }
    }

    /** The code of a body, appended to the result. */
    method EmitBody(b: L.Block) returns (ghost body: Code)
      requires b != []
      modifies this`result
      ensures result == old(result) + body && IsBodyOf(b, |b| - 1, body)
    {
      body := [];
      assert forall o: Oracle, s: L.Machine :: BodyOn(o, body, b[..0], s);
      for i := 0 to |b| - 1
        invariant result == old(result) + body && IsBodyOf(b, i, body)
      {
        var part := ConvertInstruction(b[i]);
        BodyGrows(b, i, body, part);
        body := body + part;
        result := result + part;
      }
    }

    ghost function ThePlan(): Plan
      reads this
    {
      Plan(fn.code, order, nodeToLbl)
    }

    method EmitBlock(k: nat) returns (ghost piece: Code)
      requires ThePlan().Valid() && k < |order|
      modifies this`result
      ensures result == old(result) + piece && ThePlan().IsPiece(k, piece)
    {
      var b := fn.code[order[k]];
      result := result + [Llabel(nodeToLbl[order[k]])];
      ghost var body: Code := [];
      if |b| > 0 {
        body := EmitBody(b);
        var next := if k + 1 < |order| then Some(order[k + 1]) else None;
        result := result + TermCode(b[|b| - 1], next, nodeToLbl);
      }
      piece := [Llabel(k + 1)] + body + ThePlan().Term(k);
      assert ThePlan().IsPieceWith(k, piece, body);
    }

    method EmitAll() returns (ghost pieces: seq<Code>)
      requires result == [] && ThePlan().Valid()
      modifies this`result
      ensures ThePlan().ArePieces(pieces) && |pieces| == |order| && result == Flatten(pieces)
    {
      pieces := [];
      ghost var p := ThePlan();
      for k := 0 to |order|
        invariant ThePlan() == p && p.ArePieces(pieces) && |pieces| == k && result == Flatten(pieces)
      {
        ghost var piece := EmitBlock(k);
        OneMorePiece(p, pieces, piece);
        pieces := pieces + [piece];
      }
    }
  }

  method LinearizeFunction(fn: L.Function) returns (out: Code)
    ensures IsLinearization(fn.code, fn.entry, out)
  {
    var l := new Linearizer(fn);
    if |fn.code| == 0 {
      assert Lays(Plan(fn.code, [], map[]), [], fn.entry, []);
      return [];
    }
    l.order := ComputeOrder(fn.code, fn.entry);
    l.AssignLabels();
    ghost var pieces := l.EmitAll();
    assert Lays(l.ThePlan(), pieces, fn.entry, l.result);
    out := l.result;
  }
}
