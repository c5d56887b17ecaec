/** Linearisation preserves meaning: the laid-out code runs as the control-flow graph does. */
module LinearizeProof {
  import opened Values
  import opened Runs
  import opened Linear
  import opened CallMoves
  import opened Order
  import opened Linearize
  import L = LTL

  // --- Where things are ---

  lemma {:induction false} FlattenGrows(pieces: seq<Code>, k: nat)
    requires k <= |pieces|
    ensures Flatten(pieces[..k]) <= Flatten(pieces)
    decreases |pieces|
  {
    if k == |pieces| {
      assert pieces[..k] == pieces;
    } else {
      var last := |pieces| - 1;
      FlattenGrows(pieces[..last], k);
      assert pieces[..last][..k] == pieces[..k];
    }
  }

  ghost function Start(pieces: seq<Code>, k: nat): nat
    requires k <= |pieces|
  {
    |Flatten(pieces[..k])|
  }

  lemma PieceAt(pieces: seq<Code>, k: nat)
    requires k < |pieces|
    ensures Start(pieces, k) + |pieces[k]| == Start(pieces, k + 1)
    ensures CodeAt(Flatten(pieces), Start(pieces, k), pieces[k])
  {
    FlattenGrows(pieces, k + 1);
    assert pieces[..k + 1][..k] == pieces[..k];
    CodeAtPrefix(Flatten(pieces), Flatten(pieces[..k]), pieces[k]);
  }

  /** Piece k starts with label k + 1 and has no other. */
  ghost predicate Numbered(pieces: seq<Code>) {
    forall k | 0 <= k < |pieces| :: StartsWithLabel(pieces[k], k + 1)
  }

  ghost predicate StartsWithLabel(piece: Code, l: Label) {
    piece != [] && piece[0] == Llabel(l) && forall x | Llabel(x) in piece :: x == l
  }

  lemma {:induction false} LabelsInFlatten(pieces: seq<Code>, l: Label)
    requires Numbered(pieces) && Llabel(l) in Flatten(pieces)
    ensures 1 <= l <= |pieces|
    decreases |pieces|
  {
    if pieces == [] {
    } else {
      var last := |pieces| - 1;
      if Llabel(l) in pieces[last] {
        assert StartsWithLabel(pieces[last], last + 1);
      } else {
        assert Numbered(pieces[..last]);
        LabelsInFlatten(pieces[..last], l);
      }
    }
  }

  lemma FindPiece(pieces: seq<Code>, k: nat)
    requires Numbered(pieces) && k < |pieces|
    ensures FindLabel(Flatten(pieces), k + 1) == Some(Start(pieces, k))
  {
    var out, at := Flatten(pieces), Start(pieces, k);
    PieceAt(pieces, k);
    FlattenGrows(pieces, k);
    assert StartsWithLabel(pieces[k], k + 1) && out[at..at + |pieces[k]|][0] == pieces[k][0];
    assert out[..at] == Flatten(pieces[..k]);
    assert Numbered(pieces[..k]);
    if Llabel(k + 1) in out[..at] {
      LabelsInFlatten(pieces[..k], k + 1);
    }
    FoundAt(out, k + 1, at);
  }

  lemma PiecesNumbered(p: Plan, pieces: seq<Code>)
    requires p.Valid() && p.ArePieces(pieces)
    ensures Numbered(pieces)
  {
    forall k | 0 <= k < |pieces|
      ensures StartsWithLabel(pieces[k], k + 1)
    {
      assert p.IsPiece(k, pieces[k]);
      PieceNumbered(p, k, pieces[k]);
    }
  }

  lemma PieceNumbered(p: Plan, k: nat, piece: Code)
    requires k < |p.order| && p.order[k] in p.code && p.IsPiece(k, piece)
    ensures StartsWithLabel(piece, k + 1)
  {
    var body :| p.IsPieceWith(k, piece, body);
  }

  // --- Matching states ---

  /** Linear code, its labels, and where it has the blocks of the LTL code. */
  datatype World = World(code: L.Code, out: Code, labels: map<L.Node, Label>, starts: map<L.Node, nat>) {
    /** The label of the node is found where its block starts. */
    ghost predicate IsFound(n: L.Node) {
      n in labels && n in starts && FindLabel(out, labels[n]) == Some(starts[n])
    }

    ghost predicate Valid() {
      && labels.Keys == starts.Keys && FindLabel(out, 0) == None
      && forall n {:trigger IsFound(n)} | n in starts :: IsFound(n)
    }

    /** A node that laid-out blocks may go to. */
    predicate IsKnown(n: L.Node) {
      n in starts || n !in code
    }

    /** The LTL machine is about to run a block and the Linear machine is at its label; or both have ended alike. */
    ghost predicate Match(s: L.State, t: State) {
      match s
      case Running(pc, ls, m, tr) =>
        if pc in starts then t == Running(starts[pc], ls, m, tr) else pc !in code && t.Stuck?
      case Returned(ls, m, tr) => t == Returned(ls, m, tr)
      case TailCalled(callee, _, m, tr) => t == TailCalled(callee, m, tr)
      case Stuck => t.Stuck?
    }

    /** The next block, if any, starts at this point. */
    ghost predicate NextAt(next: Option<L.Node>, at: nat) {
      next.Some? ==> next.value in starts && starts[next.value] == at
    }
  }

  /** After j steps the Linear machine matches the LTL state. */
  ghost predicate Arrives(g: State -> State, w: World, s: L.State, t: State, j: nat) {
    w.Match(s, Iterate(g, t, j))
  }

  lemma ArrivesLater(g: State -> State, w: World, s: L.State, t: State, t1: State, j: nat, i: nat)
    requires Iterate(g, t, j) == t1 && Arrives(g, w, s, t1, i)
    ensures Arrives(g, w, s, t, j + i)
  {
    IterateAdd(g, t, j, i);
  }

  lemma JumpMatches(w: World, n: L.Node, s: L.Machine)
    requires w.Valid() && w.IsKnown(n)
    ensures w.Match(L.Running(n, s.ls, s.m, s.tr), Jump(w.out, LabelOf(w.labels, n), s))
  {
    assert n in w.starts ==> w.IsFound(n);
  }

  // --- Terminators ---

  /** g is the step function of the code. */
  ghost predicate Steps(g: State -> State, o: Oracle, code: Code) {
    forall s {:trigger Step(o, code, s)} :: g(s) == Step(o, code, s)
  }

  lemma StepAt(g: State -> State, o: Oracle, code: Code, at: nat, i: Instr, s: L.Machine)
    requires Steps(g, o, code) && CodeAt(code, at, [i])
    ensures Iterate(g, RunningAt(at, s), 1) == StepInstr(o, code, i, at, s)
  {
    assert code[at] == code[at..at + 1][0] == i;
    var t := RunningAt(at, s);
    assert g(t) == Step(o, code, t);
    assert Iterate(g, g(t), 0) == g(t);
  }

  lemma StraightRuns(g: State -> State, o: Oracle, code: Code, at: nat, part: Code, s: L.Machine)
    requires Steps(g, o, code) && CodeAt(code, at, part) && AllStraight(part)
    ensures Iterate(g, RunningAt(at, s), |part|) ==
            match ExecAll(o, part, s) case Some(s') => RunningAt(at + |part|, s') case None => Stuck
  {
    RunStraight(o, code, at, part, s);
    SameIterate(g, Stepper(o, code), o, code, RunningAt(at, s), |part|);
  }

  lemma {:induction false} SameIterate(g: State -> State, h: State -> State, o: Oracle, code: Code, t: State, k: nat)
    requires Steps(g, o, code) && Steps(h, o, code)
    ensures Iterate(g, t, k) == Iterate(h, t, k)
    decreases k
  {
    if k == 0 {
    } else {
      assert g(t) == Step(o, code, t) && h(t) == Step(o, code, t);
      SameIterate(g, h, o, code, g(t), k - 1);
    }
  }

  /** Going to a node by a jump, or by falling through to it. */
  lemma GoMatches(g: State -> State, o: Oracle, w: World, n: L.Node, next: Option<L.Node>, s: L.Machine, at: nat)
    returns (j: nat)
    requires Steps(g, o, w.out) && w.Valid() && w.IsKnown(n)
    requires if next == Some(n) then w.NextAt(next, at) else CodeAt(w.out, at, [Lgoto(LabelOf(w.labels, n))])
    ensures Arrives(g, w, L.Running(n, s.ls, s.m, s.tr), RunningAt(at, s), j)
  {
    if next == Some(n) {
      j := 0;
    } else {
      StepAt(g, o, w.out, at, Lgoto(LabelOf(w.labels, n)), s);
      JumpMatches(w, n, s);
      j := 1;
    }
  }

  lemma CondMatches(g: State -> State, o: Oracle, w: World, t: L.Instr, next: Option<L.Node>, s: L.Machine, at: nat)
    returns (j: nat)
    requires Steps(g, o, w.out) && w.Valid() && t.Lcond? && w.IsKnown(t.ifso) && w.IsKnown(t.ifnot)
    requires CodeAt(w.out, at, [Lcond(t.cond, t.args, LabelOf(w.labels, t.ifso))])
    requires if next == Some(t.ifnot) then w.NextAt(next, at + 1) else CodeAt(w.out, at + 1, [Lgoto(LabelOf(w.labels, t.ifnot))])
    ensures Arrives(g, w, L.Terminate(o, t, s), RunningAt(at, s), j)
  {
    StepAt(g, o, w.out, at, Lcond(t.cond, t.args, LabelOf(w.labels, t.ifso)), s);
    j := 1;
    var c := EvalCondCode(o, t.cond, GetAll(s.ls, t.args));
    if c == Some(true) {
      assert L.Terminate(o, t, s) == L.Running(t.ifso, s.ls, s.m, s.tr);
      JumpMatches(w, t.ifso, s);
    } else if c == Some(false) {
      assert Iterate(g, RunningAt(at, s), 1) == RunningAt(at + 1, s);
      j := ElseMatches(g, o, w, t, next, s, at);
    } else {
      assert L.Terminate(o, t, s) == L.Stuck;
    }
  }

  lemma ElseMatches(g: State -> State, o: Oracle, w: World, t: L.Instr, next: Option<L.Node>, s: L.Machine, at: nat)
    returns (j: nat)
    requires Steps(g, o, w.out) && w.Valid() && t.Lcond? && w.IsKnown(t.ifnot)
    requires EvalCondCode(o, t.cond, GetAll(s.ls, t.args)) == Some(false)
    requires Iterate(g, RunningAt(at, s), 1) == RunningAt(at + 1, s)
    requires if next == Some(t.ifnot) then w.NextAt(next, at + 1) else CodeAt(w.out, at + 1, [Lgoto(LabelOf(w.labels, t.ifnot))])
    ensures Arrives(g, w, L.Terminate(o, t, s), RunningAt(at, s), j)
  {
    assert L.Terminate(o, t, s) == L.Running(t.ifnot, s.ls, s.m, s.tr);
    var i := GoMatches(g, o, w, t.ifnot, next, s, at + 1);
    ArrivesLater(g, w, L.Terminate(o, t, s), RunningAt(at, s), RunningAt(at + 1, s), 1, i);
    j := 1 + i;
  }

  lemma TableMatches(g: State -> State, o: Oracle, w: World, t: L.Instr, s: L.Machine, at: nat)
    requires Steps(g, o, w.out) && w.Valid() && t.Ljumptable? && forall n | n in t.targets :: w.IsKnown(n)
    requires CodeAt(w.out, at, TermCode(t, None, w.labels))
    ensures Arrives(g, w, L.Terminate(o, t, s), RunningAt(at, s), 1)
  {
    var table := TermCode(t, None, w.labels)[0];
    StepAt(g, o, w.out, at, table, s);
    var v := Get(s.ls, t.arg);
    if v.Vnum? && 0 <= v.n < |t.targets| {
      assert t.targets[v.n] in t.targets;
      JumpMatches(w, t.targets[v.n], s);
    }
  }

  lemma ExitMatches(g: State -> State, o: Oracle, w: World, t: L.Instr, s: L.Machine, at: nat)
    requires Steps(g, o, w.out) && (t.Lreturn? || t.Ltailcall?) && CodeAt(w.out, at, TermCode(t, None, w.labels))
    ensures Arrives(g, w, L.Terminate(o, t, s), RunningAt(at, s), 1)
  {
    StepAt(g, o, w.out, at, TermCode(t, None, w.labels)[0], s);
    if t.Lreturn? {
      assert L.Terminate(o, t, s) == L.Returned(s.ls, s.m, s.tr);
    } else {
      assert L.Terminate(o, t, s) == L.TailCalled(L.CalleeOf(t.fn, s.ls), GetAll(s.ls, t.args), s.m, s.tr);
    }
  }

  lemma BranchMatches(g: State -> State, o: Oracle, w: World, t: L.Instr, next: Option<L.Node>, s: L.Machine, at: nat)
    returns (j: nat)
    requires Steps(g, o, w.out) && w.Valid() && t.Lbranch? && forall n | n in BlockSuccessors([t]) :: w.IsKnown(n)
    requires CodeAt(w.out, at, TermCode(t, next, w.labels)) && w.NextAt(next, at + |TermCode(t, next, w.labels)|)
    ensures Arrives(g, w, L.Terminate(o, t, s), RunningAt(at, s), j)
  {
    assert t.succ in BlockSuccessors([t]);
    j := GoMatches(g, o, w, t.succ, next, s, at);
    assert L.Terminate(o, t, s) == L.Running(t.succ, s.ls, s.m, s.tr);
  }

  lemma CondParts(w: World, t: L.Instr, next: Option<L.Node>, at: nat)
    requires t.Lcond?
    requires CodeAt(w.out, at, TermCode(t, next, w.labels)) && w.NextAt(next, at + |TermCode(t, next, w.labels)|)
    ensures CodeAt(w.out, at, [Lcond(t.cond, t.args, LabelOf(w.labels, t.ifso))])
    ensures if next == Some(t.ifnot) then w.NextAt(next, at + 1) else CodeAt(w.out, at + 1, [Lgoto(LabelOf(w.labels, t.ifnot))])
  {
    var branch, rest := [Lcond(t.cond, t.args, LabelOf(w.labels, t.ifso))], [Lgoto(LabelOf(w.labels, t.ifnot))];
    if next != Some(t.ifnot) {
      assert TermCode(t, next, w.labels) == branch + rest;
      CodeAtSplit(w.out, at, branch, rest);
    }
  }

  /** The code of a terminator does what it does in LTL. */
  lemma TermMatches(g: State -> State, o: Oracle, w: World, t: L.Instr, next: Option<L.Node>, s: L.Machine, at: nat)
    returns (j: nat)
    requires Steps(g, o, w.out) && w.Valid() && IsTerminator(t) && forall n | n in BlockSuccessors([t]) :: w.IsKnown(n)
    requires CodeAt(w.out, at, TermCode(t, next, w.labels)) && w.NextAt(next, at + |TermCode(t, next, w.labels)|)
    ensures Arrives(g, w, L.Terminate(o, t, s), RunningAt(at, s), j)
  {
    j := 1;
    if t.Lbranch? {
      j := BranchMatches(g, o, w, t, next, s, at);
    } else if t.Lcond? {
      assert t.ifso in BlockSuccessors([t]) && t.ifnot in BlockSuccessors([t]);
      CondParts(w, t, next, at);
      j := CondMatches(g, o, w, t, next, s, at);
    } else if t.Ljumptable? {
      TableMatches(g, o, w, t, s, at);
    } else {
      ExitMatches(g, o, w, t, s, at);
    }
  }

  // --- Blocks and runs ---

  /** The code of a block is at this point, and does its body. */
  ghost predicate BlockAt(w: World, b: L.Block, next: Option<L.Node>, l: Label, body: Code, at: nat) {
    && IsSafeBlock(b) && AllStraight(body) && EmulatesBody(body, b[..|b| - 1])
    && CodeAt(w.out, at, [Llabel(l)]) && CodeAt(w.out, at + 1, body)
    && CodeAt(w.out, at + 1 + |body|, TermCode(b[|b| - 1], next, w.labels))
    && w.NextAt(next, at + 1 + |body| + |TermCode(b[|b| - 1], next, w.labels)|)
  }

  /** The body of a block, with its label. */
  lemma {:induction false} BodyRuns(g: State -> State, o: Oracle, out: Code, body: Code, l: Label, lbody: seq<L.Instr>, at: nat, s: L.Machine)
    requires Steps(g, o, out)
    requires CodeAt(out, at, [Llabel(l)]) && CodeAt(out, at + 1, body) && AllStraight(body) && EmulatesBody(body, lbody)
    ensures Iterate(g, RunningAt(at, s), 1 + |body|) ==
            match L.ExecBody(o, lbody, s) case Some(s') => RunningAt(at + 1 + |body|, s') case None => Stuck
  {
    assert BodyOn(o, body, lbody, s);
    StepAt(g, o, out, at, Llabel(l), s);
    StraightRuns(g, o, out, at + 1, body, s);
    IterateAdd(g, RunningAt(at, s), 1, |body|);
  }

  /** The end of a block, once its body is done in n steps. */
  lemma EndMatches(g: State -> State, o: Oracle, w: World, t: L.Instr, next: Option<L.Node>, n: nat, end: nat,
                                      here: State, s': L.Machine)
    returns (j: nat)
    requires Steps(g, o, w.out) && w.Valid() && IsTerminator(t) && forall x | x in BlockSuccessors([t]) :: w.IsKnown(x)
    requires CodeAt(w.out, end, TermCode(t, next, w.labels)) && w.NextAt(next, end + |TermCode(t, next, w.labels)|)
    requires Iterate(g, here, n) == RunningAt(end, s')
    ensures j >= n && Arrives(g, w, L.Terminate(o, t, s'), here, j)
  {
    var u, there := L.Terminate(o, t, s'), RunningAt(end, s');
    var i := TermMatches(g, o, w, t, next, s', end);
    ArrivesLater(g, w, u, here, there, n, i);
    j := n + i;
  }

  /** From its label, the code of a block takes some steps to do what the block does. */
  lemma BlockMatches(g: State -> State, o: Oracle, w: World, b: L.Block, next: Option<L.Node>, l: Label, body: Code,
                                        at: nat, s: L.Machine)
    returns (j: nat)
    requires Steps(g, o, w.out) && w.Valid() && BlockAt(w, b, next, l, body, at)
    requires forall n | n in BlockSuccessors(b) :: w.IsKnown(n)
    ensures j > 0 && Arrives(g, w, L.StepBlock(o, b, s), RunningAt(at, s), j)
  {
    var lbody := b[..|b| - 1];
    BodyRuns(g, o, w.out, body, l, lbody, at, s);
    var r := L.ExecBody(o, lbody, s);
    if r.Some? {
      var t := b[|b| - 1];
      assert BlockSuccessors([t]) == BlockSuccessors(b);
      j := EndMatches(g, o, w, t, next, 1 + |body|, at + 1 + |body|, RunningAt(at, s), r.value);
    } else {
      j := 1 + |body|;
    }
  }

  // --- The world of a layout ---

  ghost function WorldOf(p: Plan, pieces: seq<Code>): World {
    World(p.code, Flatten(pieces), p.labels,
          map n | n in p.labels && 1 <= p.labels[n] <= |pieces| :: Start(pieces, p.labels[n] - 1))
  }

  lemma StartsAre(p: Plan, pieces: seq<Code>)
    requires p.Valid() && |pieces| == |p.order|
    ensures WorldOf(p, pieces).starts.Keys == p.labels.Keys
    ensures forall k | 0 <= k < |p.order| ::
      p.order[k] in WorldOf(p, pieces).starts && WorldOf(p, pieces).starts[p.order[k]] == Start(pieces, k)
    ensures forall n :: n in p.labels <==> n in p.order
  {
    forall n | n in p.labels
      ensures 1 <= p.labels[n] <= |p.order| && n in p.order
    {
      var k :| 0 <= k < |p.order| && p.order[k] == n;
      assert p.labels[n] == k + 1;
    }
  }

  lemma WorldIsValid(p: Plan, pieces: seq<Code>)
    requires p.Valid() && p.ArePieces(pieces) && |pieces| == |p.order|
    ensures WorldOf(p, pieces).Valid()
  {
    var w := WorldOf(p, pieces);
    StartsAre(p, pieces);
    PiecesNumbered(p, pieces);
    if Llabel(0) in w.out {
      LabelsInFlatten(pieces, 0);
    }
    forall n | n in w.starts
      ensures w.IsFound(n)
    {
      var k :| 0 <= k < |p.order| && p.order[k] == n;
      FindPiece(pieces, k);
    }
  }

  /** Successors of a laid-out block are laid out too, or are nowhere. */
  lemma SuccessorsKnown(p: Plan, pieces: seq<Code>, entry: L.Node, k: nat)
    requires p.Valid() && |pieces| == |p.order| && IsOrder(p.code, entry, p.order) && k < |p.order|
    ensures forall n | n in BlockSuccessors(p.Block(k)) :: WorldOf(p, pieces).IsKnown(n)
  {
    StartsAre(p, pieces);
    forall n | n in BlockSuccessors(p.Block(k))
      ensures WorldOf(p, pieces).IsKnown(n)
    {
      ReachesFurther(p.code, entry, p.order[k], n);
    }
  }

  ghost predicate AllSafe(p: Plan)
    requires p.Valid()
  {
    forall k | 0 <= k < |p.order| :: IsSafeBlock(p.Block(k))
  }

  lemma NextIsAt(p: Plan, pieces: seq<Code>, k: nat)
    requires p.Valid() && |pieces| == |p.order| && k < |p.order|
    ensures WorldOf(p, pieces).NextAt(p.Next(k), Start(pieces, k) + |pieces[k]|)
  {
    StartsAre(p, pieces);
    PieceAt(pieces, k);
  }

  lemma LaidOutAt(p: Plan, pieces: seq<Code>, k: nat) returns (body: Code)
    requires p.Valid() && p.ArePieces(pieces) && |pieces| == |p.order| && AllSafe(p) && k < |p.order|
    ensures BlockAt(WorldOf(p, pieces), p.Block(k), p.Next(k), k + 1, body, Start(pieces, k))
  {
    assert p.IsPiece(k, pieces[k]) && IsSafeBlock(p.Block(k));
    body :| p.IsPieceWith(k, pieces[k], body);
    PieceAt(pieces, k);
    PartsAt(WorldOf(p, pieces), p.Block(k), p.Next(k), k + 1, body, Start(pieces, k)) by {
      NextIsAt(p, pieces, k);
    }
  }

  lemma PartsAt(w: World, b: L.Block, next: Option<L.Node>, l: Label, body: Code, at: nat)
    requires IsSafeBlock(b) && AllStraight(body) && EmulatesBody(body, b[..|b| - 1])
    requires CodeAt(w.out, at, [Llabel(l)] + body + TermCode(b[|b| - 1], next, w.labels))
    requires w.NextAt(next, at + |[Llabel(l)] + body + TermCode(b[|b| - 1], next, w.labels)|)
    ensures BlockAt(w, b, next, l, body, at)
  {
    var head := [Llabel(l)];
    CodeAtSplit(w.out, at, head + body, TermCode(b[|b| - 1], next, w.labels));
    CodeAtSplit(w.out, at, head, body);
  }

  lemma BlockStepMatches(g: State -> State, o: Oracle, p: Plan, pieces: seq<Code>, entry: L.Node, k: nat, s: L.Machine)
    returns (j: nat)
    requires p.Valid() && p.ArePieces(pieces) && |pieces| == |p.order| && AllSafe(p) && IsOrder(p.code, entry, p.order)
    requires Steps(g, o, Flatten(pieces)) && k < |p.order|
    ensures j > 0 && Arrives(g, WorldOf(p, pieces), L.StepBlock(o, p.Block(k), s), RunningAt(Start(pieces, k), s), j)
  {
    WorldIsValid(p, pieces);
    var body := LaidOutAt(p, pieces, k);
    SuccessorsKnown(p, pieces, entry, k);
    j := BlockMatches(g, o, WorldOf(p, pieces), p.Block(k), p.Next(k), k + 1, body, Start(pieces, k), s);
  }

  lemma StartOf(p: Plan, pieces: seq<Code>, n: L.Node) returns (k: nat)
    requires p.Valid() && |pieces| == |p.order| && n in WorldOf(p, pieces).starts
    ensures k < |p.order| && p.order[k] == n && WorldOf(p, pieces).starts[n] == Start(pieces, k)
  {
    StartsAre(p, pieces);
    k :| 0 <= k < |p.order| && p.order[k] == n;
  }

  /** One step of the LTL machine. */
  lemma StepMatches(g: State -> State, o: Oracle, p: Plan, pieces: seq<Code>, entry: L.Node, s: L.State, t: State)
    returns (j: nat)
    requires p.Valid() && p.ArePieces(pieces) && |pieces| == |p.order| && AllSafe(p) && IsOrder(p.code, entry, p.order)
    requires Steps(g, o, Flatten(pieces)) && WorldOf(p, pieces).Match(s, t)
    ensures j > 0 && Arrives(g, WorldOf(p, pieces), L.Step(o, p.code, s), t, j)
  {
    if s.Running? && s.pc in WorldOf(p, pieces).starts {
      var k := StartOf(p, pieces, s.pc);
      j := BlockStepMatches(g, o, p, pieces, entry, k, L.Machine(s.ls, s.m, s.tr));
    } else {
      j := 1;
      assert g(t) == Step(o, Flatten(pieces), t);
      assert Iterate(g, g(t), 0) == g(t);
    }
  }

  lemma RunFrom(g: State -> State, o: Oracle, p: Plan, pieces: seq<Code>, entry: L.Node, s: L.State, t: State, k: nat)
    returns (j: nat)
    requires p.Valid() && p.ArePieces(pieces) && |pieces| == |p.order| && AllSafe(p) && IsOrder(p.code, entry, p.order)
    requires Steps(g, o, Flatten(pieces)) && WorldOf(p, pieces).Match(s, t)
    ensures j >= k && Arrives(g, WorldOf(p, pieces), Iterate(L.Stepper(o, p.code), s, k), t, j)
  {
    var f := L.Stepper(o, p.code);
    var r := (x, y) => WorldOf(p, pieces).Match(x, y);
    forall x, y | r(x, y)
      ensures Catches(g, r, f(x), y)
    {
      var i := StepMatches(g, o, p, pieces, entry, x, y);
      assert r(f(x), Iterate(g, y, i));
    }
    j := Expansion(f, g, r, s, t, k);
  }

  lemma EntryMatches(p: Plan, pieces: seq<Code>, s: L.Machine)
    requires p.Valid() && |pieces| == |p.order| && p.order != []
    ensures WorldOf(p, pieces).Match(L.Running(p.order[0], s.ls, s.m, s.tr), RunningAt(0, s))
  {
    StartsAre(p, pieces);
    assert WorldOf(p, pieces).starts[p.order[0]] == Start(pieces, 0) == 0;
  }

  /** Linearisation preserves meaning: after any number of blocks, the Linear machine has gone at least as many
      steps and stands at the label of the same block, or has ended in the same way. */
  lemma LinearRuns(g: State -> State, o: Oracle, p: Plan, pieces: seq<Code>, entry: L.Node, out: Code,
                                      s: L.Machine, k: nat) returns (j: nat)
    requires Lays(p, pieces, entry, out) && AllSafe(p) && entry in p.code && Steps(g, o, out)
    ensures j >= k && Arrives(g, WorldOf(p, pieces), Iterate(L.Stepper(o, p.code), L.Running(entry, s.ls, s.m, s.tr), k), RunningAt(0, s), j)
  {
    EntryMatches(p, pieces, s);
    j := RunFrom(g, o, p, pieces, entry, L.Running(entry, s.ls, s.m, s.tr), RunningAt(0, s), k);
  }
}
