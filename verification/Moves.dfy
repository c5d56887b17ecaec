/** Sequences of moves between locations, and the parallel assignments they should amount to. */
module Moves {
  import opened Values
  import opened LTL

  /** A move from the first location to the second. */
  type Move = (Loc, Loc)

  /** The locations after the moves are made one after the other. */
  function CopyAll(moves: seq<Move>, ls: LocSet): LocSet {
    if moves == [] then ls
    else CopyAll(moves[1..], ls[moves[0].1 := Get(ls, moves[0].0)])
  }

  function MoveInstr(m: Move): Instr {
    Lop(Omove, [m.0], m.1)
  }

  function MoveInstrs(moves: seq<Move>): (code: seq<Instr>)
    ensures |code| == |moves|
  {
    seq(|moves|, i requires 0 <= i < |moves| => MoveInstr(moves[i]))
  }

  lemma {:induction false} CopyAllAppend(a: seq<Move>, b: seq<Move>, ls: LocSet)
    ensures CopyAll(a + b, ls) == CopyAll(b, CopyAll(a, ls))
  {
    if a == [] {
      assert a + b == b;
    } else {
      assert (a + b)[1..] == a[1..] + b;
      CopyAllAppend(a[1..], b, ls[a[0].1 := Get(ls, a[0].0)]);
    }
  }

  /** The effect of the last move of a sequence. */
  lemma CopyAllLast(a: seq<Move>, m: Move, ls: LocSet)
    ensures CopyAll(a + [m], ls) == CopyAll(a, ls)[m.1 := Get(CopyAll(a, ls), m.0)]
  {
    CopyAllAppend(a, [m], ls);
  }

  lemma {:induction false} ExecMoves(o: Oracle, moves: seq<Move>, s: Machine)
    ensures ExecBody(o, MoveInstrs(moves), s) == Some(s.(ls := CopyAll(moves, s.ls)))
    decreases |moves|
  {
    if moves == [] {
    } else {
      var m := moves[0];
      var s1 := s.(ls := s.ls[m.1 := Get(s.ls, m.0)]);
      assert MoveInstrs(moves)[0] == MoveInstr(m);
      assert GetAll(s.ls, [m.0]) == [Get(s.ls, m.0)];
      assert ExecInstr(o, MoveInstr(m), s) == Some(s1);
      assert MoveInstrs(moves)[1..] == MoveInstrs(moves[1..]);
      ExecMoves(o, moves[1..], s1);
    }
  }
}
