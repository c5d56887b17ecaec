/** Placing the arguments of a call (pkg/linearize/linearize.go, convertCall), for every order in which the
    moves may be visited. */
module CallMoves {
  import opened Values
  import opened LTL
  import opened Moves
  import opened Words
  import Lin = Linear
  import Conventions

  /** The register that breaks cycles and carries slots to slots. */
  const SCRATCH: Loc := R(X8)

  type RegMoves = map<MReg, Loc>

  // --- What a call needs ---

  /** Argument j is still in its place when it is read: no overflow argument stored before it has gone through
      X8 or into the slot that j is in. */
  predicate ReadSafe(args: seq<Loc>, j: nat)
    requires j < |args|
  {
    forall i | 8 <= i < |args| && (j < 8 || i < j) ::
      && (args[j] == SCRATCH ==> args[i].R?)
      && (args[j] == Lin.ArgPlace(i) ==> args[i] == args[j])
  }

  predicate ArgumentsSafe(args: seq<Loc>) {
    forall j | 0 <= j < |args| :: ReadSafe(args, j)
  }

  /** A move to a register in c reads register r. */
  predicate IsReadIn(moves: RegMoves, c: set<MReg>, r: MReg)
    requires c <= moves.Keys
  {
    exists d | d in c :: moves[d] == R(r)
  }

  /** Every register in c is read by a move into c: these registers only exchange their values. */
  ghost predicate Rotates(moves: RegMoves, c: set<MReg>) {
    c != {} && c <= moves.Keys && forall r {:trigger IsReadIn(moves, c, r)} | r in c :: IsReadIn(moves, c, r)
  }

  ghost predicate HasCycle(moves: RegMoves) {
    exists c :: Rotates(moves, c)
  }

  /** X8 is not needed: the overflow arguments are in registers, and no registers exchange their values. */
  ghost predicate ScratchFree(args: seq<Loc>) {
    (forall i | 8 <= i < |args| :: args[i].R?) && !HasCycle(NeededRegMoves(args))
  }

  /** A function pointer is not where an argument goes, unless it is that argument, nor in X8 if that is needed. */
  ghost predicate CalleeSafe(fn: FunRef, args: seq<Loc>) {
    fn.FunLoc? ==>
      && (fn.loc == SCRATCH ==> ScratchFree(args))
      && (forall i | 0 <= i < |args| :: fn.loc == Lin.ArgPlace(i) ==> args[i] == fn.loc)
  }

  ghost predicate ArgsMovedOn(moves: seq<Move>, args: seq<Loc>, ls: LocSet) {
    forall i | 0 <= i < |args| :: Get(CopyAll(moves, ls), Lin.ArgPlace(i)) == Get(ls, args[i])
  }

  /** Whatever the locations hold, every argument arrives. */
  ghost predicate ArgsMoved(moves: seq<Move>, args: seq<Loc>) {
    forall ls: LocSet :: ArgsMovedOn(moves, args, ls)
  }

  ghost predicate KeptOn(moves: seq<Move>, l: Loc, ls: LocSet) {
    Get(CopyAll(moves, ls), l) == Get(ls, l)
  }

  ghost predicate Keeps(moves: seq<Move>, l: Loc) {
    forall ls: LocSet :: KeptOn(moves, l, ls)
  }

  predicate IsArgPlace(l: Loc, n: nat) {
    exists i | 0 <= i < n :: l == Lin.ArgPlace(i)
  }

  /** Only X8 and the places of the arguments are written. */
  ghost predicate WritesPlaces(moves: seq<Move>, n: nat) {
    forall m | m in moves :: m.1 == SCRATCH || IsArgPlace(m.1, n)
  }

  /** Only X8 and the arguments are read. */
  ghost predicate ReadsArguments(moves: seq<Move>, args: seq<Loc>) {
    forall m | m in moves :: m.0 == SCRATCH || m.0 in args
  }

  lemma {:induction false} UnwrittenIsKept(moves: seq<Move>, l: Loc, ls: LocSet)
    requires forall m | m in moves :: m.1 != l
    ensures KeptOn(moves, l, ls)
    decreases |moves|
  {
    if moves != [] {
      assert moves[0] in moves;
      assert forall m | m in moves[1..] :: m in moves;
      UnwrittenIsKept(moves[1..], l, ls[moves[0].1 := Get(ls, moves[0].0)]);
    }
  }

  /** When the arguments arrive, a callee is still there exactly if that is safe. */
  lemma CalleeKeptIff(moves: seq<Move>, args: seq<Loc>, l: Loc)
    requires ArgsMoved(moves, args) && WritesPlaces(moves, |args|)
    requires Keeps(moves, SCRATCH) <==> ScratchFree(args)
    ensures Keeps(moves, l) <==> CalleeSafe(FunLoc(l), args)
  {
    if l == SCRATCH {
      assert forall i: nat :: Lin.ArgPlace(i) != SCRATCH;
    } else if CalleeSafe(FunLoc(l), args) {
      forall ls: LocSet
        ensures KeptOn(moves, l, ls)
      {
        assert ArgsMovedOn(moves, args, ls);
        if !IsArgPlace(l, |args|) {
          UnwrittenIsKept(moves, l, ls);
        }
      }
    } else {
      var i :| 0 <= i < |args| && l == Lin.ArgPlace(i) && args[i] != l;
      var ls: LocSet := map[l := Vnum(1)];
      assert ArgsMovedOn(moves, args, ls);
      assert !KeptOn(moves, l, ls);
    }
  }

  // --- Overflow arguments ---

  /** Where the value in X8 comes from after overflow arguments 8..n-1 are stored. */
  function InScratch(args: seq<Loc>, n: nat): Loc
    requires n <= |args|
  {
    if n <= 8 then SCRATCH
    else if args[n - 1].R? then InScratch(args, n - 1)
    else args[n - 1]
  }

  function OverflowMove(arg: Loc, i: nat): seq<Move> {
    if arg.R? then [(arg, Lin.ArgPlace(i))] else [(arg, SCRATCH), (SCRATCH, Lin.ArgPlace(i))]
  }

  function OverflowMoves(args: seq<Loc>, n: nat): seq<Move>
    requires n <= |args|
  {
    if n <= 8 then [] else OverflowMoves(args, n - 1) + OverflowMove(args[n - 1], n - 1)
  }

  /** Overflow arguments 8..n-1 have arrived. */
  ghost predicate OverflowDone(args: seq<Loc>, n: nat, ls: LocSet)
    requires n <= |args|
  {
    OverflowIn(args, n, ls, CopyAll(OverflowMoves(args, n), ls))
  }

  ghost predicate OverflowIn(args: seq<Loc>, n: nat, ls: LocSet, now: LocSet)
    requires n <= |args|
  {
    && (forall i | 8 <= i < n :: Get(now, Lin.ArgPlace(i)) == Get(ls, args[i]))
    && Get(now, SCRATCH) == Get(ls, InScratch(args, n))
    && (forall l | l != SCRATCH && !(exists i | 8 <= i < n :: l == Lin.ArgPlace(i)) :: Get(now, l) == Get(ls, l))
  }

  ghost predicate AllOverflowDone(args: seq<Loc>, n: nat)
    requires n <= |args|
  {
    forall ls: LocSet :: OverflowDone(args, n, ls)
  }

  lemma OverflowMoveEffect(arg: Loc, i: nat, ls: LocSet)
    requires i >= 8
    ensures Get(CopyAll(OverflowMove(arg, i), ls), Lin.ArgPlace(i)) == Get(ls, arg)
    ensures Get(CopyAll(OverflowMove(arg, i), ls), SCRATCH) == if arg.R? then Get(ls, SCRATCH) else Get(ls, arg)
    ensures forall l | l != SCRATCH && l != Lin.ArgPlace(i) :: Get(CopyAll(OverflowMove(arg, i), ls), l) == Get(ls, l)
  {
    var place := Lin.ArgPlace(i);
    if arg.R? {
      assert CopyAll([(arg, place)], ls) == ls[place := Get(ls, arg)] by {
        assert [(arg, place)][1..] == [];
      }
    } else {
      var ms := [(arg, SCRATCH), (SCRATCH, place)];
      assert ms[1..] == [(SCRATCH, place)] && ms[1..][1..] == [];
      var ls1 := ls[SCRATCH := Get(ls, arg)];
      assert CopyAll(ms[1..], ls1) == ls1[place := Get(ls1, SCRATCH)];
    }
  }

  lemma InScratchIs(args: seq<Loc>, n: nat)
    requires 8 <= n <= |args|
    ensures if forall i | 8 <= i < n :: args[i].R? then InScratch(args, n) == SCRATCH
            else exists i | 8 <= i < n :: InScratch(args, n) == args[i] && !args[i].R?
  {
    if n > 8 { InScratchIs(args, n - 1); }
  }

  /** What the next read yields. */
  lemma {:induction false} OverflowRead(args: seq<Loc>, n: nat, j: nat, ls: LocSet)
    requires 8 <= n <= |args| && j < |args| && n == if j < 8 then |args| else j
    requires AllOverflowDone(args, n)
    ensures ReadSafe(args, j) ==> Get(CopyAll(OverflowMoves(args, n), ls), args[j]) == Get(ls, args[j])
    ensures !ReadSafe(args, j) ==>
      exists k: LocSet :: Get(CopyAll(OverflowMoves(args, n), k), args[j]) != Get(k, args[j])
  {
    assert OverflowDone(args, n, ls);
    InScratchIs(args, n);
    if !ReadSafe(args, j) {
      var k: LocSet := map[args[j] := Vnum(1)];
      var now := CopyAll(OverflowMoves(args, n), k);
      assert OverflowDone(args, n, k);
      var i :| 8 <= i < |args| && (j < 8 || i < j) &&
               !((args[j] == SCRATCH ==> args[i].R?) && (args[j] == Lin.ArgPlace(i) ==> args[i] == args[j]));
      assert i < n && Get(now, Lin.ArgPlace(i)) == Get(k, args[i]);
      assert args[j] == SCRATCH ==> !InScratch(args, n).R?;
      assert Get(now, args[j]) != Get(k, args[j]);
    }
  }

  /** One more overflow argument arrives. */
  lemma OverflowInStep(args: seq<Loc>, n: nat, ls: LocSet, now: LocSet, next: LocSet)
    requires 8 <= n < |args| && OverflowIn(args, n, ls, now) && Get(now, args[n]) == Get(ls, args[n])
    requires Get(next, Lin.ArgPlace(n)) == Get(now, args[n])
    requires Get(next, SCRATCH) == if args[n].R? then Get(now, SCRATCH) else Get(now, args[n])
    requires forall l | l != SCRATCH && l != Lin.ArgPlace(n) :: Get(next, l) == Get(now, l)
    ensures OverflowIn(args, n + 1, ls, next)
  {
    forall l | l != SCRATCH && !(exists i | 8 <= i < n + 1 :: l == Lin.ArgPlace(i))
      ensures Get(next, l) == Get(ls, l)
    {
      assert l != Lin.ArgPlace(n);
    }
  }

  lemma OverflowStep(args: seq<Loc>, n: nat)
    requires 8 <= n < |args| && AllOverflowDone(args, n) && ReadSafe(args, n)
    ensures AllOverflowDone(args, n + 1)
  {
    var n' := n + 1;
    forall ls: LocSet
      ensures OverflowDone(args, n', ls)
    {
      var now := CopyAll(OverflowMoves(args, n), ls);
      assert OverflowDone(args, n, ls);
      OverflowRead(args, n, n, ls);
      CopyAllAppend(OverflowMoves(args, n), OverflowMove(args[n], n), ls);
      OverflowMoveEffect(args[n], n, now);
      OverflowInStep(args, n, ls, now, CopyAll(OverflowMove(args[n], n), now));
    }
  }

  /** Some overflow argument below n is wrong for some contents. */
  ghost predicate OverflowWrong(args: seq<Loc>, n: nat, j: nat)
    requires n <= |args| && 8 <= j < n
  {
    exists ls: LocSet :: Get(CopyAll(OverflowMoves(args, n), ls), Lin.ArgPlace(j)) != Get(ls, args[j])
  }

  lemma OverflowStaysWrong(args: seq<Loc>, n: nat, j: nat)
    requires n < |args| && 8 <= j < n && OverflowWrong(args, n, j)
    ensures OverflowWrong(args, n + 1, j)
  {
    var ls: LocSet :| Get(CopyAll(OverflowMoves(args, n), ls), Lin.ArgPlace(j)) != Get(ls, args[j]);
    CopyAllAppend(OverflowMoves(args, n), OverflowMove(args[n], n), ls);
    OverflowMoveEffect(args[n], n, CopyAll(OverflowMoves(args, n), ls));
    assert Get(CopyAll(OverflowMoves(args, n + 1), ls), Lin.ArgPlace(j)) != Get(ls, args[j]);
  }

  lemma OverflowBecomesWrong(args: seq<Loc>, n: nat)
    requires 8 <= n < |args| && AllOverflowDone(args, n) && !ReadSafe(args, n)
    ensures OverflowWrong(args, n + 1, n)
  {
    OverflowRead(args, n, n, map[]);
    var ls: LocSet :| Get(CopyAll(OverflowMoves(args, n), ls), args[n]) != Get(ls, args[n]);
    CopyAllAppend(OverflowMoves(args, n), OverflowMove(args[n], n), ls);
    OverflowMoveEffect(args[n], n, CopyAll(OverflowMoves(args, n), ls));
    assert Get(CopyAll(OverflowMoves(args, n + 1), ls), Lin.ArgPlace(n)) != Get(ls, args[n]);
  }

  /** Overflow arguments arrive exactly if each is safe to read. */
  lemma {:induction false} OverflowExact(args: seq<Loc>, n: nat)
    requires n <= |args|
    ensures if forall j | 8 <= j < n :: ReadSafe(args, j) then AllOverflowDone(args, n)
            else exists j | 8 <= j < n :: OverflowWrong(args, n, j)
  {
    if n <= 8 {
      forall ls: LocSet
        ensures OverflowDone(args, n, ls)
      {
      }
    } else {
      OverflowExact(args, n - 1);
      if forall j | 8 <= j < n - 1 :: ReadSafe(args, j) {
        if ReadSafe(args, n - 1) {
          OverflowStep(args, n - 1);
        } else {
          OverflowBecomesWrong(args, n - 1);
        }
      } else {
        var j :| 8 <= j < n - 1 && OverflowWrong(args, n - 1, j);
        OverflowStaysWrong(args, n - 1, j);
      }
    }
  }

  method StoreOverflow(args: seq<Loc>) returns (moves: seq<Move>)
    ensures moves == OverflowMoves(args, |args|)
  {
    moves := [];
    var i := 8;
    while i < |args|
      invariant |args| <= 8 ==> i == 8 && moves == []
      invariant |args| > 8 ==> 8 <= i <= |args| && moves == OverflowMoves(args, i)
    {
      var arg := args[i];
      if arg.R? {
        moves := moves + [(arg, Lin.ArgPlace(i))];
      } else {
        moves := moves + [(arg, SCRATCH)] + [(SCRATCH, Lin.ArgPlace(i))];
        assert [(arg, SCRATCH)] + [(SCRATCH, Lin.ArgPlace(i))] == OverflowMove(arg, i);
      }
      i := i + 1;
    }
  }

  // --- Register arguments ---

  /** The moves into X0..X7 that are needed. */
  function NeededRegMoves(args: seq<Loc>): (moves: RegMoves)
    ensures forall d | d in moves :: d < 8 && moves[d] != R(d)
  {
    map d: MReg | 0 <= d < 8 && d < |args| && args[d] != R(d) :: args[d]
  }

  method CollectRegMoves(args: seq<Loc>) returns (moves: RegMoves)
    ensures moves == NeededRegMoves(args)
  {
    moves := map[];
    var i: MReg := 0;
    while i < |args| && i < 8
      invariant i <= |args| && i <= 8
      invariant moves == map d: MReg | 0 <= d < i && args[d] != R(d) :: args[d]
    {
      if args[i] != R(i) {
        moves := moves[i := args[i]];
      }
      i := i + 1;
    }
  }

  /** A pending move reads register r. */
  predicate IsPendingSource(moves: RegMoves, done: set<MReg>, r: MReg) {
    exists d | d in moves :: d !in done && moves[d] == R(r)
  }

  /** In base the moves were all still to do; now those in done are done and the sources of the others hold
      what the original sources did. */
  ghost predicate MovesOn(goal: RegMoves, moves: RegMoves, done: set<MReg>, base: LocSet, now: LocSet)
    requires moves.Keys == goal.Keys
  {
    && (forall d | d in goal :: Get(now, if d in done then R(d) else moves[d]) == Get(base, goal[d]))
    && (forall l | l != SCRATCH && !(l.R? && l.reg in done) :: Get(now, l) == Get(base, l))
  }

  ghost predicate Progress(start: seq<Move>, goal: RegMoves, moves: RegMoves, done: set<MReg>, code: seq<Move>) {
    && moves.Keys == goal.Keys && done <= goal.Keys
    && (forall d | d in goal :: d < 8 && moves[d] != R(d))
    && (forall ls: LocSet :: ProgressOn(start, goal, moves, done, code, ls))
  }

  ghost predicate ProgressOn(start: seq<Move>, goal: RegMoves, moves: RegMoves, done: set<MReg>, code: seq<Move>, ls: LocSet)
    requires moves.Keys == goal.Keys
  {
    MovesOn(goal, moves, done, CopyAll(start, ls), CopyAll(code, ls))
  }

  lemma MoveOn(goal: RegMoves, moves: RegMoves, done: set<MReg>, base: LocSet, now: LocSet, d: MReg)
    requires moves.Keys == goal.Keys && MovesOn(goal, moves, done, base, now)
    requires d in moves && d !in done && d < 8 && !IsPendingSource(moves, done, d)
    ensures MovesOn(goal, moves, done + {d}, base, now[R(d) := Get(now, moves[d])])
  {
    var done', now' := done + {d}, now[R(d) := Get(now, moves[d])];
    forall e | e in goal
      ensures Get(now', if e in done' then R(e) else moves[e]) == Get(base, goal[e])
    {
      assert e !in done' ==> moves[e] != R(d);
    }
  }

  /** A move whose destination no pending move reads. */
  lemma MakeMove(start: seq<Move>, goal: RegMoves, moves: RegMoves, done: set<MReg>, code: seq<Move>, d: MReg)
    requires Progress(start, goal, moves, done, code)
    requires d in moves && d !in done && !IsPendingSource(moves, done, d)
    ensures Progress(start, goal, moves, done + {d}, code + [(moves[d], R(d))])
  {
    var code', done' := code + [(moves[d], R(d))], done + {d};
    forall ls: LocSet
      ensures ProgressOn(start, goal, moves, done', code', ls)
    {
      assert ProgressOn(start, goal, moves, done, code, ls);
      CopyAllLast(code, (moves[d], R(d)), ls);
      MoveOn(goal, moves, done, CopyAll(start, ls), CopyAll(code, ls), d);
    }
  }

  function Redirect(moves: RegMoves, r: MReg): RegMoves {
    map d | d in moves :: if moves[d] == R(r) then SCRATCH else moves[d]
  }

  lemma SaveOn(goal: RegMoves, moves: RegMoves, done: set<MReg>, base: LocSet, now: LocSet, r: MReg)
    requires moves.Keys == goal.Keys && MovesOn(goal, moves, done, base, now)
    requires !IsPendingSource(moves, done, X8) && forall d | d in goal :: d < 8
    ensures MovesOn(goal, Redirect(moves, r), done, base, now[SCRATCH := Get(now, R(r))])
  {
    var moves', now' := Redirect(moves, r), now[SCRATCH := Get(now, R(r))];
    forall d | d in goal
      ensures Get(now', if d in done then R(d) else moves'[d]) == Get(base, goal[d])
    {
      assert d !in done ==> moves[d] != SCRATCH;
    }
  }

  /** Saving a source in X8 when no pending move reads X8. */
  lemma SaveInScratch(start: seq<Move>, goal: RegMoves, moves: RegMoves, done: set<MReg>, code: seq<Move>, r: MReg)
    requires Progress(start, goal, moves, done, code) && !IsPendingSource(moves, done, X8)
    ensures Progress(start, goal, Redirect(moves, r), done, code + [(R(r), SCRATCH)])
  {
    var code', moves' := code + [(R(r), SCRATCH)], Redirect(moves, r);
    forall ls: LocSet
      ensures ProgressOn(start, goal, moves', done, code', ls)
    {
      assert ProgressOn(start, goal, moves, done, code, ls);
      CopyAllLast(code, (R(r), SCRATCH), ls);
      SaveOn(goal, moves, done, CopyAll(start, ls), CopyAll(code, ls), r);
    }
  }

  function Pending(moves: RegMoves, done: set<MReg>): set<MReg> {
    moves.Keys - done
  }

  /** The registers that the moves to ds read. */
  function SourceRegs(moves: RegMoves, ds: set<MReg>): set<MReg>
    requires ds <= moves.Keys
  {
    set d | d in ds && moves[d].R? :: moves[d].reg
  }

  lemma {:induction false} FewSourceRegs(moves: RegMoves, ds: set<MReg>)
    requires ds <= moves.Keys
    ensures |SourceRegs(moves, ds)| <= |ds|
    decreases |ds|
  {
    if ds == {} {
    } else {
      var d :| d in ds;
      FewSourceRegs(moves, ds - {d});
      assert SourceRegs(moves, ds) == SourceRegs(moves, ds - {d}) + if moves[d].R? then {moves[d].reg} else {};
    }
  }

  lemma SameSize(a: set<MReg>, b: set<MReg>)
    requires a <= b && |b| <= |a|
    ensures a == b
  {
    assert b == a + (b - a);
  }

  /** Leaving out a move without a source register of its own loses no source register. */
  lemma DispensableMove(moves: RegMoves, ds: set<MReg>, d: MReg)
    requires ds <= moves.Keys && d in ds
    requires !moves[d].R? || exists e | e in ds :: e != d && moves[e] == moves[d]
    ensures |SourceRegs(moves, ds)| < |ds|
  {
    FewSourceRegs(moves, ds - {d});
    assert SourceRegs(moves, ds) == SourceRegs(moves, ds - {d});
  }

  /** When no move is possible, the pending moves permute their destinations. */
  lemma StuckMovesPermute(moves: RegMoves, done: set<MReg>)
    requires forall d | d in moves && d !in done :: IsPendingSource(moves, done, d)
    ensures forall d | d in Pending(moves, done) :: moves[d].R? && moves[d].reg in Pending(moves, done)
    ensures forall d, e | d in Pending(moves, done) && e in Pending(moves, done) && d != e :: moves[d] != moves[e]
  {
    var p := Pending(moves, done);
    FewSourceRegs(moves, p);
    assert p <= SourceRegs(moves, p);
    SameSize(p, SourceRegs(moves, p));
    forall d | d in p
      ensures moves[d].R? && forall e | e in p && e != d :: moves[d] != moves[e]
    {
      if !moves[d].R? || exists e | e in p :: e != d && moves[e] == moves[d] {
        DispensableMove(moves, p, d);
      }
    }
  }

  ghost predicate AllBlocked(moves: RegMoves, done: set<MReg>, ds: set<MReg>) {
    forall d | d in ds && d !in done :: IsPendingSource(moves, done, d)
  }

  /** Besides start, only X8 and destinations are written, and only X8 and sources read. */
  ghost predicate WritesGoals(start: seq<Move>, goal: RegMoves, code: seq<Move>) {
    forall m | m in code :: m in start || ((m.1 == SCRATCH || (m.1.R? && m.1.reg in goal)) && IsSourceOf(goal, m.0))
  }

  ghost predicate IsSourceOf(goal: RegMoves, l: Loc) {
    l == SCRATCH || exists d | d in goal :: goal[d] == l
  }

  ghost predicate SourcesStay(goal: RegMoves, moves: RegMoves) {
    forall d | d in moves :: IsSourceOf(goal, moves[d])
  }

  /** The state of the loop. */
  ghost predicate Moving(start: seq<Move>, goal: RegMoves, moves: RegMoves, done: set<MReg>, code: seq<Move>) {
    Progress(start, goal, moves, done, code) && WritesGoals(start, goal, code) && SourcesStay(goal, moves)
  }

  // --- What is in X8 ---

  ghost predicate HoldsOn(start: seq<Move>, code: seq<Move>, l: Loc, ls: LocSet) {
    Get(CopyAll(code, ls), SCRATCH) == Get(CopyAll(start, ls), l)
  }

  /** X8 now holds what l held at the start of the register moves. */
  ghost predicate Holds(start: seq<Move>, code: seq<Move>, l: Loc) {
    forall ls: LocSet :: HoldsOn(start, code, l, ls)
  }

  /** X8 holds what it did as long as no cycle had to be broken, and then a register that is in a cycle. */
  ghost predicate Tracks(start: seq<Move>, goal: RegMoves, moves: RegMoves, done: set<MReg>, code: seq<Move>, l: Loc) {
    && Holds(start, code, l)
    && if l == SCRATCH then moves == goal && forall c | Rotates(goal, c) :: c !! done
       else l.R? && l.reg in goal && HasCycle(goal)
  }

  lemma TrackMove(start: seq<Move>, goal: RegMoves, moves: RegMoves, done: set<MReg>, code: seq<Move>, d: MReg, l: Loc)
    requires Tracks(start, goal, moves, done, code, l)
    requires d in moves && d < 8 && d !in done && !IsPendingSource(moves, done, d)
    ensures Tracks(start, goal, moves, done + {d}, code + [(moves[d], R(d))], l)
  {
    var code' := code + [(moves[d], R(d))];
    forall ls: LocSet
      ensures HoldsOn(start, code', l, ls)
    {
      assert HoldsOn(start, code, l, ls);
      CopyAllLast(code, (moves[d], R(d)), ls);
    }
    forall c | l == SCRATCH && Rotates(goal, c)
      ensures c !! done + {d}
    {
      assert d in c ==> IsReadIn(goal, c, d);
    }
  }

  /** When no move is possible, the pending moves rotate. */
  lemma StuckMovesRotate(moves: RegMoves, done: set<MReg>)
    requires AllBlocked(moves, done, moves.Keys) && Pending(moves, done) != {}
    ensures Rotates(moves, Pending(moves, done))
  {
    forall r | r in Pending(moves, done)
      ensures IsReadIn(moves, Pending(moves, done), r)
    {
      assert IsPendingSource(moves, done, r);
    }
  }

  lemma SavedIsHeld(start: seq<Move>, goal: RegMoves, moves: RegMoves, done: set<MReg>, code: seq<Move>, r: MReg)
    requires Progress(start, goal, moves, done, code) && r in Pending(moves, done)
    ensures Holds(start, code + [(R(r), SCRATCH)], R(r))
  {
    var code' := code + [(R(r), SCRATCH)];
    forall ls: LocSet
      ensures HoldsOn(start, code', R(r), ls)
    {
      assert ProgressOn(start, goal, moves, done, code, ls);
      CopyAllLast(code, (R(r), SCRATCH), ls);
    }
  }

  lemma TrackSave(start: seq<Move>, goal: RegMoves, moves: RegMoves, done: set<MReg>, code: seq<Move>,
                                     r: MReg, l: Loc)
    requires Progress(start, goal, moves, done, code) && Tracks(start, goal, moves, done, code, l)
    requires AllBlocked(moves, done, moves.Keys) && r in Pending(moves, done)
    ensures Tracks(start, goal, Redirect(moves, r), done, code + [(R(r), SCRATCH)], R(r))
  {
    SavedIsHeld(start, goal, moves, done, code, r);
    StuckMovesRotate(moves, done);
  }

  // --- The register moves ---

  /** One pass over the moves, making those that are possible. */
  method MakePossibleMoves(moves: RegMoves, done0: set<MReg>, code0: seq<Move>, ghost start: seq<Move>, ghost goal: RegMoves,
                           ghost l: Loc)
    returns (done: set<MReg>, code: seq<Move>)
    requires Moving(start, goal, moves, done0, code0) && Tracks(start, goal, moves, done0, code0, l)
    ensures Moving(start, goal, moves, done, code) && Tracks(start, goal, moves, done, code, l) && done0 <= done
    ensures done == done0 ==> code == code0 && AllBlocked(moves, done, moves.Keys)
  {
    done, code := done0, code0;
    var todo := moves.Keys;
    while todo != {}
      invariant todo <= moves.Keys && done0 <= done
      invariant Moving(start, goal, moves, done, code) && Tracks(start, goal, moves, done, code, l)
      invariant done == done0 ==> code == code0 && AllBlocked(moves, done, moves.Keys - todo)
      decreases todo
    {
      var d :| d in todo;
      todo := todo - {d};
      if d !in done && !IsPendingSource(moves, done, d) {
        MakeMove(start, goal, moves, done, code, d);
        TrackMove(start, goal, moves, done, code, d, l);
        code := code + [(moves[d], R(d))];
        done := done + {d};
      }
    }
  }

  /** Whether breaking a cycle is possible before the next move. */
  ghost function CyclesLeft(moves: RegMoves, done: set<MReg>): nat {
    if IsPendingSource(moves, done, X8) then 0 else 1
  }

  /** Redirecting the readers of a register that a stuck move reads breaks a cycle. */
  lemma CycleBroken(moves: RegMoves, done: set<MReg>, d: MReg)
    requires AllBlocked(moves, done, moves.Keys) && d in moves && d !in done
    requires forall e | e in moves :: e < 8
    ensures moves[d].R? && moves[d].reg in Pending(moves, done) && !IsPendingSource(moves, done, X8)
    ensures IsPendingSource(Redirect(moves, moves[d].reg), done, X8)
  {
    StuckMovesPermute(moves, done);
    assert forall e | e in moves && e !in done :: e in Pending(moves, done);
    assert d in Pending(moves, done);
    assert Redirect(moves, moves[d].reg)[d] == SCRATCH;
  }

  lemma SaveKeepsMoving(start: seq<Move>, goal: RegMoves, moves: RegMoves, done: set<MReg>, code: seq<Move>, r: MReg)
    requires Moving(start, goal, moves, done, code) && !IsPendingSource(moves, done, X8) && IsSourceOf(goal, R(r))
    ensures Moving(start, goal, Redirect(moves, r), done, code + [(R(r), SCRATCH)])
  {
    SaveInScratch(start, goal, moves, done, code, r);
  }

  /** No move is possible: save the source of one of them in X8, which breaks a cycle. */
  method BreakCycle(moves: RegMoves, done: set<MReg>, code: seq<Move>, ghost start: seq<Move>, ghost goal: RegMoves, ghost l: Loc)
    returns (moves': RegMoves, code': seq<Move>, ghost l': Loc)
    requires Moving(start, goal, moves, done, code) && Tracks(start, goal, moves, done, code, l)
    requires AllBlocked(moves, done, moves.Keys) && Pending(moves, done) != {}
    ensures Moving(start, goal, moves', done, code') && Tracks(start, goal, moves', done, code', l')
    ensures !IsPendingSource(moves, done, X8) && IsPendingSource(moves', done, X8)
  {
    var d :| d in moves.Keys - done;
    CycleBroken(moves, done, d);
    var r := moves[d].reg;
    SaveKeepsMoving(start, goal, moves, done, code, r);
    TrackSave(start, goal, moves, done, code, r, l);
    code', moves', l' := code + [(R(r), SCRATCH)], Redirect(moves, r), R(r);
  }

  /** The moves are made: every destination holds what its source did, and only X8 is lost. */
  ghost predicate MovedOn(goal: RegMoves, base: LocSet, now: LocSet) {
    && (forall d | d in goal :: Get(now, R(d)) == Get(base, goal[d]))
    && (forall l | l != SCRATCH && !(l.R? && l.reg in goal) :: Get(now, l) == Get(base, l))
  }

  ghost predicate Moved(start: seq<Move>, goal: RegMoves, code: seq<Move>) {
    forall ls: LocSet :: MovedOn(goal, CopyAll(start, ls), CopyAll(code, ls))
  }

  lemma AllMoved(start: seq<Move>, goal: RegMoves, moves: RegMoves, done: set<MReg>, code: seq<Move>)
    requires Progress(start, goal, moves, done, code) && |done| >= |moves|
    ensures Moved(start, goal, code) && done == goal.Keys
  {
    assert |moves.Keys| == |moves|;
    SameSize(done, goal.Keys);
    forall ls: LocSet
      ensures MovedOn(goal, CopyAll(start, ls), CopyAll(code, ls))
    {
      assert ProgressOn(start, goal, moves, done, code, ls);
    }
  }

  lemma NothingMoved(goal: RegMoves, start: seq<Move>)
    requires forall d | d in goal :: d < 8 && goal[d] != R(d)
    ensures Moving(start, goal, goal, {}, start) && Tracks(start, goal, goal, {}, start, SCRATCH)
  {
    forall ls: LocSet
      ensures ProgressOn(start, goal, goal, {}, start, ls) && HoldsOn(start, start, SCRATCH, ls)
    {
    }
  }

  lemma NoCycleLeft(start: seq<Move>, goal: RegMoves, moves: RegMoves, done: set<MReg>, code: seq<Move>, l: Loc)
    requires Tracks(start, goal, moves, done, code, l) && done == goal.Keys
    ensures l == SCRATCH <==> !HasCycle(goal)
  {
  }

  /** All the register moves: passes over what is pending, breaking a cycle when a pass achieves nothing. In the end
      X8 holds what scratch did. */
  method MoveRegisters(goal: RegMoves, start: seq<Move>) returns (code: seq<Move>, ghost scratch: Loc)
    requires forall d | d in goal :: d < 8 && goal[d] != R(d)
    ensures Moved(start, goal, code) && WritesGoals(start, goal, code)
    ensures Holds(start, code, scratch) && if HasCycle(goal) then scratch.R? && scratch.reg in goal else scratch == SCRATCH
  {
    NothingMoved(goal, start);
    var moves, done := goal, {};
    code, scratch := start, SCRATCH;
    while |done| < |moves|
      invariant Moving(start, goal, moves, done, code) && Tracks(start, goal, moves, done, code, scratch)
      decreases |moves| - |done|, CyclesLeft(moves, done)
    {
      var done', code' := MakePossibleMoves(moves, done, code, start, goal, scratch);
      if done' == done {
        assert moves.Keys != done;
        moves, code, scratch := BreakCycle(moves, done, code, start, goal, scratch);
      } else {
        assert |done'| == |done| + |done' - done|;
        done, code := done', code';
      }
    }
    AllMoved(start, goal, moves, done, code);
    NoCycleLeft(start, goal, moves, done, code, scratch);
  }

  /** Moves that place the arguments: overflow arguments into slots, then the others into X0..X7. */
  method PlaceArguments(args: seq<Loc>) returns (moves: seq<Move>)
    ensures WritesPlaces(moves, |args|) && ReadsArguments(moves, args)
    ensures ArgsMoved(moves, args) <==> ArgumentsSafe(args)
    ensures ArgumentsSafe(args) ==> (Keeps(moves, SCRATCH) <==> ScratchFree(args))
    ensures ArgumentsSafe(args) && HasCycle(NeededRegMoves(args)) ==> SavesRegister(moves, args)
  {
    var goal := CollectRegMoves(args);
    var overflow := StoreOverflow(args);
    ghost var scratch;
    moves, scratch := MoveRegisters(goal, overflow);
    OverflowWrites(args, |args|);
    MovesExact(args, moves);
    if ArgumentsSafe(args) {
      OverflowExact(args, |args|);
      ScratchExact(args, moves, scratch);
      ScratchSaves(args, moves, scratch);
    }
    OverflowReads(args, |args|);
    forall m | m in moves
      ensures m.0 == SCRATCH || m.0 in args
    {
      if m !in overflow && m.0 != SCRATCH {
        var d :| d in goal && goal[d] == m.0;
        assert args[d] in args;
      }
    }
    forall m | m in moves
      ensures m.1 == SCRATCH || IsArgPlace(m.1, |args|)
    {
      if m !in overflow && m.1 != SCRATCH {
        assert m.1 == Lin.ArgPlace(m.1.reg);
      }
    }
  }

  lemma ScratchHolds(args: seq<Loc>, moves: seq<Move>, scratch: Loc, ls: LocSet)
    requires AllOverflowDone(args, |args|) && Holds(OverflowMoves(args, |args|), moves, scratch)
    requires scratch == SCRATCH || (scratch.R? && scratch.reg < 8)
    ensures Get(CopyAll(moves, ls), SCRATCH) == Get(ls, if scratch == SCRATCH then InScratch(args, |args|) else scratch)
  {
    assert HoldsOn(OverflowMoves(args, |args|), moves, scratch, ls) && OverflowDone(args, |args|, ls);
  }

  ghost predicate EndsUpIn(moves: seq<Move>, from: Loc, to: Loc) {
    forall ls: LocSet :: Get(CopyAll(moves, ls), to) == Get(ls, from)
  }

  /** X8 ends up with what was in one of the registers that are moved to. */
  ghost predicate SavesRegister(moves: seq<Move>, args: seq<Loc>) {
    exists d | d in NeededRegMoves(args) :: EndsUpIn(moves, R(d), SCRATCH)
  }

  lemma ScratchSaves(args: seq<Loc>, moves: seq<Move>, scratch: Loc)
    requires AllOverflowDone(args, |args|) && Holds(OverflowMoves(args, |args|), moves, scratch)
    requires HasCycle(NeededRegMoves(args)) ==> scratch.R? && scratch.reg in NeededRegMoves(args)
    ensures HasCycle(NeededRegMoves(args)) ==> SavesRegister(moves, args)
  {
    if HasCycle(NeededRegMoves(args)) {
      forall ls: LocSet
        ensures Get(CopyAll(moves, ls), SCRATCH) == Get(ls, scratch)
      {
        ScratchHolds(args, moves, scratch, ls);
      }
      assert EndsUpIn(moves, R(scratch.reg), SCRATCH);
    }
  }

  /** X8 survives exactly if it is not needed. */
  lemma ScratchExact(args: seq<Loc>, moves: seq<Move>, scratch: Loc)
    requires AllOverflowDone(args, |args|) && Holds(OverflowMoves(args, |args|), moves, scratch)
    requires if HasCycle(NeededRegMoves(args)) then scratch.R? && scratch.reg in NeededRegMoves(args) else scratch == SCRATCH
    ensures Keeps(moves, SCRATCH) <==> ScratchFree(args)
  {
    var n := |args|;
    if n >= 8 {
      InScratchIs(args, n);
    }
    if ScratchFree(args) {
      forall ls: LocSet
        ensures KeptOn(moves, SCRATCH, ls)
      {
        ScratchHolds(args, moves, scratch, ls);
      }
    } else {
      ScratchHolds(args, moves, scratch, map[SCRATCH := Vnum(1)]);
      assert !KeptOn(moves, SCRATCH, map[SCRATCH := Vnum(1)]);
    }
  }

  lemma {:induction false} OverflowReads(args: seq<Loc>, n: nat)
    requires n <= |args|
    ensures ReadsArguments(OverflowMoves(args, n), args)
  {
    if n > 8 {
      OverflowReads(args, n - 1);
    }
  }

  lemma {:induction false} OverflowWrites(args: seq<Loc>, n: nat)
    requires n <= |args|
    ensures WritesPlaces(OverflowMoves(args, n), |args|)
  {
    if n <= 8 {
    } else {
      OverflowWrites(args, n - 1);
      assert IsArgPlace(Lin.ArgPlace(n - 1), |args|);
    }
  }

  /** The moves place the arguments exactly if every argument is safe to read. */
  lemma MovesExact(args: seq<Loc>, moves: seq<Move>)
    requires Moved(OverflowMoves(args, |args|), NeededRegMoves(args), moves)
    ensures ArgsMoved(moves, args) <==> ArgumentsSafe(args)
  {
    var n := |args|;
    OverflowExact(args, n);
    if forall j | 8 <= j < n :: ReadSafe(args, j) {
      if ArgumentsSafe(args) {
        SafeIsMoved(args, moves);
      } else {
        var j :| 0 <= j < n && !ReadSafe(args, j);
        UnsafeRegister(args, moves, j);
      }
    } else {
      var j :| 8 <= j < n && OverflowWrong(args, n, j);
      WrongOverflow(args, moves, j);
    }
  }

  lemma WrongOverflow(args: seq<Loc>, moves: seq<Move>, j: nat)
    requires Moved(OverflowMoves(args, |args|), NeededRegMoves(args), moves)
    requires 8 <= j < |args| && OverflowWrong(args, |args|, j)
    ensures !ArgsMoved(moves, args)
  {
    var base := OverflowMoves(args, |args|);
    var ls: LocSet :| Get(CopyAll(base, ls), Lin.ArgPlace(j)) != Get(ls, args[j]);
    assert MovedOn(NeededRegMoves(args), CopyAll(base, ls), CopyAll(moves, ls));
    assert !ArgsMovedOn(moves, args, ls);
  }

  lemma {:induction false} SafeIsMoved(args: seq<Loc>, moves: seq<Move>)
    requires Moved(OverflowMoves(args, |args|), NeededRegMoves(args), moves)
    requires ArgumentsSafe(args) && AllOverflowDone(args, |args|)
    ensures ArgsMoved(moves, args)
  {
    var n, goal := |args|, NeededRegMoves(args);
    forall ls: LocSet
      ensures ArgsMovedOn(moves, args, ls)
    {
      var base := CopyAll(OverflowMoves(args, n), ls);
      assert MovedOn(goal, base, CopyAll(moves, ls)) && OverflowDone(args, n, ls);
      forall i | 0 <= i < n
        ensures Get(CopyAll(moves, ls), Lin.ArgPlace(i)) == Get(ls, args[i])
      {
        if i < 8 {
          RegisterRead(args, i, ls);
        }
      }
    }
  }

  /** Register argument i is still there after the overflow arguments are stored. */
  lemma RegisterRead(args: seq<Loc>, i: nat, ls: LocSet)
    requires i < |args| && i < 8 && ReadSafe(args, i) && AllOverflowDone(args, |args|)
    ensures Get(CopyAll(OverflowMoves(args, |args|), ls), args[i]) == Get(ls, args[i])
  {
    if |args| >= 8 {
      OverflowRead(args, |args|, i, ls);
    }
  }

  lemma {:induction false} UnsafeRegister(args: seq<Loc>, moves: seq<Move>, j: nat)
    requires Moved(OverflowMoves(args, |args|), NeededRegMoves(args), moves)
    requires j < |args| && j < 8 && !ReadSafe(args, j) && AllOverflowDone(args, |args|)
    ensures !ArgsMoved(moves, args)
  {
    OverflowRead(args, |args|, j, map[]);
    var ls: LocSet :| Get(CopyAll(OverflowMoves(args, |args|), ls), args[j]) != Get(ls, args[j]);
    WrongRegister(args, moves, j, ls);
  }

  lemma WrongRegister(args: seq<Loc>, moves: seq<Move>, j: nat, ls: LocSet)
    requires Moved(OverflowMoves(args, |args|), NeededRegMoves(args), moves)
    requires j < |args| && j < 8 && args[j] != R(j)
    requires Get(CopyAll(OverflowMoves(args, |args|), ls), args[j]) != Get(ls, args[j])
    ensures !ArgsMoved(moves, args)
  {
    assert MovedOn(NeededRegMoves(args), CopyAll(OverflowMoves(args, |args|), ls), CopyAll(moves, ls));
    assert j in NeededRegMoves(args);
    assert !ArgsMovedOn(moves, args, ls);
  }

  // --- The call ---

  /** A store to an outgoing slot, or a move. */
  function EmitMove(m: Move): Lin.Instr {
    if m.0.R? && m.1.S? then Lin.Lsetstack(m.0.reg, m.1.slot, m.1.ofs, m.1.ty) else Lin.Lop(Omove, [m.0], m.1)
  }

  function EmitMoves(moves: seq<Move>): (code: Lin.Code)
    ensures |code| == |moves|
    ensures forall i | i in code :: i.IsStraight()
  {
    seq(|moves|, i requires 0 <= i < |moves| => EmitMove(moves[i]))
  }

  lemma {:induction false} ExecEmitted(o: Oracle, moves: seq<Move>, s: Machine)
    ensures Lin.ExecAll(o, EmitMoves(moves), s) == Some(s.(ls := CopyAll(moves, s.ls)))
    decreases |moves|
  {
    if moves == [] {
    } else {
      var m := moves[0];
      var s1 := s.(ls := s.ls[m.1 := Get(s.ls, m.0)]);
      MoveExec(o, m.0, m.1, s);
      assert Lin.Exec(o, EmitMove(m), s) == Some(s1);
      assert EmitMoves(moves)[0] == EmitMove(m) && EmitMoves(moves)[1..] == EmitMoves(moves[1..]);
      ExecEmitted(o, moves[1..], s1);
    }
  }

  /** A call does not care for the caller-saved registers and outgoing slots. */
  lemma {:induction false} CallForgetsMoves(moves: seq<Move>, ls: LocSet, res: Val, junk: map<MReg, Val>)
    requires forall m | m in moves :: !Preserved(m.1)
    ensures AfterCall(CopyAll(moves, ls), res, junk) == AfterCall(ls, res, junk)
    decreases |moves|
  {
    if moves == [] {
    } else {
      var v := Get(ls, moves[0].0);
      assert moves[0] in moves && forall m | m in moves[1..] :: m in moves;
      CallForgetsMoves(moves[1..], ls[moves[0].1 := v], res, junk);
      AfterCallForgets(ls, moves[0].1, v, res, junk);
    }
  }

  lemma PlacesAreNotPreserved(moves: seq<Move>, n: nat)
    requires WritesPlaces(moves, n)
    ensures forall m | m in moves :: !Preserved(m.1)
  {
  }

  /** Code that does what the LTL instruction does, from every machine state. */
  ghost predicate Emulates(code: Lin.Code, i: Instr) {
    && (forall c | c in code :: c.IsStraight())
    && (forall o: Oracle, s: Machine :: EmulatesOn(o, code, i, s))
  }

  ghost predicate EmulatesOn(o: Oracle, code: Lin.Code, i: Instr, s: Machine) {
    Lin.ExecAll(o, code, s) == ExecInstr(o, i, s)
  }

  lemma CalleeArrives(moves: seq<Move>, fn: FunRef, args: seq<Loc>, ls: LocSet)
    requires ArgsMoved(moves, args) && WritesPlaces(moves, |args|) && CalleeSafe(fn, args)
    requires Keeps(moves, SCRATCH) <==> ScratchFree(args)
    ensures CalleeOf(fn, CopyAll(moves, ls)) == CalleeOf(fn, ls)
  {
    if fn.FunLoc? {
      CalleeKeptIff(moves, args, fn.loc);
      assert KeptOn(moves, fn.loc, ls);
    }
  }

  lemma ArgumentsArrive(moves: seq<Move>, args: seq<Loc>, ls: LocSet)
    requires ArgsMoved(moves, args)
    ensures GetAll(CopyAll(moves, ls), Lin.ArgPlaces(|args|)) == GetAll(ls, args)
  {
    assert ArgsMovedOn(moves, args, ls);
  }

  lemma MovesAreForgotten(o: Oracle, moves: seq<Move>, callee: Callee, vs: seq<Val>, s: Machine)
    requires forall m | m in moves :: !Preserved(m.1)
    ensures DoCall(o, callee, vs, s.(ls := CopyAll(moves, s.ls))) == DoCall(o, callee, vs, s)
  {
    match o.call(callee, vs, s.m)
    case None =>
    case Some((v, _)) => CallForgetsMoves(moves, s.ls, v, o.junk(callee, vs, s.m));
  }

  lemma ExecCall(o: Oracle, sig: Sig, fn: FunRef, now: Machine, callee: Callee, vs: seq<Val>)
    requires CalleeOf(fn, now.ls) == callee && GetAll(now.ls, Lin.ArgPlaces(sig.nargs)) == vs
    ensures Lin.Exec(o, Lin.Lcall(sig, fn), now) == DoCall(o, callee, vs, now)
  {
  }

  lemma SameCall(o: Oracle, sig: Sig, fn: FunRef, args: seq<Loc>, s: Machine, callee: Callee, vs: seq<Val>,
                                    r: Option<Machine>)
    requires CalleeOf(fn, s.ls) == callee && GetAll(s.ls, args) == vs && r == DoCall(o, callee, vs, s)
    ensures ExecInstr(o, Lcall(sig, fn, args), s) == r
  {
  }

  lemma SameCallAfter(o: Oracle, moves: seq<Move>, sig: Sig, fn: FunRef, args: seq<Loc>,
                                         s: Machine, now: Machine, callee: Callee, vs: seq<Val>)
    requires now == s.(ls := CopyAll(moves, s.ls)) && forall m | m in moves :: !Preserved(m.1)
    requires CalleeOf(fn, now.ls) == callee == CalleeOf(fn, s.ls)
    requires GetAll(now.ls, Lin.ArgPlaces(sig.nargs)) == vs == GetAll(s.ls, args)
    ensures Lin.Exec(o, Lin.Lcall(sig, fn), now) == ExecInstr(o, Lcall(sig, fn, args), s)
  {
    MovesAreForgotten(o, moves, callee, vs, s);
    ExecCall(o, sig, fn, now, callee, vs);
    SameCall(o, sig, fn, args, s, callee, vs, DoCall(o, callee, vs, now));
  }

  /** Code whose last instruction does the same as i, where it has got to. */
  lemma LastEmulates(o: Oracle, code: Lin.Code, c: Lin.Instr, i: Instr, s: Machine, now: Machine)
    requires Lin.ExecAll(o, code, s) == Some(now) && Lin.Exec(o, c, now) == ExecInstr(o, i, s)
    ensures EmulatesOn(o, code + [c], i, s)
  {
    Lin.ExecAllLast(o, code, c, s, now);
  }

  lemma CallEmulatedOn(o: Oracle, moves: seq<Move>, sig: Sig, fn: FunRef, args: seq<Loc>, s: Machine)
    requires ArgsMoved(moves, args) && WritesPlaces(moves, |args|) && CalleeSafe(fn, args) && sig.nargs == |args|
    requires Keeps(moves, SCRATCH) <==> ScratchFree(args)
    ensures EmulatesOn(o, EmitMoves(moves) + [Lin.Lcall(sig, fn)], Lcall(sig, fn, args), s)
  {
    var now, callee, vs := s.(ls := CopyAll(moves, s.ls)), CalleeOf(fn, s.ls), GetAll(s.ls, args);
    CalleeArrives(moves, fn, args, s.ls);
    ArgumentsArrive(moves, args, s.ls);
    PlacesAreNotPreserved(moves, |args|);
    SameCallAfter(o, moves, sig, fn, args, s, now, callee, vs);
    ExecEmitted(o, moves, s);
    LastEmulates(o, EmitMoves(moves), Lin.Lcall(sig, fn), Lcall(sig, fn, args), s, now);
  }

  lemma CallEmulated(moves: seq<Move>, sig: Sig, fn: FunRef, args: seq<Loc>)
    requires ArgsMoved(moves, args) && WritesPlaces(moves, |args|) && CalleeSafe(fn, args) && sig.nargs == |args|
    requires Keeps(moves, SCRATCH) <==> ScratchFree(args)
    ensures Emulates(EmitMoves(moves) + [Lin.Lcall(sig, fn)], Lcall(sig, fn, args))
  {
    forall o: Oracle, s: Machine
      ensures EmulatesOn(o, EmitMoves(moves) + [Lin.Lcall(sig, fn)], Lcall(sig, fn, args), s)
    {
      CallEmulatedOn(o, moves, sig, fn, args, s);
    }
  }

  /** Where a call's operands must not be for its moves to work. */
  ghost predicate OperandsSafe(sig: Sig, fn: FunRef, args: seq<Loc>) {
    sig.nargs == |args| && ArgumentsSafe(args) && CalleeSafe(fn, args)
  }

  /** Only one call gets through. */
  function PickyOracle(callee: Callee, vs: seq<Val>): Oracle {
    Oracle((_, _, _) => None, (_, _, _, _) => None, (_, _, _, _, _) => None,
           (c, args, m) => if c == callee && args == vs then Some((Vundef, m)) else None,
           (_, _, _) => None, (_, _) => None, (_, _, _, _) => None, (_, _, _) => map[])
  }

  /** If the callee or the arguments are wrong for some contents, then the call is. */
  lemma {:induction false} WrongCall(moves: seq<Move>, sig: Sig, fn: FunRef, args: seq<Loc>, ls: LocSet)
    requires var now := CopyAll(moves, ls);
      CalleeOf(fn, now) != CalleeOf(fn, ls) || GetAll(now, Lin.ArgPlaces(sig.nargs)) != GetAll(ls, args)
    ensures !Emulates(EmitMoves(moves) + [Lin.Lcall(sig, fn)], Lcall(sig, fn, args))
  {
    var o, s, code := PickyOracle(CalleeOf(fn, ls), GetAll(ls, args)), Machine(ls, map[], []), EmitMoves(moves);
    var now := s.(ls := CopyAll(moves, ls));
    ExecEmitted(o, moves, s);
    ExecCall(o, sig, fn, now, CalleeOf(fn, now.ls), GetAll(now.ls, Lin.ArgPlaces(sig.nargs)));
    Lin.ExecAllLast(o, code, Lin.Lcall(sig, fn), s, now);
    assert !EmulatesOn(o, code + [Lin.Lcall(sig, fn)], Lcall(sig, fn, args), s);
  }

  lemma UnsafeIsWrong(moves: seq<Move>, sig: Sig, fn: FunRef, args: seq<Loc>)
    requires WritesPlaces(moves, |args|) && (ArgsMoved(moves, args) <==> ArgumentsSafe(args))
    requires ArgumentsSafe(args) ==> (Keeps(moves, SCRATCH) <==> ScratchFree(args))
    requires !OperandsSafe(sig, fn, args)
    ensures !Emulates(EmitMoves(moves) + [Lin.Lcall(sig, fn)], Lcall(sig, fn, args))
  {
    if sig.nargs != |args| {
      WrongCall(moves, sig, fn, args, map[]);
    } else if !ArgumentsSafe(args) {
      var ls: LocSet :| !ArgsMovedOn(moves, args, ls);
      var i :| 0 <= i < |args| && Get(CopyAll(moves, ls), Lin.ArgPlace(i)) != Get(ls, args[i]);
      assert GetAll(CopyAll(moves, ls), Lin.ArgPlaces(sig.nargs))[i] != GetAll(ls, args)[i];
      WrongCall(moves, sig, fn, args, ls);
    } else {
      CalleeKeptIff(moves, args, fn.loc);
      var ls: LocSet :| !KeptOn(moves, fn.loc, ls);
      WrongCall(moves, sig, fn, args, ls);
    }
  }

  /** The code for a call does what the call does exactly if its operands are safe. */
  method ConvertCall(sig: Sig, fn: FunRef, args: seq<Loc>) returns (code: Lin.Code)
    ensures forall c | c in code :: c.IsStraight()
    ensures Emulates(code, Lcall(sig, fn, args)) <==> OperandsSafe(sig, fn, args)
    ensures KeepsWords(code, Lcall(sig, fn, args))
  {
    var moves := PlaceArguments(args);
    EmittedWords(moves, sig, fn, args);
    code := EmitMoves(moves) + [Lin.Lcall(sig, fn)];
    if OperandsSafe(sig, fn, args) {
      CallEmulated(moves, sig, fn, args);
    } else {
      UnsafeIsWrong(moves, sig, fn, args);
    }
  }

  lemma EmittedWords(moves: seq<Move>, sig: Sig, fn: FunRef, args: seq<Loc>)
    requires WritesPlaces(moves, |args|) && ReadsArguments(moves, args)
    ensures KeepsWords(EmitMoves(moves) + [Lin.Lcall(sig, fn)], Lcall(sig, fn, args))
  {
    var i, code := Lcall(sig, fn, args), EmitMoves(moves) + [Lin.Lcall(sig, fn)];
    if AllWords(Operands(i)) {
      assert forall l | l in CalleeLocs(fn) || l in args :: l in Operands(i);
      assert AllWords(args) && AllWords(CalleeLocs(fn)) && AllWords(Lin.ArgPlaces(sig.nargs)) by {
        PlacesAreWords(sig.nargs);
      }
      forall c | c in code
        ensures AllWords(Lin.Operands(c))
      {
        if c in EmitMoves(moves) {
          var m :| m in moves && c == EmitMove(m);
          MoveWords(m, args);
        }
      }
    }
  }

  lemma PlacesAreWords(n: nat)
    ensures AllWords(Lin.ArgPlaces(n))
  {
    forall l | l in Lin.ArgPlaces(n)
      ensures Conventions.IsWord(l)
    {
      var k: nat :| k < n && l == Lin.ArgPlace(k);
    }
  }

  lemma MoveWords(m: Move, args: seq<Loc>)
    requires AllWords(args) && (m.0 == SCRATCH || m.0 in args) && (m.1 == SCRATCH || IsArgPlace(m.1, |args|))
    ensures AllWords(Lin.Operands(EmitMove(m)))
  {
  }

  /** A call of a named function with no more arguments than registers is always safe. */
  lemma DirectCallIsSafe(sig: Sig, name: string, args: seq<Loc>)
    requires sig.nargs == |args| <= 8
    ensures OperandsSafe(sig, FunSymbol(name), args)
  {
  }

  /** A call through a pointer in X0 whose first argument is in X1: the pointer is overwritten, whatever the
      order of the moves. */
  lemma PointerInArgumentRegister(moves: seq<Move>)
    requires ArgsMoved(moves, [R(1)])
    ensures !CalleeSafe(FunLoc(R(0)), [R(1)])
    ensures CalleeOf(FunLoc(R(0)), CopyAll(moves, map[R(0) := Vnum(1), R(1) := Vnum(2)])) == ToAddress(Vnum(2))
  {
    var ls: LocSet := map[R(0) := Vnum(1), R(1) := Vnum(2)];
    assert ArgsMovedOn(moves, [R(1)], ls);
    assert Lin.ArgPlace(0) == R(0) && [R(1)][0] == R(1);
  }

  /** A call through a pointer in X8 is safe when X8 is not needed. */
  lemma PointerInFreeScratch()
    ensures CalleeSafe(FunLoc(SCRATCH), [R(1)])
  {
    var moves := NeededRegMoves([R(1)]);
    forall c: set<MReg> | c != {} && c <= moves.Keys
      ensures !Rotates(moves, c)
    {
      var r :| r in c;
      assert !IsReadIn(moves, c, r);
    }
  }

  /** It is lost when two arguments change places: one of the arguments is called. */
  lemma PointerInNeededScratch(moves: seq<Move>)
    requires SavesRegister(moves, [R(1), R(0)])
    ensures HasCycle(NeededRegMoves([R(1), R(0)])) && !CalleeSafe(FunLoc(SCRATCH), [R(1), R(0)])
    ensures exists d | 0 <= d < 2 :: forall ls: LocSet :: CalleeOf(FunLoc(SCRATCH), CopyAll(moves, ls)) == ToAddress(Get(ls, R(d)))
  {
    var needed := NeededRegMoves([R(1), R(0)]);
    assert needed[0] == R(1) && needed[1] == R(0);
    assert IsReadIn(needed, {0, 1}, 0) && IsReadIn(needed, {0, 1}, 1);
    assert Rotates(needed, {0, 1});
    var d :| d in needed && EndsUpIn(moves, R(d), SCRATCH);
    assert forall ls: LocSet :: CalleeOf(FunLoc(SCRATCH), CopyAll(moves, ls)) == ToAddress(Get(ls, R(d)));
  }

  /** Nine arguments, the first in X8 and the last in a slot: what arrives in X0 is the ninth. */
  lemma ScratchArgumentIsLost(args: seq<Loc>, moves: seq<Move>, ls: LocSet)
    requires |args| == 9 && args[0] == SCRATCH && args[8].S?
    requires Moved(OverflowMoves(args, 9), NeededRegMoves(args), moves)
    ensures !ArgumentsSafe(args)
    ensures Get(CopyAll(moves, ls), R(0)) == Get(ls, args[8])
  {
    assert !ReadSafe(args, 0) by {
      assert !args[8].R?;
    }
    OverflowExact(args, 9);
    assert OverflowDone(args, 9, ls);
    var goal := NeededRegMoves(args);
    assert 0 in goal && goal[0] == SCRATCH;
    assert MovedOn(goal, CopyAll(OverflowMoves(args, 9), ls), CopyAll(moves, ls));
  }
}
