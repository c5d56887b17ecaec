/** ARM64 register conventions (pkg/regalloc/conventions.go; AAPCS64 section 6.1.1). */
module Conventions {
  import opened Values
  import opened LTL

  /** The colours: X0..X15, X18, X19..X28. */
  const ALLOCATABLE: seq<MReg> :=
    [0, 1, 2, 3, 4, 5, 6, 7, 8, 9, 10, 11, 12, 13, 14, 15, 18, 19, 20, 21, 22, 23, 24, 25, 26, 27, 28]

  const K: nat := 27
  const FIRST_CALLEE_SAVED_COLOR: nat := 17
  const NUM_ARG_REGS: nat := 8

  function ArgLocation(i: nat): Loc {
    if i < NUM_ARG_REGS then R(i) else S(SlotIncoming, (i - NUM_ARG_REGS) * 8, Tlong)
  }

  const RETURN_LOCATION: Loc := R(X0)

  lemma ArgLocationsDiffer(i: nat, j: nat)
    requires i != j
    ensures ArgLocation(i) != ArgLocation(j)
  {
  }

  function Register(color: nat): MReg
    requires color < K
  {
    ALLOCATABLE[color]
  }

  /** Different colours are different registers, and exactly the colours from 17 up are callee-saved. */
  lemma RegistersDiffer(c: nat, d: nat)
    requires c < K && d < K
    ensures Register(c) == Register(d) <==> c == d
    ensures IsCalleeSaved(Register(c)) <==> c >= FIRST_CALLEE_SAVED_COLOR
    ensures c < NUM_ARG_REGS ==> Register(c) == c
  {
    assert forall i | 0 <= i < 16 :: ALLOCATABLE[i] == i;
    assert ALLOCATABLE[16] == 18;
    assert forall i | 17 <= i < 27 :: ALLOCATABLE[i] == i + 2;
  }

  /** Not the temporaries X16 and X17, nor the frame pointer and the link register. */
  predicate IsAllocatable(r: MReg) {
    r < 16 || 18 <= r <= 28
  }

  /** A slot of eight bytes, at a multiple of eight. */
  predicate IsWordSlot(l: Loc) {
    l.S? && l.ofs >= 0 && l.ofs % 8 == 0 && l.ty == Tlong
  }

  /** A location that compiled code may mention. */
  predicate IsWord(l: Loc) {
    if l.R? then IsAllocatable(l.reg) else IsWordSlot(l)
  }

  lemma AllocatableIs(r: MReg)
    ensures r in ALLOCATABLE <==> IsAllocatable(r)
  {
    if IsAllocatable(r) {
      assert ALLOCATABLE[if r < 16 then r else r - 2] == r;
    }
  }

  lemma ColorIsAllocatable(color: nat)
    requires color < K
    ensures IsAllocatable(Register(color))
  {
    AllocatableIs(Register(color));
  }

  /** Every allocatable register is a colour. */
  lemma AllocatableIsColor(r: MReg)
    requires IsAllocatable(r)
    ensures exists color: nat :: color < K && Register(color) == r
  {
    var color: nat := if r < 16 then r else r - 2;
    assert Register(color) == r;
  }
}
