/** Code whose locations are allocatable registers and slots for words. */
module Words {
  import opened Values
  import opened Conventions
  import L = LTL
  import Lin = Linear

  ghost predicate AllWords(locs: seq<L.Loc>) {
    forall l | l in locs :: IsWord(l)
  }

  ghost predicate BlockIsWords(b: seq<L.Instr>) {
    forall i | i in b :: AllWords(L.Operands(i))
  }

  ghost predicate CodeIsWords(code: Lin.Code) {
    forall c | c in code :: AllWords(Lin.Operands(c))
  }

  /** The code for an instruction has no other locations than words if that has none. */
  ghost predicate KeepsWords(code: Lin.Code, i: L.Instr) {
    AllWords(L.Operands(i)) ==> CodeIsWords(code)
  }
}
