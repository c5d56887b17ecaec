/** Values, operators and the environment shared by all the intermediate languages.

    Arithmetic, memory accesses, calls and built-ins are not interpreted: an `Oracle` says what each
    of them yields, and every theorem holds for all oracles.  Only a few facts are fixed, because the
    passes rely on them: `Omove` is the identity, an integer comparison compares two integers, and a
    negated floating-point comparison is the negation of the comparison.
  */
module Values {
  datatype Option<+T> = None | Some(value: T)

  datatype Val = Vundef | Vnum(n: int)

  /** Memory contents; looked at only through the oracle. */
  type Mem = map<int, int>

  /** A machine register, numbered as in pkg/ltl/ast.go: X0..X30 are 0..30, D0..D31 are 64..95. */
  type MReg = nat

  type Chunk = int

  datatype Constant =
    | Ointconst(n: int)
    | Olongconst(n: int)
    | Ofloatconst(bits: int)
    | Osingleconst(bits: int)
    | Oaddrsymbol(symbol: string, ofs: int)
    | Oaddrstack(ofs: int)

  datatype Operation =
    | Omove
    | Oconst(c: Constant)
    | Oadd
    | Osub
    | Oshlimm(n: int)
    | Oshrimm(n: int)
    | Oshruimm(n: int)
    | Ocmp(kind: CmpKind, cmp: Cmp)
    | Oprim(code: int)

  datatype AddrMode =
    | Aindexed(ofs: int)
    | Aindexed2
    | Aindexed2shift(shift: int)
    | Aglobal(symbol: string, ofs: int)
    | Ainstack(ofs: int)

  datatype Cmp = Ceq | Cne | Clt | Cle | Cgt | Cge {
    function Negate(): Cmp {
      match this
      case Ceq => Cne
      case Cne => Ceq
      case Clt => Cge
      case Cle => Cgt
      case Cgt => Cle
      case Cge => Clt
    }

    predicate Holds(x: int, y: int) {
      match this
      case Ceq => x == y
      case Cne => x != y
      case Clt => x < y
      case Cle => x <= y
      case Cgt => x > y
      case Cge => x >= y
    }
  }

  /** The six families of comparisons: int, unsigned int, long, unsigned long, double, float. */
  datatype CmpKind = Kint | Kuint | Klong | Kulong | Kdouble | Ksingle {
    predicate IsFloat() { Kdouble? || Ksingle? }
  }

  datatype ConditionCode =
    | Ccomp(kind: CmpKind, cmp: Cmp)
    | Ccompimm(kind: CmpKind, cmp: Cmp, n: int)
    | Cnotcomp(kind: CmpKind, cmp: Cmp)

  datatype Sig = Sig(nargs: nat)

  /** What a call goes to: a named function or the function at an address. */
  datatype Callee = ToSymbol(name: string) | ToAddress(v: Val)

  datatype Event =
    | EvCall(callee: Callee, args: seq<Val>)
    | EvBuiltin(name: string, args: seq<Val>)

  type Trace = seq<Event>

  datatype Oracle = Oracle(
    op: (Operation, seq<Val>, Mem) -> Option<Val>,
    load: (Chunk, AddrMode, seq<Val>, Mem) -> Option<Val>,
    store: (Chunk, AddrMode, seq<Val>, Val, Mem) -> Option<Mem>,
    call: (Callee, seq<Val>, Mem) -> Option<(Val, Mem)>,
    builtin: (string, seq<Val>, Mem) -> Option<(Val, Mem)>,
    asInt: (CmpKind, Val) -> Option<int>,
    fcmp: (CmpKind, Cmp, Val, Val) -> Option<bool>,
    junk: (Callee, seq<Val>, Mem) -> map<MReg, Val>  // what a call leaves in caller-saved registers
  )

  function EvalOp(o: Oracle, op: Operation, vs: seq<Val>, m: Mem): Option<Val> {
    if op == Omove then
      if |vs| == 1 then Some(vs[0]) else None
    else
      o.op(op, vs, m)
  }

  function Compare(o: Oracle, kind: CmpKind, cmp: Cmp, x: Val, y: Val): Option<bool> {
    if kind.IsFloat() then
      o.fcmp(kind, cmp, x, y)
    else
      match (o.asInt(kind, x), o.asInt(kind, y))
      case (Some(a), Some(b)) => Some(cmp.Holds(a, b))
      case _ => None
  }

  /** A comparison with a number in the instruction. */
  function CompareTo(o: Oracle, kind: CmpKind, cmp: Cmp, x: Val, n: int): Option<bool> {
    match o.asInt(kind, x)
    case Some(a) => Some(cmp.Holds(a, n))
    case None => None
  }

  function Not(b: Option<bool>): Option<bool> {
    match b
    case None => None
    case Some(x) => Some(!x)
  }

  function EvalCondCode(o: Oracle, cc: ConditionCode, vs: seq<Val>): Option<bool> {
    match cc
    case Ccomp(kind, cmp) => if |vs| == 2 then Compare(o, kind, cmp, vs[0], vs[1]) else None
    case Ccompimm(kind, cmp, n) => if |vs| == 1 && !kind.IsFloat() then CompareTo(o, kind, cmp, vs[0], n) else None
    case Cnotcomp(kind, cmp) => if |vs| == 2 then Not(Compare(o, kind, cmp, vs[0], vs[1])) else None
  }

  /** Reading a register file or a location set; what was never written holds Vundef. */
  function Get<K>(m: map<K, Val>, k: K): Val {
    if k in m then m[k] else Vundef
  }

  function GetAll<K>(m: map<K, Val>, ks: seq<K>): (vs: seq<Val>)
    ensures |vs| == |ks|
  {
    seq(|ks|, i requires 0 <= i < |ks| => Get(m, ks[i]))
  }
}
