/** What expressions with shifted operands mean on 64-bit integers, whichever operations they are made of. */
module Numbers {
  import opened Values
  import opened CminorSel

  function Pow2(n: nat): (p: nat)
    ensures p > 0
  {
    if n == 0 then 1 else 2 * Pow2(n - 1)
  }

  /** The signed and the unsigned number with the same 64 bits. */
  function Signed(x: int): int {
    (x + 0x8000_0000_0000_0000) % 0x1_0000_0000_0000_0000 - 0x8000_0000_0000_0000
  }

  function Unsigned(x: int): nat {
    x % 0x1_0000_0000_0000_0000
  }

  /** Sums, differences and shifts are those of 64-bit integers: a left shift multiplies by a power of two, an arithmetic
      right shift divides the signed number, rounding down, and a logical one the unsigned number. */
  ghost predicate IsArithmetic(o: Oracle) {
    && (forall x, y, m :: o.op(Oadd, [Vnum(x), Vnum(y)], m) == Some(Vnum(Signed(x + y))))
    && (forall x, y, m :: o.op(Osub, [Vnum(x), Vnum(y)], m) == Some(Vnum(Signed(x - y))))
    && (forall n: nat, x, m :: o.op(Oshlimm(n), [Vnum(x)], m) == Some(Vnum(Signed(x * Pow2(n)))))
    && (forall n: nat, x, m :: o.op(Oshrimm(n), [Vnum(x)], m) == Some(Vnum(Signed(x) / Pow2(n))))
    && (forall n: nat, x, m :: o.op(Oshruimm(n), [Vnum(x)], m) == Some(Vnum(Signed(Unsigned(x) / Pow2(n)))))
  }

  /** The right operand is shifted, and then added or subtracted. */
  lemma ShiftedOperandMeans(o: Oracle, env: Env, m: Mem, n: Amount, l: Expr, r: Expr, x: int, y: int)
    requires IsArithmetic(o) && EvalExpr(o, env, m, l) == Some(Vnum(x)) && EvalExpr(o, env, m, r) == Some(Vnum(y))
    ensures EvalExpr(o, env, m, Eaddshift(Slsl, n, l, r)) == Some(Vnum(Signed(x + Signed(y * Pow2(n)))))
    ensures EvalExpr(o, env, m, Eaddshift(Sasr, n, l, r)) == Some(Vnum(Signed(x + Signed(y) / Pow2(n))))
    ensures EvalExpr(o, env, m, Eaddshift(Slsr, n, l, r)) == Some(Vnum(Signed(x + Signed(Unsigned(y) / Pow2(n)))))
    ensures EvalExpr(o, env, m, Esubshift(Slsl, n, l, r)) == Some(Vnum(Signed(x - Signed(y * Pow2(n)))))
    ensures EvalExpr(o, env, m, Esubshift(Sasr, n, l, r)) == Some(Vnum(Signed(x - Signed(y) / Pow2(n))))
    ensures EvalExpr(o, env, m, Esubshift(Slsr, n, l, r)) == Some(Vnum(Signed(x - Signed(Unsigned(y) / Pow2(n)))))
  {
  }
}
