/** Switch lowering (pkg/cminorgen/switch.go): whichever strategy is chosen, the exit taken is that of the first
    matching case. */
module Switch {
  import opened Values

  // --- Machine integers ---

  function HalfRange(isLong: bool): int {
    if isLong then 0x8000_0000_0000_0000 else 0x8000_0000
  }

  predicate InRange(isLong: bool, n: int) {
    -HalfRange(isLong) <= n < HalfRange(isLong)
  }

  /** Reduces to the signed machine integer of the width. */
  function Wrap(isLong: bool, n: int): (r: int)
    ensures InRange(isLong, r)
    ensures InRange(isLong, n) ==> r == n
  {
    (n + HalfRange(isLong)) % (2 * HalfRange(isLong)) - HalfRange(isLong)
  }

  /** Numbers are reduced to the same if they differ by a multiple of the modulus. */
  lemma WrapEqual(isLong: bool, a: int, b: int)
    ensures Wrap(isLong, a) == Wrap(isLong, b) <==> (a - b) % (2 * HalfRange(isLong)) == 0
  {
    var h := HalfRange(isLong);
    SameRemainder(a + h, b + h, 2 * h);
  }

  lemma SameRemainder(a: int, b: int, m: int)
    requires m > 0
    ensures a % m == b % m <==> (a - b) % m == 0
  {
    var q, r := a / m, b / m;
    assert a == q * m + a % m && b == r * m + b % m;
    var d := a % m - b % m;
    assert a - b == (q - r) * m + d by {
      assert (q - r) * m == q * m - r * m;
    }
    MultiplePlus(q - r, d, m);
  }

  lemma MultiplePlus(q: int, d: int, m: int)
    requires m > 0 && -m < d < m
    ensures (q * m + d) % m == 0 <==> d == 0
  {
    var n := q * m + d;
    if n % m == 0 {
      var k := n / m;
      assert n == k * m;
      assert (k - q) * m == d by {
        assert (k - q) * m == k * m - q * m;
      }
      SmallMultiple(k - q, m);
    } else if d == 0 {
      MultipleIs(q, m);
    }
  }

  lemma AtLeastOnce(k: int, m: int)
    requires m > 0 && k >= 1
    ensures k * m >= m
  {
    assert (k - 1) * m >= 0;
  }

  lemma SmallMultiple(k: int, m: int)
    requires m > 0 && -m < k * m < m
    ensures k == 0
  {
    if k >= 1 {
      AtLeastOnce(k, m);
    } else if k <= -1 {
      AtLeastOnce(-k, m);
    }
  }

  lemma MultipleIs(q: int, m: int)
    requires m > 0
    ensures (q * m) % m == 0
  {
    var n := q * m;
    var k := n / m;
    assert n == k * m + n % m;
    assert (q - k) * m == n % m by {
      assert (q - k) * m == q * m - k * m;
    }
    SmallMultiple(q - k, m);
  }

  // --- The code that is generated ---

  datatype Expr =
    | Scrutinee
    | Econst(n: int)
    | Ecmp(cmp: Cmp, left: Expr, right: Expr)
    | Esub(left: Expr, right: Expr)

  datatype SwitchCase = SwitchCase(value: int, exit: int)

  datatype Stmt =
    | Sexit(n: int)
    | Sifthenelse(cond: Expr, ifTrue: Stmt, ifFalse: Stmt)
    | Sswitch(expr: Expr, cases: seq<SwitchCase>, default: int)

  function Eval(isLong: bool, e: Expr, v: int): int {
    match e
    case Scrutinee => v
    case Econst(n) => n
    case Ecmp(cmp, l, r) => if cmp.Holds(Eval(isLong, l, v), Eval(isLong, r, v)) then 1 else 0
    case Esub(l, r) => Wrap(isLong, Eval(isLong, l, v) - Eval(isLong, r, v))
  }

  /** The exit of the first case that matches; case values are compared in the width of the scrutinee. */
  function Lookup(isLong: bool, cases: seq<SwitchCase>, default: int, v: int): int {
    if cases == [] then default
    else if Wrap(isLong, cases[0].value) == v then cases[0].exit
    else Lookup(isLong, cases[1..], default, v)
  }

  /** The exit that a statement takes. */
  function Run(isLong: bool, s: Stmt, v: int): int {
    match s
    case Sexit(n) => n
    case Sifthenelse(c, a, b) => if Eval(isLong, c, v) != 0 then Run(isLong, a, v) else Run(isLong, b, v)
    case Sswitch(e, cases, default) => Lookup(isLong, cases, default, Eval(isLong, e, v))
  }

  /** The comparisons made on the way there. */
  function Comparisons(isLong: bool, s: Stmt, v: int): nat {
    match s
    case Sifthenelse(c, a, b) => 1 + if Eval(isLong, c, v) != 0 then Comparisons(isLong, a, v) else Comparisons(isLong, b, v)
    case _ => 0
  }

  /** The statement takes the exits of the cases. */
  ghost predicate Implements(isLong: bool, s: Stmt, cases: seq<SwitchCase>, default: int) {
    forall v | InRange(isLong, v) :: RunsAs(isLong, s, cases, default, v)
  }

  ghost predicate RunsAs(isLong: bool, s: Stmt, cases: seq<SwitchCase>, default: int, v: int) {
    Run(isLong, s, v) == Lookup(isLong, cases, default, v)
  }

  /** No value occurs twice, and all are in the range of the scrutinee. */
  ghost predicate WellFormed(isLong: bool, cases: seq<SwitchCase>) {
    && (forall i | 0 <= i < |cases| :: InRange(isLong, cases[i].value))
    && (forall i, j | 0 <= i < j < |cases| :: cases[i].value != cases[j].value)
  }

  lemma {:induction false} LookupFinds(isLong: bool, cases: seq<SwitchCase>, default: int, v: int, i: nat)
    requires i < |cases| && Wrap(isLong, cases[i].value) == v && forall j | 0 <= j < i :: Wrap(isLong, cases[j].value) != v
    ensures Lookup(isLong, cases, default, v) == cases[i].exit
    decreases i
  {
    if i > 0 {
      LookupFinds(isLong, cases[1..], default, v, i - 1);
    }
  }

  lemma {:induction false} LookupFindsNone(isLong: bool, cases: seq<SwitchCase>, default: int, v: int)
    requires forall i | 0 <= i < |cases| :: Wrap(isLong, cases[i].value) != v
    ensures Lookup(isLong, cases, default, v) == default
    decreases |cases|
  {
    if cases == [] {
    } else {
      LookupFindsNone(isLong, cases[1..], default, v);
    }
  }

  // --- Analysis ---

  datatype Strategy = StrategyLinear | StrategyBinary | StrategyJumpTable

  datatype Analysis = Analysis(cases: seq<SwitchCase>, default: int, isLong: bool, strategy: Strategy, minVal: int, maxVal: int)

  ghost predicate Sorted(cases: seq<SwitchCase>) {
    forall i, j | 0 <= i < j < |cases| :: cases[i].value <= cases[j].value
  }

  /** The cases in another order. */
  ghost predicate SameCases(a: seq<SwitchCase>, b: seq<SwitchCase>) {
    multiset(a) == multiset(b)
  }

  method SortCases(cases: seq<SwitchCase>) returns (sorted: seq<SwitchCase>)
    ensures Sorted(sorted) && SameCases(cases, sorted)
  {
    sorted := [];
    for i := 0 to |cases|
      invariant Sorted(sorted) && SameCases(cases[..i], sorted)
    {
      sorted := InsertCase(sorted, cases[i]);
      assert cases[..i + 1] == cases[..i] + [cases[i]];
    }
    assert cases[..|cases|] == cases;
  }

  /** One more case, behind those that are not greater. */
  method InsertCase(sorted: seq<SwitchCase>, c: SwitchCase) returns (next: seq<SwitchCase>)
    requires Sorted(sorted)
    ensures Sorted(next) && multiset(next) == multiset(sorted) + multiset{c}
  {
    var k := |sorted|;
    while k > 0 && sorted[k - 1].value > c.value
      invariant 0 <= k <= |sorted|
      invariant forall j | k <= j < |sorted| :: sorted[j].value > c.value
    {
      k := k - 1;
    }
    InsertKeeps(sorted, c, k);
    InsertAdds(sorted, c, k);
    next := sorted[..k] + [c] + sorted[k..];
  }

  lemma InsertKeeps(sorted: seq<SwitchCase>, c: SwitchCase, k: nat)
    requires k <= |sorted| && Sorted(sorted)
    requires k > 0 ==> sorted[k - 1].value <= c.value
    requires forall j | k <= j < |sorted| :: sorted[j].value > c.value
    ensures Sorted(sorted[..k] + [c] + sorted[k..])
  {
    var next := sorted[..k] + [c] + sorted[k..];
    forall i, j | 0 <= i < j < |next|
      ensures next[i].value <= next[j].value
    {
      assert next[i] == if i < k then sorted[i] else if i == k then c else sorted[i - 1];
      assert next[j] == if j < k then sorted[j] else if j == k then c else sorted[j - 1];
    }
  }

  lemma InsertAdds(sorted: seq<SwitchCase>, c: SwitchCase, k: nat)
    requires k <= |sorted|
    ensures multiset(sorted[..k] + [c] + sorted[k..]) == multiset(sorted) + multiset{c}
  {
    assert sorted == sorted[..k] + sorted[k..];
  }

  /** Distinct cases mean the same in any order. */
  lemma SortingKeepsMeaning(isLong: bool, a: seq<SwitchCase>, b: seq<SwitchCase>, default: int, v: int)
    requires WellFormed(isLong, a) && WellFormed(isLong, b) && SameCases(a, b)
    ensures Lookup(isLong, a, default, v) == Lookup(isLong, b, default, v)
  {
    if i :| 0 <= i < |a| && a[i].value == v {
      assert a[i] in multiset(a) && a[i] in multiset(b);
      var j :| 0 <= j < |b| && b[j] == a[i];
      LookupFinds(isLong, a, default, v, i);
      LookupFinds(isLong, b, default, v, j);
    } else {
      forall j | 0 <= j < |b|
        ensures b[j].value != v
      {
        assert b[j] in multiset(b) && b[j] in multiset(a);
      }
      LookupFindsNone(isLong, a, default, v);
      LookupFindsNone(isLong, b, default, v);
    }
  }

  lemma SortingKeepsForm(isLong: bool, a: seq<SwitchCase>, b: seq<SwitchCase>)
    requires WellFormed(isLong, a) && SameCases(a, b)
    ensures WellFormed(isLong, b)
  {
    forall j | 0 <= j < |b|
      ensures InRange(isLong, b[j].value)
    {
      assert b[j] in multiset(b) && b[j] in multiset(a);
    }
    forall i, j | 0 <= i < j < |b|
      ensures b[i].value != b[j].value
    {
      TwiceCounts(b, i, j);
      var p, q := TwoPlaces(a, b[i], b[j]);
      assert a[p].value != a[q].value;
    }
  }

  lemma TwiceCounts(b: seq<SwitchCase>, i: nat, j: nat)
    requires i < j < |b|
    ensures multiset(b) >= multiset{b[i], b[j]}
  {
    assert b == b[..i] + [b[i]] + b[i + 1..j] + [b[j]] + b[j + 1..];
  }

  lemma TwoPlaces(a: seq<SwitchCase>, c: SwitchCase, d: SwitchCase) returns (p: nat, q: nat)
    requires multiset(a) >= multiset{c, d}
    ensures p < |a| && q < |a| && p != q && a[p] == c && a[q] == d
  {
    assert c in multiset(a);
    p :| p < |a| && a[p] == c;
    var rest := a[..p] + a[p + 1..];
    assert a == a[..p] + [a[p]] + a[p + 1..];
    assert multiset(a) == multiset(rest) + multiset{c};
    assert d in multiset(rest);
    var k: nat :| k < |rest| && rest[k] == d;
    q := if k < p then k else k + 1;
  }

  /** The number of values from the least case to the greatest, in 64-bit arithmetic. */
  function RangeSize(minVal: int, maxVal: int): int {
    Wrap(true, maxVal - minVal + 1)
  }

  lemma RangeIsExact(minVal: int, maxVal: int)
    requires InRange(true, minVal) && InRange(true, maxVal) && minVal <= maxVal && RangeSize(minVal, maxVal) > 0
    ensures RangeSize(minVal, maxVal) == maxVal - minVal + 1
  {
  }

  /** Few cases: an if-cascade. At least every second value: a jump table. */
  function SelectStrategy(n: nat, rangeSize: int): Strategy {
    if n <= 4 then StrategyLinear
    else if rangeSize > 0 && 2 * n >= rangeSize then StrategyJumpTable
    else StrategyBinary
  }

  ghost predicate IsAnalysis(a: Analysis, cases: seq<SwitchCase>) {
    && Sorted(a.cases) && SameCases(cases, a.cases)
    && (a.cases != [] ==> a.minVal == a.cases[0].value && a.maxVal == a.cases[|a.cases| - 1].value)
    && (a.strategy.StrategyJumpTable? ==> a.cases != [] && RangeSize(a.minVal, a.maxVal) > 0)
  }

  method AnalyzeSwitch(isLong: bool, cases: seq<SwitchCase>, defaultExit: int) returns (a: Analysis)
    ensures a.isLong == isLong && a.default == defaultExit && IsAnalysis(a, cases)
    ensures a.strategy.StrategyLinear? <==> |cases| <= 4
    ensures a.strategy.StrategyJumpTable? <==> |cases| > 4 && 0 < RangeSize(a.minVal, a.maxVal) <= 2 * |cases|
  {
    var sorted := SortCases(cases);
    var minVal, maxVal, rangeSize := 0, 0, 0;
    if |sorted| > 0 {
      minVal := sorted[0].value;
      maxVal := sorted[|sorted| - 1].value;
      rangeSize := RangeSize(minVal, maxVal);
    }
    assert |multiset(sorted)| == |multiset(cases)|;
    a := Analysis(sorted, defaultExit, isLong, SelectStrategy(|sorted|, rangeSize), minVal, maxVal);
  }

  // --- Lowering ---

  function MakeConstant(isLong: bool, value: int): Expr {
    Econst(Wrap(isLong, value))
  }

  function MakeComparison(isLong: bool, cmp: Cmp, value: int): Expr {
    Ecmp(cmp, Scrutinee, MakeConstant(isLong, value))
  }

  lemma ComparisonMeans(isLong: bool, cmp: Cmp, value: int, v: int)
    ensures Eval(isLong, MakeComparison(isLong, cmp, value), v) != 0 <==> cmp.Holds(v, Wrap(isLong, value))
  {
  }

  /** One comparison after the other. */
  method TransformSwitchLinear(a: Analysis) returns (s: Stmt)
    ensures Implements(a.isLong, s, a.cases, a.default)
    ensures forall v :: Comparisons(a.isLong, s, v) <= |a.cases|
  {
    s := Sexit(a.default);
    assert a.cases[|a.cases|..] == [];
    assert forall v :: RunsAs(a.isLong, s, a.cases[|a.cases|..], a.default, v);
    for i := |a.cases| downto 0
      invariant Implements(a.isLong, s, a.cases[i..], a.default)
      invariant forall v :: Comparisons(a.isLong, s, v) <= |a.cases| - i
    {
      var c := a.cases[i];
      ghost var rest := s;
      s := Sifthenelse(MakeComparison(a.isLong, Ceq, c.value), Sexit(c.exit), s);
      assert a.cases[i..][1..] == a.cases[i + 1..];
      forall v | InRange(a.isLong, v)
        ensures RunsAs(a.isLong, s, a.cases[i..], a.default, v)
      {
        assert RunsAs(a.isLong, rest, a.cases[i + 1..], a.default, v);
        ComparisonMeans(a.isLong, Ceq, c.value, v);
      }
    }
    assert a.cases[0..] == a.cases;
  }

  /** Comparisons with the middle of the cases. */
  function TransformBinary(isLong: bool, cases: seq<SwitchCase>, default: int): Stmt {
    if cases == [] then Sexit(default)
    else if |cases| == 1 then
      Sifthenelse(MakeComparison(isLong, Ceq, cases[0].value), Sexit(cases[0].exit), Sexit(default))
    else
      var mid := |cases| / 2;
      Sifthenelse(MakeComparison(isLong, Clt, cases[mid].value),
                  TransformBinary(isLong, cases[..mid], default), TransformBinary(isLong, cases[mid..], default))
  }

  lemma {:induction false} BinaryImplements(isLong: bool, cases: seq<SwitchCase>, default: int, v: int)
    requires WellFormed(isLong, cases) && Sorted(cases) && InRange(isLong, v)
    ensures RunsAs(isLong, TransformBinary(isLong, cases, default), cases, default, v)
    decreases |cases|
  {
    if |cases| >= 2 {
      var mid := |cases| / 2;
      ComparisonMeans(isLong, Clt, cases[mid].value, v);
      BinaryImplements(isLong, cases[..mid], default, v);
      BinaryImplements(isLong, cases[mid..], default, v);
      HalfSuffices(isLong, cases, default, mid, v);
    } else if |cases| == 1 {
      ComparisonMeans(isLong, Ceq, cases[0].value, v);
      assert cases[1..] == [];
    }
  }

  function Power(k: nat): nat {
    if k == 0 then 1 else 2 * Power(k - 1)
  }

  /** A comparison halves the cases. */
  lemma {:induction false} BinaryIsFast(isLong: bool, cases: seq<SwitchCase>, default: int, v: int, k: nat)
    requires |cases| <= Power(k)
    ensures Comparisons(isLong, TransformBinary(isLong, cases, default), v) <= k + 1
    decreases k
  {
    if |cases| >= 2 {
      var mid := |cases| / 2;
      BinaryIsFast(isLong, cases[..mid], default, v, k - 1);
      BinaryIsFast(isLong, cases[mid..], default, v, k - 1);
    }
  }

  /** Values below the middle are found in the first half, the others in the second. */
  lemma HalfSuffices(isLong: bool, cases: seq<SwitchCase>, default: int, mid: nat, v: int)
    requires WellFormed(isLong, cases) && Sorted(cases) && mid < |cases|
    ensures Lookup(isLong, cases, default, v) ==
            Lookup(isLong, if v < cases[mid].value then cases[..mid] else cases[mid..], default, v)
  {
    var half := if v < cases[mid].value then cases[..mid] else cases[mid..];
    if i :| 0 <= i < |cases| && cases[i].value == v {
      LookupFinds(isLong, cases, default, v, i);
      LookupFinds(isLong, half, default, v, if v < cases[mid].value then i else i - mid);
    } else {
      LookupFindsNone(isLong, cases, default, v);
      LookupFindsNone(isLong, half, default, v);
    }
  }

  /** The index of the scrutinee in a table: its distance from the least case. */
  function NormalizedExpr(isLong: bool, minVal: int): Expr {
    if minVal == 0 then Scrutinee else Esub(Scrutinee, MakeConstant(isLong, minVal))
  }

  /** An entry comes from a case, among the first k values. */
  ghost predicate IsEntry(cases: seq<SwitchCase>, minVal: int, k: nat, t: SwitchCase) {
    0 <= t.value < k && SwitchCase(minVal + t.value, t.exit) in cases
  }

  /** A case among the first k values has its entry. */
  ghost predicate HasEntry(table: seq<SwitchCase>, minVal: int, k: nat, c: SwitchCase) {
    c.value - minVal < k ==> SwitchCase(c.value - minVal, c.exit) in table
  }

  /** The table holds exactly the cases from minVal to minVal + k - 1, by their distance. */
  ghost predicate IsTable(table: seq<SwitchCase>, cases: seq<SwitchCase>, minVal: int, k: nat) {
    && (forall t {:trigger IsEntry(cases, minVal, k, t)} | t in table :: IsEntry(cases, minVal, k, t))
    && (forall c {:trigger HasEntry(table, minVal, k, c)} | c in cases :: HasEntry(table, minVal, k, c))
    && Increasing(table)
  }

  ghost predicate Increasing(table: seq<SwitchCase>) {
    forall i, j | 0 <= i < j < |table| :: table[i].value < table[j].value
  }

  /** The value of an entry, which stays in the range of 64 bits. */
  function ActualValue(minVal: int, i: nat, rangeSize: nat): (value: int)
    requires InRange(true, minVal) && InRange(true, minVal + rangeSize - 1) && i < rangeSize
    ensures value == minVal + i
  {
    Wrap(true, minVal + i)
  }

  /** The entries, with the gaps left out. */
  method BuildTable(isLong: bool, cases: seq<SwitchCase>, minVal: int, rangeSize: nat) returns (table: seq<SwitchCase>)
    requires WellFormed(isLong, cases) && forall c | c in cases :: minVal <= c.value
    requires InRange(true, minVal) && InRange(true, minVal + rangeSize - 1)
    ensures IsTable(table, cases, minVal, rangeSize)
  {
    var caseMap := CaseMap(cases);
    table := [];
    NoEntries(cases, minVal);
    for i := 0 to rangeSize
      invariant IsTable(table, cases, minVal, i)
    {
      TableStep(isLong, table, cases, caseMap, minVal, i);
      ghost var next := NextTable(table, caseMap, minVal, i);
      var actualValue := ActualValue(minVal, i, rangeSize);
      if actualValue in caseMap {
        table := table + [SwitchCase(i, caseMap[actualValue])];
      }
      assert table == next;
    }
  }

  lemma NoEntries(cases: seq<SwitchCase>, minVal: int)
    requires forall c | c in cases :: minVal <= c.value
    ensures IsTable([], cases, minVal, 0)
  {
  }

  lemma InRangeBoth(isLong: bool, n: int)
    requires InRange(isLong, n)
    ensures InRange(true, n)
  {
  }

  lemma BoundedBySorted(a: Analysis)
    requires a.cases != [] && Sorted(a.cases)
    requires a.minVal == a.cases[0].value && a.maxVal == a.cases[|a.cases| - 1].value
    ensures a.minVal <= a.maxVal && forall c | c in a.cases :: a.minVal <= c.value <= a.maxVal
  {
  }

  /** A switch over the distances from the least case. */
  method TransformSwitchJumpTable(a: Analysis) returns (s: Stmt)
    requires a.cases != [] && Sorted(a.cases) && WellFormed(a.isLong, a.cases)
    requires a.minVal == a.cases[0].value && a.maxVal == a.cases[|a.cases| - 1].value && RangeSize(a.minVal, a.maxVal) > 0
    ensures Implements(a.isLong, s, a.cases, a.default) && s.Sswitch?
  {
    var rangeSize := RangeSize(a.minVal, a.maxVal);
    BoundedBySorted(a);
    InRangeBoth(a.isLong, a.minVal);
    InRangeBoth(a.isLong, a.maxVal);
    RangeIsExact(a.minVal, a.maxVal);
    var table := BuildTable(a.isLong, a.cases, a.minVal, rangeSize);
    s := Sswitch(NormalizedExpr(a.isLong, a.minVal), table, a.default);
    forall v | InRange(a.isLong, v)
      ensures RunsAs(a.isLong, s, a.cases, a.default, v)
    {
      TableImplements(a.isLong, table, a.cases, a.default, a.minVal, rangeSize, v);
    }
  }

  /** The exits by value; a later case would replace an earlier one. */
  method CaseMap(cases: seq<SwitchCase>) returns (caseMap: map<int, int>)
    ensures forall x | x in caseMap :: SwitchCase(x, caseMap[x]) in cases
    ensures forall c | c in cases :: c.value in caseMap
  {
    caseMap := map[];
    for i := 0 to |cases|
      invariant forall x | x in caseMap :: SwitchCase(x, caseMap[x]) in cases
      invariant forall k | 0 <= k < i :: cases[k].value in caseMap
    {
      var c := cases[i];
      assert SwitchCase(c.value, c.exit) == c;
      caseMap := caseMap[c.value := c.exit];
    }
  }

  /** With distinct values, the map has the exit of every case. */
  lemma MapHasExit(isLong: bool, cases: seq<SwitchCase>, caseMap: map<int, int>, c: SwitchCase)
    requires WellFormed(isLong, cases) && c in cases && c.value in caseMap
    requires forall x | x in caseMap :: SwitchCase(x, caseMap[x]) in cases
    ensures caseMap[c.value] == c.exit
  {
    var d := SwitchCase(c.value, caseMap[c.value]);
    var i :| 0 <= i < |cases| && cases[i] == c;
    var j :| 0 <= j < |cases| && cases[j] == d;
    assert i == j;
  }

  /** The next table: with an entry for minVal + i, if that has a case. */
  function NextTable(table: seq<SwitchCase>, caseMap: map<int, int>, minVal: int, i: nat): seq<SwitchCase> {
    if minVal + i in caseMap then table + [SwitchCase(i, caseMap[minVal + i])] else table
  }

  lemma EntriesStay(table: seq<SwitchCase>, cases: seq<SwitchCase>, caseMap: map<int, int>, minVal: int, i: nat, t: SwitchCase)
    requires IsTable(table, cases, minVal, i) && forall x | x in caseMap :: SwitchCase(x, caseMap[x]) in cases
    requires t in NextTable(table, caseMap, minVal, i)
    ensures IsEntry(cases, minVal, i + 1, t)
  {
    if t in table {
      assert IsEntry(cases, minVal, i, t);
    }
  }

  lemma CasesEntered(isLong: bool, table: seq<SwitchCase>, cases: seq<SwitchCase>, caseMap: map<int, int>, minVal: int, i: nat, c: SwitchCase)
    requires WellFormed(isLong, cases) && IsTable(table, cases, minVal, i) && c in cases && c.value in caseMap
    requires forall x | x in caseMap :: SwitchCase(x, caseMap[x]) in cases
    ensures HasEntry(NextTable(table, caseMap, minVal, i), minVal, i + 1, c)
  {
    assert HasEntry(table, minVal, i, c);
    if c.value == minVal + i {
      MapHasExit(isLong, cases, caseMap, c);
    }
  }

  /** Whether the value minVal + i has a case decides the next entry. */
  lemma TableStep(isLong: bool, table: seq<SwitchCase>, cases: seq<SwitchCase>, caseMap: map<int, int>, minVal: int, i: nat)
    requires WellFormed(isLong, cases) && IsTable(table, cases, minVal, i)
    requires forall x | x in caseMap :: SwitchCase(x, caseMap[x]) in cases
    requires forall c | c in cases :: c.value in caseMap
    ensures IsTable(NextTable(table, caseMap, minVal, i), cases, minVal, i + 1)
  {
    forall t | t in NextTable(table, caseMap, minVal, i)
      ensures IsEntry(cases, minVal, i + 1, t)
    {
      EntriesStay(table, cases, caseMap, minVal, i, t);
    }
    forall c | c in cases
      ensures HasEntry(NextTable(table, caseMap, minVal, i), minVal, i + 1, c)
    {
      CasesEntered(isLong, table, cases, caseMap, minVal, i, c);
    }
    StaysIncreasing(table, cases, caseMap, minVal, i);
  }

  lemma StaysIncreasing(table: seq<SwitchCase>, cases: seq<SwitchCase>, caseMap: map<int, int>, minVal: int, i: nat)
    requires IsTable(table, cases, minVal, i)
    ensures Increasing(NextTable(table, caseMap, minVal, i))
  {
    forall j | 0 <= j < |table|
      ensures table[j].value < i
    {
      assert table[j] in table && IsEntry(cases, minVal, i, table[j]);
    }
  }

  /** The entry for a case, and no other, has the index of the scrutinee. */
  lemma IndexMatches(isLong: bool, minVal: int, d: int, v: int)
    requires InRange(isLong, minVal) && InRange(isLong, v) && InRange(isLong, minVal + d)
    ensures Wrap(isLong, d) == Eval(isLong, NormalizedExpr(isLong, minVal), v) <==> v == minVal + d
  {
    var m := 2 * HalfRange(isLong);
    WrapEqual(isLong, d, v - minVal);
    WrapEqual(isLong, minVal + d, v);
    assert d - (v - minVal) == minVal + d - v;
  }

  lemma TableImplements(isLong: bool, table: seq<SwitchCase>, cases: seq<SwitchCase>, default: int, minVal: int, k: nat, v: int)
    requires WellFormed(isLong, cases) && IsTable(table, cases, minVal, k) && InRange(isLong, v) && InRange(isLong, minVal)
    requires forall c | c in cases :: minVal <= c.value < minVal + k
    ensures RunsAs(isLong, Sswitch(NormalizedExpr(isLong, minVal), table, default), cases, default, v)
  {
    var index := Eval(isLong, NormalizedExpr(isLong, minVal), v);
    forall t | t in table
      ensures Wrap(isLong, t.value) == index <==> v == minVal + t.value
    {
      EntryMatches(isLong, table, cases, minVal, k, t, v);
    }
    if i :| 0 <= i < |cases| && cases[i].value == v {
      FoundInTable(isLong, table, cases, default, minVal, k, index, i);
      LookupFinds(isLong, cases, default, v, i);
    } else {
      forall t | t in table
        ensures v != minVal + t.value
      {
        assert IsEntry(cases, minVal, k, t);
      }
      LookupFindsNone(isLong, cases, default, v);
      LookupFindsNone(isLong, table, default, index);
    }
  }

  lemma EntryMatches(isLong: bool, table: seq<SwitchCase>, cases: seq<SwitchCase>, minVal: int, k: nat, t: SwitchCase, v: int)
    requires WellFormed(isLong, cases) && IsTable(table, cases, minVal, k) && t in table && InRange(isLong, v) && InRange(isLong, minVal)
    ensures Wrap(isLong, t.value) == Eval(isLong, NormalizedExpr(isLong, minVal), v) <==> v == minVal + t.value
  {
    assert IsEntry(cases, minVal, k, t);
    IndexMatches(isLong, minVal, t.value, v);
  }

  lemma FoundInTable(isLong: bool, table: seq<SwitchCase>, cases: seq<SwitchCase>, default: int, minVal: int, k: nat, index: int, i: nat)
    requires IsTable(table, cases, minVal, k) && i < |cases| && minVal <= cases[i].value < minVal + k
    requires forall t | t in table :: Wrap(isLong, t.value) == index <==> cases[i].value == minVal + t.value
    ensures Lookup(isLong, table, default, index) == cases[i].exit
  {
    var t := SwitchCase(cases[i].value - minVal, cases[i].exit);
    assert cases[i] in cases && HasEntry(table, minVal, k, cases[i]);
    var j :| 0 <= j < |table| && table[j] == t;
    forall m | 0 <= m < j
      ensures Wrap(isLong, table[m].value) != index
    {
      assert table[m] in table && table[m].value < table[j].value;
    }
    LookupFinds(isLong, table, default, index, j);
  }

  // --- The transformation ---

  /** The bodies of cases, as far as they matter here. */
  datatype Body = Exit(n: int) | Skip | Seq(first: Body, second: Body)

  datatype SourceCase = SourceCase(value: int, body: Body)

  /** How a body ends: with an exit, or not. */
  function Outcome(b: Body): Option<int> {
    match b
    case Exit(n) => Some(n)
    case Skip => None
    case Seq(first, second) => if Outcome(first).Some? then Outcome(first) else Outcome(second)
  }

  /** The exit at the end of a body, 0 if there is none. */
  function ExtractExitDepth(b: Body): int {
    match b
    case Exit(n) => n
    case Seq(_, second) => ExtractExitDepth(second)
    case Skip => 0
  }

  function ExtractCases(cases: seq<SourceCase>): (r: seq<SwitchCase>)
    ensures |r| == |cases|
  {
    seq(|cases|, i requires 0 <= i < |cases| => SwitchCase(cases[i].value, ExtractExitDepth(cases[i].body)))
  }

  /** How the source switch ends. */
  function SourceOutcome(isLong: bool, cases: seq<SourceCase>, default: int, v: int): Option<int> {
    if cases == [] then Some(default)
    else if Wrap(isLong, cases[0].value) == v then Outcome(cases[0].body)
    else SourceOutcome(isLong, cases[1..], default, v)
  }

  /** Case values do not repeat and fit the scrutinee. */
  ghost predicate ValuesOk(isLong: bool, cases: seq<SourceCase>) {
    WellFormed(isLong, ExtractCases(cases))
  }

  /** The strategy that suits the cases. */
  method TransformSwitch(isLong: bool, cases: seq<SourceCase>, defaultExit: int) returns (s: Stmt)
    requires ValuesOk(isLong, cases)
    ensures Implements(isLong, s, ExtractCases(cases), defaultExit)
    ensures forall v, k: nat | |cases| <= Power(k) :: Comparisons(isLong, s, v) <= if |cases| <= 4 then |cases| else k + 1
  {
    var extracted := ExtractCases(cases);
    var a := AnalyzeSwitch(isLong, extracted, defaultExit);
    SortingKeepsForm(isLong, extracted, a.cases);
    match a.strategy {
      case StrategyLinear => s := TransformSwitchLinear(a);
      case StrategyBinary => s := TransformBinary(a.isLong, a.cases, a.default);
      case StrategyJumpTable => s := TransformSwitchJumpTable(a);
    }
    forall v | InRange(isLong, v)
      ensures RunsAs(isLong, s, extracted, defaultExit, v)
    {
      if a.strategy.StrategyBinary? {
        BinaryImplements(isLong, a.cases, defaultExit, v);
      }
      assert RunsAs(isLong, s, a.cases, defaultExit, v);
      SortingKeepsMeaning(isLong, extracted, a.cases, defaultExit, v);
    }
    assert |multiset(extracted)| == |multiset(a.cases)|;
    forall v, k: nat | |cases| <= Power(k)
      ensures Comparisons(isLong, s, v) <= if |cases| <= 4 then |cases| else k + 1
    {
      if a.strategy.StrategyBinary? { BinaryIsFast(isLong, a.cases, defaultExit, v, k); }
    }
  }

  /** The lowered switch ends as the source switch does for every scrutinee exactly if every body ends with the exit
      that is extracted from it. */
  lemma SwitchPreservesMeaningIff(isLong: bool, cases: seq<SourceCase>, default: int, s: Stmt)
    requires ValuesOk(isLong, cases) && Implements(isLong, s, ExtractCases(cases), default)
    ensures (forall v | InRange(isLong, v) :: SourceOutcome(isLong, cases, default, v) == Some(Run(isLong, s, v))) <==>
            (forall i | 0 <= i < |cases| :: Outcome(cases[i].body) == Some(ExtractExitDepth(cases[i].body)))
  {
    forall v | InRange(isLong, v)
      ensures Run(isLong, s, v) == Lookup(isLong, ExtractCases(cases), default, v)
    {
      assert RunsAs(isLong, s, ExtractCases(cases), default, v);
    }
    if forall i | 0 <= i < |cases| :: Outcome(cases[i].body) == Some(ExtractExitDepth(cases[i].body)) {
      forall v | InRange(isLong, v)
        ensures SourceOutcome(isLong, cases, default, v) == Some(Run(isLong, s, v))
      {
        ExitsOnly(isLong, cases, default, v);
      }
    } else {
      var i :| 0 <= i < |cases| && Outcome(cases[i].body) != Some(ExtractExitDepth(cases[i].body));
      var v := ExtractCases(cases)[i].value;
      LookupFinds(isLong, ExtractCases(cases), default, v, i);
      SourceFinds(isLong, cases, default, i);
      assert InRange(isLong, v);
    }
  }

  lemma {:induction false} ExitsOnly(isLong: bool, cases: seq<SourceCase>, default: int, v: int)
    requires forall i | 0 <= i < |cases| :: Outcome(cases[i].body) == Some(ExtractExitDepth(cases[i].body))
    ensures SourceOutcome(isLong, cases, default, v) == Some(Lookup(isLong, ExtractCases(cases), default, v))
    decreases |cases|
  {
    if cases == [] {
    } else {
      ExitsOnly(isLong, cases[1..], default, v);
      assert ExtractCases(cases)[1..] == ExtractCases(cases[1..]);
    }
  }

  lemma {:induction false} SourceFinds(isLong: bool, cases: seq<SourceCase>, default: int, i: nat)
    requires ValuesOk(isLong, cases) && i < |cases|
    ensures SourceOutcome(isLong, cases, default, cases[i].value) == Outcome(cases[i].body)
    decreases i
  {
    var all := ExtractCases(cases);
    assert all[i].value == cases[i].value && all[0].value == cases[0].value;
    if i > 0 {
      var rest := ExtractCases(cases[1..]);
      assert forall k | 0 <= k < |rest| :: rest[k] == all[k + 1];
      SourceFinds(isLong, cases[1..], default, i - 1);
    }
  }
}
