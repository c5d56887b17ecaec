/** Sizes, alignments and field offsets of C types (pkg/cshmgen/expr.go). */
module Layout {
  import opened Values

  datatype IntSize = I8 | I16 | I32 | IBool

  datatype CType =
    | Tvoid
    | Tint(size: IntSize)
    | Tlong
    | Tfloat(single: bool)
    | Tpointer
    | Tarray(elem: CType, count: int)  // -1: incomplete
    | Tstruct(fields: seq<Field>)
    | Tunion(fields: seq<Field>)
    | Tfunction

  datatype Field = Field(name: string, typ: CType)

  // --- What is computed ---

  function AlignUp(n: nat, align: nat): (r: nat)
  {
    if align == 0 then n else (n + align - 1) / align * align
  }

  predicate IsAlignment(a: nat) {
    a == 1 || a == 2 || a == 4 || a == 8
  }

  function AlignOf(t: CType): (a: nat)
    ensures IsAlignment(a)
    decreases t
  {
    match t
    case Tvoid => 1
    case Tint(size) => (match size case I8 => 1 case I16 => 2 case I32 => 4 case IBool => 4)
    case Tlong => 8
    case Tfloat(single) => if single then 4 else 8
    case Tpointer => 8
    case Tarray(elem, _) => AlignOf(elem)
    case Tstruct(fields) => MaxAlign(fields)
    case Tunion(fields) => MaxAlign(fields)
    case Tfunction => 4
  }

  function MaxAlign(fields: seq<Field>): (a: nat)
    ensures IsAlignment(a)
    decreases fields
  {
    if fields == [] then 1
    else
      var last := |fields| - 1;
      assert fields[last].typ < fields[last];
      var a, before := AlignOf(fields[last].typ), MaxAlign(fields[..last]);
      if a > before then a else before
  }

  function SizeOf(t: CType): nat
    decreases t
  {
    match t
    case Tvoid => 1
    case Tint(size) => (match size case I8 => 1 case I16 => 2 case I32 => 4 case IBool => 4)
    case Tlong => 8
    case Tfloat(single) => if single then 4 else 8
    case Tpointer => 8
    case Tarray(elem, count) => if count < 0 then 0 else Times(count, SizeOf(elem))
    case Tstruct(fields) => AlignUp(End(fields), MaxAlign(fields))
    case Tunion(fields) => AlignUp(MaxSize(fields), MaxAlign(fields))
    case Tfunction => 4
  }

  function Times(n: nat, size: nat): nat {
    n * size
  }

  /** Where fields one after the other end. */
  function End(fields: seq<Field>): nat
    decreases fields
  {
    if fields == [] then 0
    else
      var last := |fields| - 1;
      assert fields[last].typ < fields[last];
      AlignUp(End(fields[..last]), AlignOf(fields[last].typ)) + SizeOf(fields[last].typ)
  }

  function MaxSize(fields: seq<Field>): nat
    decreases fields
  {
    if fields == [] then 0
    else
      var last := |fields| - 1;
      assert fields[last].typ < fields[last];
      var n, before := SizeOf(fields[last].typ), MaxSize(fields[..last]);
      if n > before then n else before
  }

  /** Where field k starts. */
  function OffsetAt(fields: seq<Field>, k: nat): nat
    requires k < |fields|
  {
    AlignUp(End(fields[..k]), AlignOf(fields[k].typ))
  }

  /** The first field of a name. */
  function Find(fields: seq<Field>, name: string): (k: Option<nat>)
    ensures k.Some? ==> k.value < |fields| && fields[k.value].name == name
    ensures k.Some? ==> forall i | 0 <= i < k.value :: fields[i].name != name
    ensures k.None? ==> forall i | 0 <= i < |fields| :: fields[i].name != name
  {
    if fields == [] then None
    else if fields[0].name == name then Some(0)
    else
      match Find(fields[1..], name)
      case Some(k) => Some(k + 1)
      case None => None
  }

  /** 0 where there is no such field, or no struct. */
  function FieldOffset(t: CType, name: string): nat {
    if t.Tstruct? && Find(t.fields, name).Some? then OffsetAt(t.fields, Find(t.fields, name).value) else 0
  }

  // --- How it is computed ---

  method SizeofType(t: CType) returns (n: nat)
    ensures n == SizeOf(t)
    decreases t
  {
    match t {
      case Tvoid => n := 1;
      case Tint(size) => n := match size case I8 => 1 case I16 => 2 case I32 => 4 case IBool => 4;
      case Tlong => n := 8;
      case Tfloat(single) => n := if single then 4 else 8;
      case Tpointer => n := 8;
      case Tarray(elem, count) =>
        if count < 0 {
          return 0;
        }
        var size := SizeofType(elem);
        n := Times(count, size);
      case Tstruct(fields) => n := SizeofStruct(fields);
      case Tunion(fields) => n := SizeofUnion(fields);
      case Tfunction => n := 4;
    }
  }

  method AlignofType(t: CType) returns (a: nat)
    ensures a == AlignOf(t)
    decreases t
  {
    match t {
      case Tvoid => a := 1;
      case Tint(size) => a := match size case I8 => 1 case I16 => 2 case I32 => 4 case IBool => 4;
      case Tlong => a := 8;
      case Tfloat(single) => a := if single then 4 else 8;
      case Tpointer => a := 8;
      case Tarray(elem, _) => a := AlignofType(elem);
      case Tstruct(fields) => a := AlignofFields(fields);
      case Tunion(fields) => a := AlignofFields(fields);
      case Tfunction => a := 4;
    }
  }

  /** The alignment of a struct or union. */
  method AlignofFields(fields: seq<Field>) returns (maxAlign: nat)
    ensures maxAlign == MaxAlign(fields)
    decreases fields
  {
    maxAlign := 1;
    for i := 0 to |fields|
      invariant maxAlign == MaxAlign(fields[..i])
    {
      var f := fields[i];
      assert f in fields && f.typ < f;
      var a := AlignofType(f.typ);
      assert fields[..i + 1][..i] == fields[..i];
      if a > maxAlign {
        maxAlign := a;
      }
    }
    assert fields[..|fields|] == fields;
  }

  method SizeofStruct(fields: seq<Field>) returns (n: nat)
    ensures n == AlignUp(End(fields), MaxAlign(fields))
    decreases fields
  {
    var size: nat := 0;
    for i := 0 to |fields|
      invariant size == End(fields[..i])
    {
      var f := fields[i];
      assert f in fields && f.typ < f;
      assert fields[..i + 1][..i] == fields[..i];
      var align := AlignofType(f.typ);
      size := AlignUp(size, align);
      var more := SizeofType(f.typ);
      size := size + more;
    }
    assert fields[..|fields|] == fields;
    var structAlign := AlignofFields(fields);
    n := AlignUp(size, structAlign);
  }

  method SizeofUnion(fields: seq<Field>) returns (n: nat)
    ensures n == AlignUp(MaxSize(fields), MaxAlign(fields))
    decreases fields
  {
    var maxSize: nat := 0;
    for i := 0 to |fields|
      invariant maxSize == MaxSize(fields[..i])
    {
      var f := fields[i];
      assert f in fields && f.typ < f;
      assert fields[..i + 1][..i] == fields[..i];
      var size := SizeofType(f.typ);
      if size > maxSize {
        maxSize := size;
      }
    }
    assert fields[..|fields|] == fields;
    var unionAlign := AlignofFields(fields);
    n := AlignUp(maxSize, unionAlign);
  }

  method ComputeFieldOffset(t: CType, name: string) returns (offset: nat)
    ensures offset == FieldOffset(t, name)
  {
    if !t.Tstruct? {
      return 0;
    }
    offset := 0;
    for i := 0 to |t.fields|
      invariant offset == End(t.fields[..i])
      invariant forall k | 0 <= k < i :: t.fields[k].name != name
    {
      var f := t.fields[i];
      assert t.fields[..i + 1][..i] == t.fields[..i];
      var align := AlignofType(f.typ);
      offset := AlignUp(offset, align);
      if f.name == name {
        return;
      }
      var size := SizeofType(f.typ);
      offset := offset + size;
    }
    offset := 0;
  }

  // --- Sound layout ---

  lemma AlignUpIs(n: nat, a: nat)
    requires IsAlignment(a)
    ensures AlignUp(n, a) % a == 0 && n <= AlignUp(n, a) < n + a
  {
  }

  /** A smaller alignment divides a greater one. */
  lemma Divides(a: nat, b: nat, n: nat)
    requires IsAlignment(a) && IsAlignment(b) && a <= b && n % b == 0
    ensures n % a == 0
  {
    if b == 8 {
      DividesEight(a, n);
    } else if b == 4 {
      DividesFour(a, n);
    } else if b == 2 && a == 1 {
      assert n % 1 == 0;
    }
  }

  lemma DividesEight(a: nat, n: nat)
    requires IsAlignment(a) && n % 8 == 0
    ensures n % a == 0
  {
    if a == 4 {
      assert n == 4 * (2 * (n / 8));
    } else if a == 2 {
      assert n == 2 * (4 * (n / 8));
    } else if a == 1 {
      assert n % 1 == 0;
    }
  }

  lemma DividesFour(a: nat, n: nat)
    requires IsAlignment(a) && a <= 4 && n % 4 == 0
    ensures n % a == 0
  {
    if a == 2 {
      assert n == 2 * (2 * (n / 4));
    } else if a == 1 {
      assert n % 1 == 0;
    }
  }

  lemma Regroup(n: nat, a: nat, q: nat)
    ensures n * (a * q) == a * (n * q)
  {
  }

  lemma MultipleIs(a: nat, x: nat)
    requires IsAlignment(a)
    ensures (a * x) % a == 0
  {
    if a == 8 {
      assert (8 * x) % 8 == 0;
    } else if a == 4 {
      assert (4 * x) % 4 == 0;
    } else if a == 2 {
      assert (2 * x) % 2 == 0;
    }
  }

  lemma TimesIs(n: nat, size: nat, a: nat)
    requires IsAlignment(a) && size % a == 0
    ensures Times(n, size) % a == 0
  {
    var q := size / a;
    assert size == a * q;
    Regroup(n, a, q);
    MultipleIs(a, n * q);
  }

  /** The size of a type is a multiple of its alignment, so that arrays of it are aligned. */
  lemma {:induction false} SizeIsAligned(t: CType)
    ensures SizeOf(t) % AlignOf(t) == 0
    decreases t
  {
    match t
    case Tarray(elem, count) =>
      SizeIsAligned(elem);
      if count >= 0 { TimesIs(count, SizeOf(elem), AlignOf(elem)); }
    case Tstruct(fields) => AlignUpIs(End(fields), MaxAlign(fields));
    case Tunion(fields) => AlignUpIs(MaxSize(fields), MaxAlign(fields));
    case _ =>
  }

  lemma {:induction false} FieldIsSmaller(fields: seq<Field>, k: nat)
    requires k < |fields|
    ensures AlignOf(fields[k].typ) <= MaxAlign(fields) && SizeOf(fields[k].typ) <= MaxSize(fields)
    decreases |fields|
  {
    var last := |fields| - 1;
    if k < last {
      FieldIsSmaller(fields[..last], k);
    }
  }

  /** A field ends before the fields after it start, and before the end. */
  lemma {:induction false} FieldEnds(fields: seq<Field>, k: nat)
    requires k < |fields|
    ensures OffsetAt(fields, k) + SizeOf(fields[k].typ) <= End(fields)
    decreases |fields|
  {
    var last := |fields| - 1;
    if k < last {
      FieldEnds(fields[..last], k);
      assert fields[..last][..k] == fields[..k];
      AlignUpIs(End(fields[..last]), AlignOf(fields[last].typ));
    }
  }

  lemma {:induction false} FieldsApart(fields: seq<Field>, i: nat, j: nat)
    requires i < j < |fields|
    ensures OffsetAt(fields, i) + SizeOf(fields[i].typ) <= OffsetAt(fields, j)
  {
    FieldEnds(fields[..j], i);
    assert fields[..j][..i] == fields[..i];
    AlignUpIs(End(fields[..j]), AlignOf(fields[j].typ));
  }

  // --- Members of members ---

  /** The type of a member of a struct or union. */
  function MemberType(t: CType, name: string): Option<CType> {
    if !t.Tstruct? && !t.Tunion? then None
    else
      match Find(t.fields, name)
      case Some(k) => Some(t.fields[k].typ)
      case None => None
  }

  /** The type that a chain of member names leads to, if it exists. */
  function TypeAt(t: CType, path: seq<string>): Option<CType> {
    if path == [] then Some(t)
    else
      match MemberType(t, path[0])
      case Some(u) => TypeAt(u, path[1..])
      case None => None
  }

  /** The sum of the offsets along the chain. */
  function PathOffset(t: CType, path: seq<string>): nat {
    if path == [] || MemberType(t, path[0]).None? then 0
    else FieldOffset(t, path[0]) + PathOffset(MemberType(t, path[0]).value, path[1..])
  }

  /** A member lies in its struct or union, and is aligned if that is. */
  lemma MemberIsInside(t: CType, name: string)
    requires MemberType(t, name).Some?
    ensures var u := MemberType(t, name).value;
      && FieldOffset(t, name) + SizeOf(u) <= SizeOf(t)
      && FieldOffset(t, name) % AlignOf(u) == 0 && AlignOf(u) <= AlignOf(t)
  {
    var k := Find(t.fields, name).value;
    FieldIsSmaller(t.fields, k);
    if t.Tstruct? {
      FieldEnds(t.fields, k);
      AlignUpIs(End(t.fields), MaxAlign(t.fields));
      AlignUpIs(End(t.fields[..k]), AlignOf(t.fields[k].typ));
    } else {
      AlignUpIs(MaxSize(t.fields), MaxAlign(t.fields));
    }
  }

  lemma SumIsAligned(m: nat, n: nat, a: nat)
    requires IsAlignment(a) && m % a == 0 && n % a == 0
    ensures (m + n) % a == 0
  {
  }

  lemma MemberIsAligned(t: CType, name: string, base: nat)
    requires MemberType(t, name).Some? && base % AlignOf(t) == 0
    ensures (base + FieldOffset(t, name)) % AlignOf(MemberType(t, name).value) == 0
    ensures FieldOffset(t, name) + SizeOf(MemberType(t, name).value) <= SizeOf(t)
  {
    var a := AlignOf(MemberType(t, name).value);
    MemberIsInside(t, name);
    Divides(a, AlignOf(t), base);
    SumIsAligned(base, FieldOffset(t, name), a);
  }

  /** What any chain of members leads to lies inside the whole, and is aligned if that is. */
  lemma {:induction false} ChainIsInside(t: CType, path: seq<string>, base: nat)
    requires TypeAt(t, path).Some? && base % AlignOf(t) == 0
    ensures var u := TypeAt(t, path).value;
      && PathOffset(t, path) + SizeOf(u) <= SizeOf(t)
      && (base + PathOffset(t, path)) % AlignOf(u) == 0
    decreases |path|
  {
    if path == [] {
    } else {
      var u := MemberType(t, path[0]).value;
      var ofs, more := FieldOffset(t, path[0]), PathOffset(u, path[1..]);
      ChainUnfolds(t, path);
      MemberIsAligned(t, path[0], base);
      ChainIsInside(u, path[1..], base + ofs);
      assert base + (ofs + more) == base + ofs + more;
    }
  }

  lemma ChainUnfolds(t: CType, path: seq<string>)
    requires path != [] && MemberType(t, path[0]).Some?
    ensures var u := MemberType(t, path[0]).value;
      && PathOffset(t, path) == FieldOffset(t, path[0]) + PathOffset(u, path[1..])
      && TypeAt(t, path) == TypeAt(u, path[1..])
  {
  }

  ghost predicate DisjointRanges(a: nat, n: nat, b: nat, m: nat) {
    a + n <= b || b + m <= a
  }

  /** Chains that part at a struct lead to disjoint places. */
  lemma {:induction false} ChainsApart(t: CType, p: seq<string>, q: seq<string>, k: nat)
    requires TypeAt(t, p).Some? && TypeAt(t, q).Some? && k < |p| && k < |q|
    requires p[..k] == q[..k] && p[k] != q[k] && TypeAt(t, p[..k]).Some? && TypeAt(t, p[..k]).value.Tstruct?
    ensures DisjointRanges(PathOffset(t, p), SizeOf(TypeAt(t, p).value), PathOffset(t, q), SizeOf(TypeAt(t, q).value))
    decreases k
  {
    if k == 0 {
      ApartHere(t, p, q);
    } else {
      assert p[0] == p[..k][0] == q[..k][0] == q[0];
      assert p[1..][..k - 1] == p[..k][1..] && q[1..][..k - 1] == q[..k][1..];
      ChainsApart(MemberType(t, p[0]).value, p[1..], q[1..], k - 1);
    }
  }

  lemma ApartHere(t: CType, p: seq<string>, q: seq<string>)
    requires TypeAt(t, p).Some? && TypeAt(t, q).Some? && p != [] && q != [] && p[0] != q[0] && t.Tstruct?
    ensures DisjointRanges(PathOffset(t, p), SizeOf(TypeAt(t, p).value), PathOffset(t, q), SizeOf(TypeAt(t, q).value))
  {
    var i, j := Find(t.fields, p[0]).value, Find(t.fields, q[0]).value;
    ChainIsInside(t.fields[i].typ, p[1..], 0);
    ChainIsInside(t.fields[j].typ, q[1..], 0);
    if i < j {
      FieldsApart(t.fields, i, j);
    } else {
      FieldsApart(t.fields, j, i);
    }
  }
}
