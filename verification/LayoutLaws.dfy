/** What C and the procedure call standard ask of sizes, alignments and offsets (section 6.7.2.1 of ISO/IEC 9899:2011),
    stated without computing them, and that the layout is the tightest one that meets it. */
module LayoutLaws {
  import opened Values
  import opened Layout

  ghost predicate IsLeastMultiple(m: nat, a: nat, low: nat)
    requires a > 0
  {
    m % a == 0 && low <= m && forall x: nat | x % a == 0 && low <= x :: m <= x
  }

  lemma RoundedIsLeast(n: nat, a: nat)
    requires IsAlignment(a)
    ensures IsLeastMultiple(AlignUp(n, a), a, n)
  {
    AlignUpIs(n, a);
    forall x: nat | x % a == 0 && n <= x
      ensures AlignUp(n, a) <= x
    {
      MultiplesApart(AlignUp(n, a), x, a);
    }
  }

  lemma MultiplesApart(m: nat, x: nat, a: nat)
    requires IsAlignment(a) && m % a == 0 && x % a == 0
    ensures m <= x || x + a <= m
  {
  }

  // --- Types that are not made of others ---

  /** Their sizes, which are also their alignments. */
  lemma BasicTypes()
    ensures SizeOf(Tvoid) == AlignOf(Tvoid) == 1
    ensures SizeOf(Tint(I8)) == AlignOf(Tint(I8)) == 1 && SizeOf(Tint(I16)) == AlignOf(Tint(I16)) == 2
    ensures SizeOf(Tint(I32)) == AlignOf(Tint(I32)) == 4 && SizeOf(Tint(IBool)) == AlignOf(Tint(IBool)) == 4
    ensures SizeOf(Tlong) == AlignOf(Tlong) == 8 && SizeOf(Tpointer) == AlignOf(Tpointer) == 8
    ensures SizeOf(Tfloat(true)) == AlignOf(Tfloat(true)) == 4 && SizeOf(Tfloat(false)) == AlignOf(Tfloat(false)) == 8
    ensures SizeOf(Tfunction) == AlignOf(Tfunction) == 4
  {
  }

  /** An array has the alignment of its elements, and as many times their size; an incomplete one has none. */
  lemma ArrayType(elem: CType, count: int)
    ensures AlignOf(Tarray(elem, count)) == AlignOf(elem)
    ensures SizeOf(Tarray(elem, count)) == if count < 0 then 0 else count * SizeOf(elem)
  {
  }

  // --- Structs ---

  /** The alignment is that of the most aligned member. */
  lemma {:induction false} AlignmentIsGreatest(fields: seq<Field>)
    ensures fields == [] ==> MaxAlign(fields) == 1
    ensures forall k | 0 <= k < |fields| :: AlignOf(fields[k].typ) <= MaxAlign(fields)
    ensures fields != [] ==> exists k | 0 <= k < |fields| :: AlignOf(fields[k].typ) == MaxAlign(fields)
    decreases |fields|
  {
    if fields != [] {
      var last := |fields| - 1;
      AlignmentIsGreatest(fields[..last]);
      if AlignOf(fields[last].typ) <= MaxAlign(fields[..last]) {
        if last > 0 {
          var k :| 0 <= k < last && AlignOf(fields[..last][k].typ) == MaxAlign(fields[..last]);
          assert AlignOf(fields[k].typ) == MaxAlign(fields);
        }
      }
      assert last == 0 ==> AlignOf(fields[0].typ) == MaxAlign(fields);
    }
  }

  /** The first member is at the start. */
  lemma FirstIsAtStart(fields: seq<Field>)
    requires fields != []
    ensures OffsetAt(fields, 0) == 0
  {
    assert fields[..0] == [];
    RoundedIsLeast(0, AlignOf(fields[0].typ));
  }

  /** Every other is as near behind the one before as its alignment lets it. */
  lemma NextIsNear(fields: seq<Field>, k: nat)
    requires k + 1 < |fields|
    ensures IsLeastMultiple(OffsetAt(fields, k + 1), AlignOf(fields[k + 1].typ), OffsetAt(fields, k) + SizeOf(fields[k].typ))
  {
    assert fields[..k + 1][..k] == fields[..k];
    RoundedIsLeast(End(fields[..k + 1]), AlignOf(fields[k + 1].typ));
  }

  /** And the struct ends as near behind the last one as its alignment lets it. */
  lemma StructIsTight(fields: seq<Field>)
    ensures fields == [] ==> SizeOf(Tstruct(fields)) == 0
    ensures fields != [] ==>
      IsLeastMultiple(SizeOf(Tstruct(fields)), AlignOf(Tstruct(fields)),
                      OffsetAt(fields, |fields| - 1) + SizeOf(fields[|fields| - 1].typ))
  {
    RoundedIsLeast(End(fields), MaxAlign(fields));
  }

  /** Members in order, aligned and without overlap, in a struct of some size. */
  ghost predicate IsPlacement(fields: seq<Field>, offsets: seq<nat>, size: nat) {
    && |offsets| == |fields| && size % AlignOf(Tstruct(fields)) == 0
    && (forall k | 0 <= k < |fields| :: offsets[k] % AlignOf(fields[k].typ) == 0 && offsets[k] + SizeOf(fields[k].typ) <= size)
    && (forall i, j | 0 <= i < j < |fields| :: offsets[i] + SizeOf(fields[i].typ) <= offsets[j])
  }

  function Offsets(fields: seq<Field>): seq<nat> {
    seq(|fields|, k requires 0 <= k < |fields| => OffsetAt(fields, k))
  }

  lemma OursIsPlacement(fields: seq<Field>)
    ensures IsPlacement(fields, Offsets(fields), SizeOf(Tstruct(fields)))
  {
    AlignUpIs(End(fields), MaxAlign(fields));
    forall k | 0 <= k < |fields|
      ensures OffsetAt(fields, k) % AlignOf(fields[k].typ) == 0
      ensures OffsetAt(fields, k) + SizeOf(fields[k].typ) <= SizeOf(Tstruct(fields))
    {
      FieldEnds(fields, k);
      AlignUpIs(End(fields[..k]), AlignOf(fields[k].typ));
    }
    forall i, j | 0 <= i < j < |fields|
      ensures OffsetAt(fields, i) + SizeOf(fields[i].typ) <= OffsetAt(fields, j)
    {
      FieldsApart(fields, i, j);
    }
  }

  /** No other placement has a member lower. */
  lemma {:induction false} NoneIsLower(fields: seq<Field>, offsets: seq<nat>, size: nat, k: nat)
    requires IsPlacement(fields, offsets, size) && k < |fields|
    ensures OffsetAt(fields, k) <= offsets[k]
    decreases k
  {
    if k == 0 {
      FirstIsAtStart(fields);
    } else {
      NoneIsLower(fields, offsets, size, k - 1);
      NextIsNear(fields, k - 1);
    }
  }

  /** Nor is it smaller. */
  lemma NoneIsSmaller(fields: seq<Field>, offsets: seq<nat>, size: nat)
    requires IsPlacement(fields, offsets, size)
    ensures SizeOf(Tstruct(fields)) <= size
  {
    StructIsTight(fields);
    if fields != [] {
      NoneIsLower(fields, offsets, size, |fields| - 1);
    }
  }

  // --- Unions ---

  ghost predicate HoldsAll(fields: seq<Field>, size: nat) {
    size % AlignOf(Tunion(fields)) == 0 && forall k | 0 <= k < |fields| :: SizeOf(fields[k].typ) <= size
  }

  /** The smallest aligned size in which every member fits. */
  lemma UnionIsTight(fields: seq<Field>)
    ensures HoldsAll(fields, SizeOf(Tunion(fields)))
    ensures forall size | HoldsAll(fields, size) :: SizeOf(Tunion(fields)) <= size
  {
    RoundedIsLeast(MaxSize(fields), MaxAlign(fields));
    forall k | 0 <= k < |fields|
      ensures SizeOf(fields[k].typ) <= SizeOf(Tunion(fields))
    {
      FieldIsSmaller(fields, k);
    }
    forall size | HoldsAll(fields, size)
      ensures SizeOf(Tunion(fields)) <= size
    {
      GreatestFits(fields, size);
    }
  }

  lemma {:induction false} GreatestFits(fields: seq<Field>, size: nat)
    requires forall k | 0 <= k < |fields| :: SizeOf(fields[k].typ) <= size
    ensures MaxSize(fields) <= size
    decreases |fields|
  {
    if fields != [] {
      var last := |fields| - 1;
      assert forall k | 0 <= k < last :: fields[..last][k] == fields[k];
      GreatestFits(fields[..last], size);
    }
  }

  // --- Members by name ---

  /** The offset of a member of a struct is that of the first field of its name. */
  lemma OffsetIsOfFirst(fields: seq<Field>, k: nat)
    requires k < |fields| && forall i | 0 <= i < k :: fields[i].name != fields[k].name
    ensures FieldOffset(Tstruct(fields), fields[k].name) == Offsets(fields)[k]
  {
    var found := Find(fields, fields[k].name);
    assert found == Some(k) by {
      assert found.Some? && found.value <= k;
    }
  }
}
