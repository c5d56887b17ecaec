/** The stack frame (pkg/stacking/layout.go, slots.go): where everything is, relative to the frame pointer. */
module Frame {
  import opened Values
  import opened Linear
  import L = LTL

  // --- What the code uses ---

  function SlotSize(ty: L.Typ): (n: nat)
    ensures n == 4 || n == 8
  {
    match ty
    case Tint => 4
    case Tsingle => 4
    case Tany32 => 4
    case _ => 8
  }

  /** A slot that the code uses. */
  ghost predicate Uses(code: Code, l: L.Loc) {
    l.S? && exists i | i in code :: l in Operands(i)
  }

  /** The operands that are looked through for slots: not those of calls, built-ins, conditions and jump tables. */
  function ScannedLocs(i: Instr): seq<L.Loc> {
    match i
    case Lgetstack(slot, ofs, ty, _) => [L.S(slot, ofs, ty)]
    case Lsetstack(_, slot, ofs, ty) => [L.S(slot, ofs, ty)]
    case Lop(_, args, dest) => args + [dest]
    case Lload(_, _, args, dest) => args + [dest]
    case Lstore(_, _, args, src) => args + [src]
    case _ => []
  }

  function EndOf(l: L.Loc): int
    requires l.S?
  {
    l.ofs + SlotSize(l.ty)
  }

  /** The greatest end of the slots of a kind among locs, at least 0. */
  function MaxEnd(locs: seq<L.Loc>, kind: L.SlotKind): (m: nat)
    ensures forall l | l in locs && l.S? && l.slot == kind :: EndOf(l) <= m
  {
    if locs == [] then 0
    else
      var last := |locs| - 1;
      var m, l := MaxEnd(locs[..last], kind), locs[last];
      assert forall x | x in locs :: x in locs[..last] || x == l;
      if l.S? && l.slot == kind && EndOf(l) > m then EndOf(l) else m
  }

  function Scanned(code: Code): (lists: seq<seq<L.Loc>>)
    ensures |lists| == |code|
  {
    seq(|code|, k requires 0 <= k < |code| => ScannedLocs(code[k]))
  }

  function Concat(lists: seq<seq<L.Loc>>): seq<L.Loc> {
    if lists == [] then [] else Concat(lists[..|lists| - 1]) + lists[|lists| - 1]
  }

  function AllLocs(code: Code): seq<L.Loc> {
    Concat(Scanned(code))
  }

  lemma InEither(a: seq<L.Loc>, b: seq<L.Loc>, l: L.Loc)
    ensures l in a + b <==> l in a || l in b
  {
  }

  lemma {:induction false} ListedAt(lists: seq<seq<L.Loc>>, k: nat, l: L.Loc)
    requires k < |lists| && l in lists[k]
    ensures l in Concat(lists)
    decreases |lists|
  {
    var last := |lists| - 1;
    if k < last {
      ListedAt(lists[..last], k, l);
    }
    InEither(Concat(lists[..last]), lists[last], l);
  }

  lemma ScannedIsListed(code: Code, i: Instr, l: L.Loc)
    requires i in code && l in ScannedLocs(i)
    ensures l in AllLocs(code)
  {
    var k :| 0 <= k < |code| && code[k] == i;
    ListedAt(Scanned(code), k, l);
  }

  datatype StackInfo = StackInfo(localSize: nat, incomingSize: nat, outgoingSize: nat)

  function InfoOf(locs: seq<L.Loc>): StackInfo {
    StackInfo(MaxEnd(locs, L.SlotLocal), MaxEnd(locs, L.SlotIncoming), MaxEnd(locs, L.SlotOutgoing))
  }

  /** One more location. */
  method CheckSlotLoc(info: StackInfo, l: L.Loc, ghost seen: seq<L.Loc>) returns (info': StackInfo)
    requires info == InfoOf(seen)
    ensures info' == InfoOf(seen + [l])
  {
    assert (seen + [l])[..|seen|] == seen;
    info' := info;
    if l.S? {
      var end := EndOf(l);
      match l.slot {
        case SlotLocal => if end > info.localSize { info' := info.(localSize := end); }
        case SlotIncoming => if end > info.incomingSize { info' := info.(incomingSize := end); }
        case SlotOutgoing => if end > info.outgoingSize { info' := info.(outgoingSize := end); }
      }
    }
  }

  method CheckSlotLocs(info: StackInfo, locs: seq<L.Loc>, ghost seen: seq<L.Loc>) returns (info': StackInfo)
    requires info == InfoOf(seen)
    ensures info' == InfoOf(seen + locs)
  {
    info' := info;
    assert seen + locs[..0] == seen;
    for k := 0 to |locs|
      invariant info' == InfoOf(seen + locs[..k])
    {
      info' := CheckSlotLoc(info', locs[k], seen + locs[..k]);
      assert seen + locs[..k] + [locs[k]] == seen + locs[..k + 1];
    }
    assert locs[..|locs|] == locs;
  }

  method CollectStackInfo(code: Code) returns (info: StackInfo)
    ensures info == InfoOf(AllLocs(code))
  {
    info := StackInfo(0, 0, 0);
    for i := 0 to |code|
      invariant info == InfoOf(AllLocs(code[..i]))
    {
      info := CheckSlotLocs(info, ScannedLocs(code[i]), AllLocs(code[..i]));
      assert Scanned(code[..i + 1])[..i] == Scanned(code[..i]);
    }
    assert code[..|code|] == code;
  }

  // --- The layout ---

  method AlignUp(n: nat, align: nat) returns (r: nat)
    requires align == 8 || align == 16
    ensures n <= r < n + align
    ensures r % 8 == 0 && (align == 16 ==> r % 16 == 0)
  {
    if align == 8 {
      r := (n + 7) / 8 * 8;
    } else {
      r := (n + 15) / 16 * 16;
    }
  }

  datatype FrameLayout = FrameLayout(calleeSaveSize: nat, localSize: nat, outgoingSize: nat, localOffset: int, totalSize: nat) {
    function LocalSlotOffset(ofs: int): int {
      localOffset + ofs
    }

    function OutgoingSlotOffset(ofs: int): int {
      -(totalSize - 16) + ofs
    }

    function IncomingSlotOffset(ofs: int): int {
      16 + ofs
    }

    function TranslateSlotOffset(slot: L.SlotKind, ofs: int): int {
      match slot
      case SlotLocal => LocalSlotOffset(ofs)
      case SlotIncoming => IncomingSlotOffset(ofs)
      case SlotOutgoing => OutgoingSlotOffset(ofs)
    }

    /** Where the stack pointer is. */
    function StackPointer(): int {
      16 - totalSize
    }

    /** From there to the local slots. */
    function Room(): int {
      localOffset - StackPointer()
    }
  }

  /** Each part is as large as what it holds, rounded up to its alignment. */
  ghost predicate IsLayout(layout: FrameLayout, info: StackInfo, calleeSaveRegs: nat) {
    && 8 * calleeSaveRegs <= layout.calleeSaveSize < 8 * calleeSaveRegs + 16 && layout.calleeSaveSize % 16 == 0
    && info.localSize <= layout.localSize < info.localSize + 8 && layout.localSize % 8 == 0
    && info.outgoingSize <= layout.outgoingSize < info.outgoingSize + 8 && layout.outgoingSize % 8 == 0
    && layout.localOffset == 0 - layout.calleeSaveSize - layout.localSize
    && layout.totalSize % 16 == 0
    && 16 <= layout.totalSize - (layout.calleeSaveSize + layout.localSize + layout.outgoingSize) < 32
  }

  /** The size of the save area for an even number of registers. */
  function SaveAreaSize(numRegs: nat): (n: nat)
    requires numRegs % 2 == 0
    ensures n == 8 * numRegs && n % 16 == 0
  {
    numRegs * 8
  }

  method ComputeLayout(code: Code, calleeSaveRegs: nat) returns (layout: FrameLayout)
    ensures IsLayout(layout, InfoOf(AllLocs(code)), calleeSaveRegs)
  {
    var info := CollectStackInfo(code);
    var numRegs := calleeSaveRegs;
    if numRegs % 2 != 0 {
      numRegs := numRegs + 1;
    }
    var calleeSaveSize := SaveAreaSize(numRegs);
    var localSize := AlignUp(info.localSize, 8);
    var outgoingSize := AlignUp(info.outgoingSize, 8);
    var frameBody := AlignUp(calleeSaveSize + localSize + outgoingSize, 16);
    var localOffset: int := -(calleeSaveSize as int) - localSize;
    layout := FrameLayout(calleeSaveSize, localSize, outgoingSize, localOffset, frameBody + 16);
    TotalIs(layout, info, calleeSaveRegs, frameBody);
  }

  lemma TotalIs(layout: FrameLayout, info: StackInfo, calleeSaveRegs: nat, body: nat)
    requires 8 * calleeSaveRegs <= layout.calleeSaveSize < 8 * calleeSaveRegs + 16 && layout.calleeSaveSize % 16 == 0
    requires info.localSize <= layout.localSize < info.localSize + 8 && layout.localSize % 8 == 0
    requires info.outgoingSize <= layout.outgoingSize < info.outgoingSize + 8 && layout.outgoingSize % 8 == 0
    requires layout.localOffset == 0 - layout.calleeSaveSize - layout.localSize
    requires 0 <= body - (layout.calleeSaveSize + layout.localSize + layout.outgoingSize) < 16
    requires body % 16 == 0 && layout.totalSize == body + 16
    ensures IsLayout(layout, info, calleeSaveRegs)
  {
  }

  /** The offset where callee-saved register i is saved. */
  function SaveOffset(i: nat): int {
    -8 - 8 * i
  }

  // --- Everything has its own place ---

  /** What is in a frame; the areas are there for all the slots of their kind. */
  datatype Place = CalleeSave(i: nat) | SavedFP | SavedLR | LocalArea | OutgoingArea | Slot(loc: L.Loc)

  function OffsetOf(layout: FrameLayout, p: Place): int {
    match p
    case CalleeSave(i) => SaveOffset(i)
    case SavedFP => 0
    case SavedLR => 8
    case LocalArea => layout.localOffset
    case OutgoingArea => layout.StackPointer()
    case Slot(l) => if l.S? then layout.TranslateSlotOffset(l.slot, l.ofs) else 0
  }

  function SizeOf(layout: FrameLayout, p: Place): int {
    match p
    case LocalArea => layout.localSize
    case OutgoingArea => layout.Room()
    case Slot(l) => if l.S? then SlotSize(l.ty) else 0
    case _ => 8
  }

  predicate DisjointRanges(a: int, n: int, b: int, m: int) {
    a + n <= b || b + m <= a
  }

  predicate Apart(layout: FrameLayout, p: Place, q: Place) {
    DisjointRanges(OffsetOf(layout, p), SizeOf(layout, p), OffsetOf(layout, q), SizeOf(layout, q))
  }

  predicate InsideFrame(layout: FrameLayout, p: Place) {
    layout.StackPointer() <= OffsetOf(layout, p) && OffsetOf(layout, p) + SizeOf(layout, p) <= layout.StackPointer() + layout.totalSize
  }

  /** The slot is in the area of its kind; incoming slots are in the caller's frame. */
  predicate Fits(layout: FrameLayout, l: L.Loc)
    requires l.S?
  {
    match l.slot
    case SlotLocal => EndOf(l) <= layout.localSize
    case SlotOutgoing => EndOf(l) <= layout.Room()
    case SlotIncoming => true
  }

  /** Saved registers, and the area for the other kind of slots. */
  predicate IsOther(l: L.Loc, n: nat, p: Place)
    requires l.S?
  {
    match p
    case CalleeSave(i) => i < n
    case LocalArea => !l.slot.SlotLocal?
    case OutgoingArea => !l.slot.SlotOutgoing?
    case Slot(_) => false
    case _ => true
  }

  /** The slot is inside the frame and overlaps no saved register and no slots of the other kind. */
  ghost predicate HasOwnPlace(layout: FrameLayout, n: nat, l: L.Loc)
    requires l.S?
  {
    InsideFrame(layout, Slot(l)) && forall p | IsOther(l, n, p) :: Apart(layout, p, Slot(l))
  }

  /** A slot has a place of its own exactly if it fits; the number of saved registers is even. */
  lemma OwnPlaceIff(layout: FrameLayout, info: StackInfo, n: nat, l: L.Loc)
    requires IsLayout(layout, info, n) && n % 2 == 0 && l.S? && l.ofs >= 0 && !l.slot.SlotIncoming?
    ensures HasOwnPlace(layout, n, l) <==> Fits(layout, l)
  {
    if !Fits(layout, l) && InsideFrame(layout, Slot(l)) {
      ObstacleIs(layout, info, n, l);
    }
  }

  lemma ObstacleIs(layout: FrameLayout, info: StackInfo, n: nat, l: L.Loc)
    requires IsLayout(layout, info, n) && n % 2 == 0 && l.S? && !l.slot.SlotIncoming?
    requires !Fits(layout, l) && InsideFrame(layout, Slot(l))
    ensures IsOther(l, n, Obstacle(layout, l)) && !Apart(layout, Obstacle(layout, l), Slot(l))
  {
    var end := OffsetOf(layout, Slot(l)) + SlotSize(l.ty);
    if end <= 0 {
      CellAt(end, n);
    }
  }

  lemma CellAt(end: int, n: nat)
    requires end <= 0
    ensures var i := (0 - end) / 8; SaveOffset(i) < end <= SaveOffset(i) + 8 && (end > -8 * n ==> i < n)
  {
  }

  /** What the last byte of a slot that does not fit is taken by. */
  function Obstacle(layout: FrameLayout, l: L.Loc): Place
    requires l.S?
  {
    var end := OffsetOf(layout, Slot(l)) + SlotSize(l.ty);
    if end > 8 then SavedLR
    else if end > 0 then SavedFP
    else if end > 0 - layout.calleeSaveSize then CalleeSave((0 - end) / 8)
    else LocalArea
  }

  /** The slots that are looked at fit. */
  lemma ScannedFits(layout: FrameLayout, code: Code, n: nat, i: Instr, l: L.Loc)
    requires IsLayout(layout, InfoOf(AllLocs(code)), n) && i in code && l in ScannedLocs(i) && l.S?
    ensures Fits(layout, l)
  {
    ScannedIsListed(code, i, l);
    assert EndOf(l) <= MaxEnd(AllLocs(code), l.slot);
  }

  /** Others need not: a slot for the result of a built-in, used nowhere else, is where the last register is saved, or FP
      if there is none. */
  lemma BuiltinSlotIsMissed(layout: FrameLayout, n: nat)
    requires n % 2 == 0
    requires IsLayout(layout, InfoOf(AllLocs([Lbuiltin("b", [], Some(L.S(L.SlotLocal, 0, L.Tlong))), Lreturn])), n)
    ensures var result := L.S(L.SlotLocal, 0, L.Tlong);
      && Uses([Lbuiltin("b", [], Some(result)), Lreturn], result) && !Fits(layout, result)
      && OffsetOf(layout, Slot(result)) == OffsetOf(layout, if n == 0 then SavedFP else CalleeSave(n - 1))
  {
    var result := L.S(L.SlotLocal, 0, L.Tlong);
    NothingScanned("b", Some(result));
    EmptyLayout(layout, n);
    var code := [Lbuiltin("b", [], Some(result)), Lreturn];
    assert code[0] in code && result in Operands(code[0]);
  }

  lemma NothingScanned(name: string, res: Option<L.Loc>)
    ensures AllLocs([Lbuiltin(name, [], res), Lreturn]) == []
  {
    var code := [Lbuiltin(name, [], res), Lreturn];
    assert Scanned(code) == [[], []];
    assert Concat([[], []]) == Concat([[]]) + [];
  }

  lemma EmptyLayout(layout: FrameLayout, n: nat)
    requires IsLayout(layout, InfoOf([]), n) && n % 2 == 0
    ensures layout.localSize == 0 && layout.localOffset == -8 * n
  {
    assert layout.calleeSaveSize == 8 * n;
  }

  /** What the code and n saved registers put into the frame; slots have no negative offsets. */
  ghost predicate InFrame(code: Code, n: nat, p: Place) {
    match p
    case CalleeSave(i) => i < n
    case Slot(l) => Uses(code, l) && l.ofs >= 0
    case _ => p.SavedFP? || p.SavedLR?
  }

  /** Every slot that the code uses is in the area of its kind. */
  ghost predicate AllFit(layout: FrameLayout, code: Code) {
    forall l | Uses(code, l) && l.ofs >= 0 :: Fits(layout, l)
  }

  /** Different places; slots of one kind are different if they do not overlap to start with. */
  predicate Differ(p: Place, q: Place) {
    p != q && (p.Slot? && q.Slot? && p.loc.S? && q.loc.S? && p.loc.slot == q.loc.slot ==>
                 EndOf(p.loc) <= q.loc.ofs || EndOf(q.loc) <= p.loc.ofs)
  }

  /** Nothing in the frame overlaps. */
  lemma PlacesApart(layout: FrameLayout, info: StackInfo, code: Code, n: nat, p: Place, q: Place)
    requires IsLayout(layout, info, n) && AllFit(layout, code)
    requires InFrame(code, n, p) && InFrame(code, n, q) && Differ(p, q)
    ensures Apart(layout, p, q)
  {
  }

  /** The frame is aligned, all but the incoming slots are in it, and outgoing slot k is k above the stack pointer. */
  lemma FrameHoldsAll(layout: FrameLayout, info: StackInfo, code: Code, n: nat, p: Place)
    requires IsLayout(layout, info, n) && AllFit(layout, code) && InFrame(code, n, p)
    ensures layout.totalSize % 16 == 0
    ensures if p.Slot? && p.loc.slot.SlotIncoming? then OffsetOf(layout, p) >= layout.StackPointer() + layout.totalSize
            else InsideFrame(layout, p)
    ensures p.Slot? && p.loc.slot.SlotOutgoing? ==> OffsetOf(layout, p) == layout.StackPointer() + p.loc.ofs
  {
  }
}
