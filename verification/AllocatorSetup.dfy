/** Building the page allocator from the memory map. */
module AllocatorSetup {
  import opened Wrappers
  import opened Bits
  import opened Descriptor
  import opened Regions
  import opened FixedLists
  import opened MemoryMaps
  import opened UsableRam
  import opened PageBitmaps
  import opened PageAllocators

  /** The pages wholly inside some region of a list. */
  ghost function PagesIn(s: seq<PhysRegion>): set<nat> {
    if s == [] then {} else PagesIn(s[..|s| - 1]) + PagesOf(s[|s| - 1])
  }

  /** Why building failed: an error of the source, or the unchecked subtraction in `count_pages`. */
  datatype SetupError = Refused(error: AllocatorError) | Underflow

  /** The rounded bounds of a region are in order. */
  predicate Ordered(r: PhysRegion) {
    LowPage(r).Some? ==> LowPage(r).value <= HighPage(r)
  }

  /** A region is out of order exactly when it starts inside a page and ends in the same page. */
  lemma OrderedIff(r: PhysRegion)
    ensures !Ordered(r) <==> LowPage(r).Some? && r.start % PAGE_SIZE != 0 && r.start / PAGE_SIZE == r.End() / PAGE_SIZE
  {
  }

  function PageCount(r: PhysRegion): nat {
    if LowPage(r).None? || !Ordered(r) then 0 else HighPage(r) - LowPage(r).value
  }

  function PageTotal(s: seq<PhysRegion>): nat {
    if s == [] then 0 else PageTotal(s[..|s| - 1]) + PageCount(s[|s| - 1])
  }

  /** A region whose bounds `count_pages` accepts. */
  predicate Countable(r: PhysRegion) {
    LowPage(r).Some? && PageAddress(r.End()) <= MAX_PHYSICAL_ADDRESS
  }

  /** The first `i` regions can be counted. */
  predicate Counted(s: seq<PhysRegion>, i: nat)
    requires i <= |s|
  {
    (forall k | 0 <= k < i :: Countable(s[k]) && Ordered(s[k])) && PageTotal(s[..i]) < U64_LIMIT
  }

  /** Region `i` is the one that stops the count, and how. */
  predicate Stops(s: seq<PhysRegion>, i: nat, e: SetupError) {
    && i < |s| && Counted(s, i)
    && match e
       case Underflow => Countable(s[i]) && !Ordered(s[i])
       case Refused(PhysicalAddressOutOfRange) => LowPage(s[i]).Some? && !Countable(s[i])
       case Refused(AddressOverflow) =>
         LowPage(s[i]).None? || (Countable(s[i]) && Ordered(s[i]) && PageTotal(s[..i + 1]) >= U64_LIMIT)
       case _ => false
  }

  /** Some region stops the count in this way. */
  ghost predicate StoppedBy(s: seq<PhysRegion>, e: SetupError) {
    exists i :: Stops(s, i, e)
  }

  lemma {:induction false} PrefixTotal(s: seq<PhysRegion>, i: nat)
    requires i <= |s|
    ensures PageTotal(s[..i]) <= PageTotal(s)
    ensures i < |s| ==> PageTotal(s[..i + 1]) == PageTotal(s[..i]) + PageCount(s[i])
  {
    hide PageCount;
    if i < |s| {
      assert s[..i + 1][..i] == s[..i];
    }
    if i == |s| {
      assert s[..i] == s;
    } else {
      PrefixTotal(s[..|s| - 1], i);
      assert s[..|s| - 1][..i] == s[..i];
    }
  }

  /** What stops the count is determined, and a list that is stopped is not counted to its end. */
  lemma StopsOnce(s: seq<PhysRegion>, i: nat, e: SetupError, j: nat, e': SetupError)
    requires Stops(s, i, e)
    ensures !Counted(s, |s|)
    ensures Stops(s, j, e') ==> i == j && e == e'
  {
    hide Ordered, PageTotal, LowPage, PageAddress;
    PrefixTotal(s, i + 1);
    assert s[..|s|] == s;
    if Stops(s, j, e') && i != j {
      var a, b := if i < j then i else j, if i < j then j else i;
      assert s[..b][..a + 1] == s[..a + 1];
      PrefixTotal(s[..b], a + 1);
    }
  }

  /** The page count of a list; or what stopped the count, at the first region that did. */
  method CountPages(regions: seq<PhysRegion>) returns (r: Result<nat, SetupError>)
    ensures r.Ok? <==> Counted(regions, |regions|)
    ensures r.Ok? ==> r.value == PageTotal(regions)
    ensures forall e :: StoppedBy(regions, e) <==> r == Err(e)
  {
    hide AlignUp, PageAddress, PageTotal, PageCount;
    var pages: nat := 0;
    assert PageTotal(regions[..0]) == 0 by { NoneCounted(regions); }
    for i := 0 to |regions|
      invariant Counted(regions, i) && pages == PageTotal(regions[..i])
    {
      PrefixTotal(regions, i);
      var start := AlignUp(regions[i].start);
      if start.None? {
        r := Err(Refused(AddressOverflow));
        OnlyStop(regions, i, r.error);
        return;
      }
      var end := PageAddress(regions[i].End());
      if end > MAX_PHYSICAL_ADDRESS {
        r := Err(Refused(PhysicalAddressOutOfRange));
        OnlyStop(regions, i, r.error);
        return;
      }
      if end < start.value {
        RoundedOrder(end, start.value);
        r := Err(Underflow);
        OnlyStop(regions, i, r.error);
        return;
      }
      RoundedDifference(start.value, end);
      PageDifference(regions[i]);
      if pages + (end - start.value) / PAGE_SIZE >= U64_LIMIT {
        r := Err(Refused(AddressOverflow));
        OnlyStop(regions, i, r.error);
        return;
      }
      pages := pages + (end - start.value) / PAGE_SIZE;
    }
    assert regions[..|regions|] == regions;
    NeverStops(regions);
    return Ok(pages);
  }

  lemma NoneCounted(s: seq<PhysRegion>)
    ensures PageTotal(s[..0]) == 0
  {
  }

  lemma OnlyStop(s: seq<PhysRegion>, i: nat, e: SetupError)
    requires Stops(s, i, e)
    ensures !Counted(s, |s|)
    ensures forall e' :: StoppedBy(s, e') <==> e == e'
  {
    hide Stops, Counted;
    StopsOnce(s, i, e, i, e);
    forall j, e' | Stops(s, j, e')
      ensures e == e'
    {
      StopsOnce(s, i, e, j, e');
    }
  }

  lemma NeverStops(s: seq<PhysRegion>)
    requires Counted(s, |s|)
    ensures forall e :: !StoppedBy(s, e)
  {
    hide Stops, Counted;
    forall i, e | Stops(s, i, e)
      ensures false
    {
      StopsOnce(s, i, e, i, e);
    }
  }

  /** A RAM region inside one page makes `count_pages` subtract a larger number from a smaller one. */
  lemma CountUnderflows()
    ensures StoppedBy([Region(0x1100, 0x100)], Underflow)
  {
    assert Stops([Region(0x1100, 0x100)], 0, Underflow) by {
      assert [Region(0x1100, 0x100)][..0] == [];
    }
  }

  lemma PageDifference(r: PhysRegion)
    requires LowPage(r).Some? && Ordered(r)
    ensures PageCount(r) == PageAddress(r.End()) / PAGE_SIZE - AlignUp(r.start).value / PAGE_SIZE
  {
    hide AlignUp, PageAddress;
  }

  lemma RoundedOrder(a: nat, b: nat)
    requires a % PAGE_SIZE == 0 && b % PAGE_SIZE == 0 && a < b
    ensures a / PAGE_SIZE < b / PAGE_SIZE
  {
  }

  lemma RoundedDifference(a: nat, b: nat)
    requires a % PAGE_SIZE == 0 && b % PAGE_SIZE == 0 && a <= b
    ensures a / PAGE_SIZE <= b / PAGE_SIZE && (b - a) / PAGE_SIZE == b / PAGE_SIZE - a / PAGE_SIZE
  {
  }

  /** In a normalized list no page is counted twice. */
  lemma {:induction false} TotalIsSize(s: seq<PhysRegion>)
    requires Normalized(s)
    ensures PageTotal(s) == |PagesIn(s)|
    ensures forall p, a: nat | p in PagesIn(s) && a == p * PAGE_SIZE :: Covers(s, a)
  {
    hide LowPage, HighPage;
    if s != [] {
      var init, last := s[..|s| - 1], s[|s| - 1];
      TotalIsSize(init);
      SizeOf(last);
      forall p | p in PagesIn(init)
        ensures p !in PagesOf(last)
      {
        var a := p * PAGE_SIZE;
        assert Covers(init, a);
        PagesOfBytes(last, p);
      }
      assert PagesIn(init) !! PagesOf(last);
      forall p, a: nat | p in PagesIn(s) && a == p * PAGE_SIZE
        ensures Covers(s, a)
      {
        assert s == init + [last];
        CoversSnoc(init, last, a);
        PagesOfBytes(last, p);
        assert p in PagesIn(init) ==> Covers(init, a);
      }
    }
  }

  lemma SizeOf(r: PhysRegion)
    ensures |PagesOf(r)| == PageCount(r)
  {
    hide Interval;
    if LowPage(r).Some? && !Ordered(r) {
      IntervalNone(LowPage(r).value, LowPage(r).value, HighPage(r));
      IntervalEmpty(LowPage(r).value);
    } else if LowPage(r).Some? {
      IntervalSize(LowPage(r).value, HighPage(r));
    }
  }

  /** A region `mark_managed` accepts. */
  predicate Placeable(r: PhysRegion, aperture: nat) {
    LowPage(r).Some? && PageAddress(r.End()) <= aperture * PAGE_SIZE
  }

  method MarkSpan(managed: PageBitmap, lo: nat, end: nat)
    requires managed.Valid() && end <= managed.bits.Length * 8
    modifies managed, managed.bits
    ensures managed.Valid() && managed.Set() == old(managed.Set()) + Interval(lo, end)
  {
    hide Indices, Interval;
    var page := lo;
    ghost var was := managed.Set();
    IntervalEmpty(lo);
    while page < end
      invariant managed.Valid() && lo <= page && (page <= end || page == lo)
      invariant managed.Set() == was + Interval(lo, page)
    {
      AddOne(was, lo, page);
      managed.SetBit(page, true);
      page := page + 1;
    }
    IntervalNone(lo, page, end);
  }

  method MarkManaged(managed: PageBitmap, region: PhysRegion) returns (r: Result<(), AllocatorError>)
    requires managed.Valid()
    modifies managed, managed.bits
    ensures managed.Valid()
    ensures r.Ok? <==> Placeable(region, managed.bits.Length * 8)
    ensures r.Err? ==> r.error == if AlignUp(region.start).None? then AddressOverflow else PhysicalAddressOutOfRange
    ensures r.Ok? ==> managed.Set() == old(managed.Set()) + PagesOf(region)
  {
    hide Indices, Interval, AlignUp, PageAddress;
    var start := AlignUp(region.start);
    if start.None? {
      return Err(AddressOverflow);
    }
    var end := PageAddress(region.End());
    if end > managed.bits.Length * 8 * PAGE_SIZE {
      return Err(PhysicalAddressOutOfRange);
    }
    PageBound(end, managed.bits.Length * 8);
    MarkSpan(managed, start.value / PAGE_SIZE, end / PAGE_SIZE);
    return Ok(());
  }

  method MarkAllManaged(managed: PageBitmap, regions: seq<PhysRegion>) returns (r: Result<(), AllocatorError>)
    requires managed.Valid() && managed.Set() == {}
    modifies managed, managed.bits
    ensures managed.Valid()
    ensures r.Ok? <==> forall k | 0 <= k < |regions| :: Placeable(regions[k], managed.bits.Length * 8)
    ensures r.Ok? ==> managed.Set() == PagesIn(regions)
  {
    hide Indices, PagesOf, Placeable;
    for i := 0 to |regions|
      invariant managed.Valid() && managed.Set() == PagesIn(regions[..i])
      invariant forall k | 0 <= k < i :: Placeable(regions[k], managed.bits.Length * 8)
    {
      assert regions[..i + 1][..i] == regions[..i];
      r := MarkManaged(managed, regions[i]);
      if r.Err? {
        return;
      }
    }
    assert regions[..|regions|] == regions;
    return Ok(());
  }

  /** `mark_all_managed_in_use`. */
  method CopyBits(managed: PageBitmap, inUse: PageBitmap)
    requires managed != inUse && managed.bits != inUse.bits && managed.bits.Length == inUse.bits.Length
    requires managed.Valid() && inUse.Valid() && inUse.Set() == {}
    modifies inUse, inUse.bits
    ensures inUse.Valid() && inUse.Set() == managed.Set()
  {
    ghost var m := managed.Set();
    for index := 0 to managed.bits.Length * 8
      invariant inUse.Valid() && managed.Valid() && managed.Set() == m
      invariant inUse.Set() == set p | p in m && p < index
    {
      if managed.IsSet(index) {
        inUse.SetBit(index, true);
      }
    }
  }

  method ReleaseRegion(a: PageAllocator, region: PhysRegion) returns (r: Result<(), AllocatorError>)
    requires a.Valid()
    modifies a.inUse, a.inUse.bits
    ensures a.Valid() && (r.Ok? <==> LowPage(region).Some?)
    ensures r.Ok? ==> a.inUse.Set() == old(a.inUse.Set()) - PagesOf(region)
  {
    hide Indices, LowPage, HighPage, PagesOf, Interval;
    ReachIsPages(a, region);
    var released := a.Release(region);
    return if released.Ok? then Ok(()) else Err(released.error);
  }

  method ReleaseAll(a: PageAllocator, regions: seq<PhysRegion>) returns (r: Result<(), AllocatorError>)
    requires a.Valid()
    modifies a.inUse, a.inUse.bits
    ensures a.Valid()
    ensures r.Ok? <==> forall k | 0 <= k < |regions| :: LowPage(regions[k]).Some?
    ensures r.Ok? ==> a.inUse.Set() == old(a.inUse.Set()) - PagesIn(regions)
  {
    hide Indices, LowPage, HighPage, PagesIn, PagesOf, Interval;
    ghost var was := a.inUse.Set();
    NoPages(was, regions);
    for i := 0 to |regions|
      invariant a.Valid() && a.inUse.Set() == was - PagesIn(regions[..i])
      invariant forall k | 0 <= k < i :: LowPage(regions[k]).Some?
    {
      MorePages(was, regions, i);
      r := ReleaseRegion(a, regions[i]);
      if r.Err? {
        return;
      }
    }
    assert regions[..|regions|] == regions;
    return Ok(());
  }

  lemma NoPages(s: set<nat>, regions: seq<PhysRegion>)
    ensures s - PagesIn(regions[..0]) == s
  {
  }

  lemma MorePages(s: set<nat>, regions: seq<PhysRegion>, i: nat)
    requires i < |regions|
    ensures s - PagesIn(regions[..i + 1]) == s - PagesIn(regions[..i]) - PagesOf(regions[i])
  {
    hide PagesOf;
    assert regions[..i + 1][..i] == regions[..i];
  }

  lemma ReachIsPages(a: PageAllocator, r: PhysRegion)
    requires a.Valid()
    ensures a.inUse.Set() - a.Reach(r) == a.inUse.Set() - PagesOf(r)
    ensures a.Free() * a.Reach(r) == a.Free() * PagesOf(r)
  {
    forall p | p in a.managed.Set()
      ensures p < a.Aperture()
    {
      a.FreeInAperture(p);
    }
  }

  /** `PageAllocator::new`: the managed pages are those of `allocatable`, and all are in use except
      those of `unused`. */
  method Create(
    ram: seq<PhysRegion>, allocatable: seq<PhysRegion>, unused: seq<PhysRegion>, managed: PageBitmap, inUse: PageBitmap)
    returns (r: Result<PageAllocator, SetupError>)
    requires managed != inUse && managed.bits != inUse.bits && managed.bits.Length == inUse.bits.Length
    modifies managed, managed.bits, inUse, inUse.bits
    ensures r.Ok? <==> managed.bits.Length > 0 && Counted(ram, |ram|)
                       && (forall k | 0 <= k < |allocatable| :: Placeable(allocatable[k], managed.bits.Length * 8))
                       && (forall k | 0 <= k < |unused| :: LowPage(unused[k]).Some?)
    ensures r == Err(Underflow) <==> managed.bits.Length > 0 && StoppedBy(ram, Underflow)
    ensures r.Ok? ==> fresh(r.value) && r.value.Valid() && r.value.managed == managed && r.value.inUse == inUse
    ensures r.Ok? ==> r.value.ramPages == PageTotal(ram) && managed.Set() == PagesIn(allocatable)
                      && inUse.Set() == PagesIn(allocatable) - PagesIn(unused)
  {
    hide Indices, PagesIn, Placeable, Counted, StoppedBy, LowPage, HighPage, PageTotal;
    if managed.bits.Length == 0 {
      return Err(Refused(PhysicalAddressOutOfRange));
    }
    managed.Clear();
    inUse.Clear();
    var total := CountPages(ram);
    if total.Err? {
      return Err(total.error);
    }
    assert total != Err(Underflow);
    var marked := MarkAllManaged(managed, allocatable);
    if marked.Err? {
      return Err(Refused(marked.error));
    }
    CopyBits(managed, inUse);
    var a := new PageAllocator(managed, inUse, total.value);
    var released := ReleaseAll(a, unused);
    if released.Err? {
      return Err(Refused(released.error));
    }
    return Ok(a);
  }

  // From a finalized memory map.

  /** Some byte of page `p` is covered. */
  ghost predicate Touched(s: seq<PhysRegion>, p: nat) {
    exists a: nat :: p * PAGE_SIZE <= a < (p + 1) * PAGE_SIZE && Covers(s, a)
  }

  lemma {:induction false} PagesInCovered(s: seq<PhysRegion>, p: nat, a: nat)
    requires p in PagesIn(s) && p * PAGE_SIZE <= a < (p + 1) * PAGE_SIZE
    ensures Covers(s, a)
  {
    var init, last := s[..|s| - 1], s[|s| - 1];
    assert s == init + [last];
    CoversSnoc(init, last, a);
    if p in PagesOf(last) {
      PagesOfBytes(last, p);
    } else {
      PagesInCovered(init, p, a);
    }
  }

  /** A page all of whose bytes are covered by a normalized list lies in one of its regions. */
  lemma CoveredPage(s: seq<PhysRegion>, p: nat)
    requires Normalized(s) && forall a: nat | p * PAGE_SIZE <= a < (p + 1) * PAGE_SIZE :: Covers(s, a)
    ensures p in PagesIn(s)
  {
    var lo, hi := p * PAGE_SIZE, (p + 1) * PAGE_SIZE;
    assert Covers(s, lo);
    var k :| 0 <= k < |s| && s[k].Contains(lo);
    GapAfter(s, k);
    PagesOfBytes(s[k], p);
    PagesOfMember(s, k, p);
  }

  lemma GapAfter(s: seq<PhysRegion>, k: nat)
    requires Normalized(s) && k < |s|
    ensures !Covers(s, s[k].End())
  {
  }

  lemma {:induction false} PagesOfMember(s: seq<PhysRegion>, k: nat, p: nat)
    requires k < |s| && p in PagesOf(s[k])
    ensures p in PagesIn(s)
  {
    hide PagesOf;
    if k < |s| - 1 {
      PagesOfMember(s[..|s| - 1], k, p);
    }
  }

  /** Every byte of page `p` is RAM and none is reserved. */
  ghost predicate UsablePage(ram: seq<PhysRegion>, reserved: seq<PhysRegion>, p: nat) {
    forall a: nat | p * PAGE_SIZE <= a < (p + 1) * PAGE_SIZE :: Covers(ram, a) && !Covers(reserved, a)
  }

  /** The pages of usable RAM are those of which every byte is RAM and none is reserved. They are RAM
      pages, and none touches a device window. */
  lemma UsablePages(ram: seq<PhysRegion>, reserved: seq<PhysRegion>, mmio: seq<PhysRegion>, usable: seq<PhysRegion>)
    requires Normalized(ram) && Normalized(usable) && Disjoint(ram, mmio)
    requires forall a: nat :: Covers(usable, a) <==> Covers(ram, a) && !Covers(reserved, a)
    ensures |PagesIn(usable)| <= PageTotal(ram)
    ensures forall p :: p in PagesIn(usable) <==> UsablePage(ram, reserved, p)
    ensures forall p | p in PagesIn(usable) :: !Touched(reserved, p) && !Touched(mmio, p)
  {
    hide PagesIn, PageTotal, Overlaps;
    forall p | p in PagesIn(usable)
      ensures p in PagesIn(ram) && UsablePage(ram, reserved, p) && !Touched(reserved, p) && !Touched(mmio, p)
    {
      forall a: nat | p * PAGE_SIZE <= a < (p + 1) * PAGE_SIZE
        ensures Covers(ram, a) && !Covers(reserved, a) && !Covers(mmio, a)
      {
        PagesInCovered(usable, p, a);
        RamIsNotMmio(ram, mmio, a);
      }
      CoveredPage(ram, p);
    }
    forall p | UsablePage(ram, reserved, p)
      ensures p in PagesIn(usable)
    {
      CoveredPage(usable, p);
    }
    TotalIsSize(ram);
    SubsetSize(PagesIn(usable), PagesIn(ram));
  }

  lemma RamIsNotMmio(ram: seq<PhysRegion>, mmio: seq<PhysRegion>, a: nat)
    requires Disjoint(ram, mmio) && Covers(ram, a)
    ensures !Covers(mmio, a)
  {
    var i :| 0 <= i < |ram| && ram[i].Contains(a);
    forall j | 0 <= j < |mmio|
      ensures !mmio[j].Contains(a)
    {
      assert !Overlaps(ram[i], mmio[j]);
    }
  }

  /** The allocator after takeover. Its pages are those of which every byte is RAM and none is reserved;
      all are free, none touches MMIO, and the states account for every RAM page. */
  method FromMemoryMap(memory: MemoryMap, managed: PageBitmap, inUse: PageBitmap)
    returns (r: Result<PageAllocator, SetupError>)
    requires memory.Finalized()
    requires managed != inUse && managed.bits != inUse.bits && managed.bits.Length == inUse.bits.Length
    modifies managed, managed.bits, inUse, inUse.bits
    ensures r.Ok? <==>
              && managed.bits.Length > 0 && Counted(old(memory.ram.Contents()), |old(memory.ram.Contents())|)
              && (forall k | 0 <= k < |old(memory.usable.Contents())| ::
                    Placeable(old(memory.usable.Contents())[k], managed.bits.Length * 8))
    ensures r == Err(Underflow) <==> managed.bits.Length > 0 && StoppedBy(old(memory.ram.Contents()), Underflow)
    ensures r.Ok? ==> fresh(r.value) && r.value.Valid() && r.value.Accounts()
                      && r.value.managed == managed && r.value.inUse == inUse && inUse.Set() == {}
    ensures r.Ok? ==>
              forall p :: p in managed.Set()
                     <==> UsablePage(old(memory.ram.Contents()), old(memory.reserved.Contents()), p)
    ensures r.Ok? ==> forall p | p in managed.Set() ::
                        !Touched(old(memory.reserved.Contents()), p) && !Touched(old(memory.mmio.Contents()), p)
  {
    hide PagesIn, Covers, Normalized, Disjoint, Counted, StoppedBy, LowPage, HighPage, PageTotal, Indices, UsablePage;
    var ram := ListOf(memory.ram);
    var usable := ListOf(memory.usable);
    UsablePages(ram, memory.reserved.Contents(), memory.mmio.Contents(), usable);
    r := Create(ram, usable, usable, managed, inUse);
  }

  // Runs of the allocator.

  datatype AllocOp =
    | TakeRun(pages: nat) | TakeHigh | TakeIn(region: PhysRegion)
    | GiveBack(page: nat) | GiveBackAll(region: PhysRegion)

  /** Reserved, in-use and unused pages add up to the RAM pages, unless more pages are managed. */
  predicate Balanced(s: Option<Stats>, ramPages: nat, managed: nat) {
    match s
    case None => managed > ramPages
    case Some(t) => t.reserved + t.inUse + t.unused == t.ram == ramPages && t.reserved + managed == ramPages
  }

  predicate Gives(op: AllocOp) {
    op.GiveBack? || op.GiveBackAll?
  }

  /** Pages `start` to `start + count - 1`, as one operation hands them out. */
  datatype Handout = Handout(start: nat, count: nat)

  ghost function Handed(h: Handout): set<nat> {
    Interval(h.start, h.start + h.count)
  }

  /** Unused pages were handed out, or none. */
  ghost predicate Took(h: Handout, before: set<nat>, after: set<nat>) {
    Handed(h) !! before && after == before + Handed(h)
  }

  /** What one operation does to the pages in use: hand out unused ones exactly if there are fitting
      ones, or give back exactly those that were named. */
  ghost predicate OpEffect(op: AllocOp, h: Handout, managed: set<nat>, before: set<nat>, after: set<nat>) {
    var free := managed - before;
    match op
    case TakeRun(pages) => Took(h, before, after) && h.count == if HasRun(free, pages) then pages else 0
    case TakeHigh => Took(h, before, after) && h.count == if free != {} then 1 else 0
    case TakeIn(region) =>
      && Took(h, before, after) && h.count == (if free * PagesOf(region) != {} then 1 else 0)
      && Handed(h) <= PagesOf(region)
    case GiveBack(page) =>
      h.count == 0 && after == before - if page % PAGE_SIZE == 0 then {page / PAGE_SIZE} else {}
    case GiveBackAll(region) => h.count == 0 && after == before - PagesOf(region)
  }

  method RunOp(a: PageAllocator, op: AllocOp) returns (h: Handout)
    requires a.Valid()
    modifies a.inUse, a.inUse.bits
    ensures a.Valid() && OpEffect(op, h, a.managed.Set(), old(a.inUse.Set()), a.inUse.Set())
  {
    hide Indices, Interval, FreeRun, PagesOf, LowPage, HighPage, OpEffect;
    ghost var managed, before := a.managed.Set(), a.inUse.Set();
    assert a.Free() == managed - before;
    h := Handout(0, 0);
    match op
    case TakeRun(pages) =>
      var r := a.AllocateContiguous(pages);
      h := if r.Ok? then Handout(r.value / PAGE_SIZE, pages) else h;
      TookRun(pages, h, managed, before, a.inUse.Set());
    case TakeHigh =>
      var r := a.AllocateHigh();
      h := if r.Ok? then Handout(r.value / PAGE_SIZE, 1) else h;
      TookHigh(h, managed, before, a.inUse.Set());
    case TakeIn(region) =>
      ReachIsPages(a, region);
      NoPagesAbove(region);
      var r := a.AllocateIn(region);
      h := if r.Ok? then Handout(r.value / PAGE_SIZE, 1) else h;
      TookIn(region, h, managed, before, a.inUse.Set());
    case GiveBack(page) =>
      if page / PAGE_SIZE in before {
        a.FreeInAperture(page / PAGE_SIZE);
      }
      var r := a.FreePage(page);
      GaveBack(page, managed, before, a.inUse.Set());
    case GiveBackAll(region) =>
      ReachIsPages(a, region);
      NoPagesAbove(region);
      var r := a.Release(region);
      GaveBackAll(region, managed, before, a.inUse.Set());
  }

  lemma TookRun(pages: nat, h: Handout, managed: set<nat>, before: set<nat>, after: set<nat>)
    requires h.count == if HasRun(managed - before, pages) then pages else 0
    requires h.count > 0 ==> FreeRun(managed - before, h.start, pages)
    requires after == if h.count > 0 then before + Interval(h.start, h.start + pages) else before
    ensures OpEffect(TakeRun(pages), h, managed, before, after)
  {
    hide HasRun;
    assert h.count == 0 ==> Handed(h) == {};
  }

  lemma TookHigh(h: Handout, managed: set<nat>, before: set<nat>, after: set<nat>)
    requires h.count == if managed - before != {} then 1 else 0
    requires h.count > 0 ==> h.start in managed - before
    requires after == if h.count > 0 then before + {h.start} else before
    ensures OpEffect(TakeHigh, h, managed, before, after)
  {
    assert Handed(h) == if h.count > 0 then {h.start} else {};
  }

  lemma TookIn(region: PhysRegion, h: Handout, managed: set<nat>, before: set<nat>, after: set<nat>)
    requires h.count == if (managed - before) * PagesOf(region) != {} then 1 else 0
    requires h.count > 0 ==> h.start in (managed - before) * PagesOf(region)
    requires after == if h.count > 0 then before + {h.start} else before
    ensures OpEffect(TakeIn(region), h, managed, before, after)
  {
    hide PagesOf;
    assert Handed(h) == if h.count > 0 then {h.start} else {};
  }

  lemma NoPagesAbove(region: PhysRegion)
    ensures LowPage(region).None? ==> PagesOf(region) == {}
  {
  }

  lemma GaveBack(page: nat, managed: set<nat>, before: set<nat>, after: set<nat>)
    requires after == if page % PAGE_SIZE == 0 && page / PAGE_SIZE in before then before - {page / PAGE_SIZE}
                      else before
    ensures OpEffect(GiveBack(page), Handout(0, 0), managed, before, after)
  {
  }

  lemma GaveBackAll(region: PhysRegion, managed: set<nat>, before: set<nat>, after: set<nat>)
    requires after == before - PagesOf(region)
    ensures OpEffect(GiveBackAll(region), Handout(0, 0), managed, before, after)
  {
  }

  /** A run: the pages in use before each operation and at the end. */
  ghost predicate Trace(ops: seq<AllocOp>, handed: seq<Handout>, managed: set<nat>, uses: seq<set<nat>>) {
    && |handed| == |ops| && |uses| == |ops| + 1
    && forall k | 0 <= k < |ops| :: OpEffect(ops[k], handed[k], managed, uses[k], uses[k + 1])
  }

  /** Any run of operations: every page handed out is a managed one that was not in use, and the
      accounts balance after every operation. */
  method RunOps(a: PageAllocator, ops: seq<AllocOp>)
    returns (handed: seq<Handout>, stats: seq<Option<Stats>>, ghost uses: seq<set<nat>>)
    requires a.Valid()
    modifies a.inUse, a.inUse.bits
    ensures a.Valid() && a.managed.Set() == old(a.managed.Set())
    ensures |handed| == |stats| == |ops| && Trace(ops, handed, a.managed.Set(), uses)
    ensures uses[0] == old(a.inUse.Set()) && uses[|ops|] == a.inUse.Set()
    ensures forall k | 0 <= k < |ops| :: Handed(handed[k]) <= a.managed.Set()
    ensures forall k | 0 <= k < |ops| :: Balanced(stats[k], a.ramPages, |a.managed.Set()|)
  {
    hide Indices, OpEffect, Handed;
    handed, stats, uses := [], [], [a.inUse.Set()];
    for i := 0 to |ops|
      invariant a.Valid() && a.managed.Set() == old(a.managed.Set())
      invariant |stats| == i && Trace(ops[..i], handed, a.managed.Set(), uses)
      invariant uses[0] == old(a.inUse.Set()) && uses[i] == a.inUse.Set()
      invariant forall k | 0 <= k < i :: Handed(handed[k]) <= a.managed.Set()
      invariant forall k | 0 <= k < i :: Balanced(stats[k], a.ramPages, |a.managed.Set()|)
    {
      var h := RunOp(a, ops[i]);
      HandedInUse(ops[i], h, a.managed.Set(), uses[i], a.inUse.Set());
      var s := a.GetStats();
      handed, stats, uses := handed + [h], stats + [s], uses + [a.inUse.Set()];
    }
    assert ops[..|ops|] == ops;
  }

  lemma HandedInUse(op: AllocOp, h: Handout, managed: set<nat>, before: set<nat>, after: set<nat>)
    requires OpEffect(op, h, managed, before, after)
    ensures Handed(h) <= after && (Gives(op) ==> Handed(h) == {} && after <= before)
    ensures !Gives(op) ==> Handed(h) !! before && before <= after
  {
    hide HasRun, PagesOf;
  }

  /** Between two operations that hand out the same page, one gave it back. */
  lemma {:induction false} HandedOnce(
    ops: seq<AllocOp>, handed: seq<Handout>, managed: set<nat>, uses: seq<set<nat>>, j: nat, k: nat, p: nat)
    requires Trace(ops, handed, managed, uses) && j < k < |ops| && p in Handed(handed[j]) && p in Handed(handed[k])
    ensures exists m | j < m < k :: Gives(ops[m]) && p in uses[m] && p !in uses[m + 1]
  {
    hide Handed, OpEffect;
    HandedInUse(ops[j], handed[j], managed, uses[j], uses[j + 1]);
    HandedInUse(ops[k], handed[k], managed, uses[k], uses[k + 1]);
    var m := Dropped(ops, handed, managed, uses, j + 1, k, p);
  }

  lemma {:induction false} Dropped(
    ops: seq<AllocOp>, handed: seq<Handout>, managed: set<nat>, uses: seq<set<nat>>, j: nat, k: nat, p: nat)
    returns (m: nat)
    requires Trace(ops, handed, managed, uses) && j <= k < |uses| && p in uses[j] && p !in uses[k]
    ensures j <= m < k && Gives(ops[m]) && p in uses[m] && p !in uses[m + 1]
    decreases k - j
  {
    hide Handed, OpEffect;
    if p in uses[j + 1] {
      m := Dropped(ops, handed, managed, uses, j + 1, k, p);
    } else {
      HandedInUse(ops[j], handed[j], managed, uses[j], uses[j + 1]);
      m := j;
    }
  }

  /** From takeover on, whatever is asked of the allocator: every page it ever hands out is wholly RAM,
      touches no reservation and no device window, and its accounts always balance. */
  method TakeOver(memory: MemoryMap, managed: PageBitmap, inUse: PageBitmap, ops: seq<AllocOp>)
    returns (
      r: Result<PageAllocator, SetupError>, handed: seq<Handout>, stats: seq<Option<Stats>>, ghost uses: seq<set<nat>>)
    requires memory.Finalized()
    requires managed != inUse && managed.bits != inUse.bits && managed.bits.Length == inUse.bits.Length
    modifies managed, managed.bits, inUse, inUse.bits
    ensures r.Ok? <==>
              && managed.bits.Length > 0 && Counted(old(memory.ram.Contents()), |old(memory.ram.Contents())|)
              && (forall k | 0 <= k < |old(memory.usable.Contents())| ::
                    Placeable(old(memory.usable.Contents())[k], managed.bits.Length * 8))
    ensures r == Err(Underflow) <==> managed.bits.Length > 0 && StoppedBy(old(memory.ram.Contents()), Underflow)
    ensures r.Ok? ==> && r.value.Valid() && r.value.managed == managed && r.value.inUse == inUse
                      && |handed| == |stats| == |ops| && Trace(ops, handed, managed.Set(), uses) && uses[0] == {}
    ensures r.Ok? ==>
              forall p :: p in managed.Set()
                     <==> UsablePage(old(memory.ram.Contents()), old(memory.reserved.Contents()), p)
    ensures forall k, p | 0 <= k < |handed| && p in Handed(handed[k]) ::
              && UsablePage(old(memory.ram.Contents()), old(memory.reserved.Contents()), p)
              && !Touched(old(memory.reserved.Contents()), p) && !Touched(old(memory.mmio.Contents()), p)
    ensures r.Ok? ==>
              forall k | 0 <= k < |ops| :: stats[k].Some? && Balanced(stats[k], r.value.ramPages, |managed.Set()|)
  {
    hide PagesIn, Covers, Normalized, Disjoint, Counted, StoppedBy, Placeable, Indices, UsablePage, Handed, Trace;
    handed, stats, uses := [], [], [];
    r := FromMemoryMap(memory, managed, inUse);
    if r.Ok? {
      handed, stats, uses := RunOps(r.value, ops);
    }
  }

  method ListOf(list: FixedList<PhysRegion>) returns (s: seq<PhysRegion>)
    requires list.Valid()
    ensures s == list.Contents()
  {
    s := [];
    for i := 0 to list.len
      invariant s == list.Contents()[..i]
    {
      s := s + [list.entries[i].value];
    }
  }
}
