/** The bitmap page allocator. Pages are named by their index in the physical aperture. */
module PageAllocators {
  import opened Wrappers
  import opened Descriptor
  import opened Regions
  import opened PageBitmaps

  const MAX_PHYSICAL_ADDRESS: nat := 0x1_0000_0000

  datatype AllocatorError =
    | AddressOverflow | PhysicalAddressOutOfRange | Exhausted | UnalignedPage | ReservedPage | DoubleFree
    | AlreadyAllocated | InvalidateParameter | InvalidIpa | OverlappingIpa | Unexpected

  datatype PageState = Reserved | InUse | Unused

  datatype Stats = Stats(ram: nat, reserved: nat, inUse: nat, unused: nat)

  // Pages of regions.

  function LowPage(r: PhysRegion): Option<nat> {
    match AlignUp(r.start)
    case None => None
    case Some(a) => Some(a / PAGE_SIZE)
  }

  function HighPage(r: PhysRegion): nat {
    PageAddress(r.End()) / PAGE_SIZE
  }

  /** The pages wholly inside a region. */
  ghost function PagesOf(r: PhysRegion): set<nat> {
    if LowPage(r).None? then {} else Interval(LowPage(r).value, HighPage(r))
  }

  predicate Between(lo: nat, p: nat, hi: nat) {
    lo <= p < hi
  }

  ghost function Interval(lo: nat, hi: nat): set<nat> {
    set p: nat | p < hi && Between(lo, p, hi)
  }

  lemma IntervalEmpty(lo: nat)
    ensures Interval(lo, lo) == {}
  {
  }

  lemma ReleaseOne(s: set<nat>, lo: nat, page: nat)
    requires lo <= page
    ensures |s * Interval(lo, page + 1)| == |s * Interval(lo, page)| + (if page in s then 1 else 0)
    ensures s - Interval(lo, page + 1) == (s - Interval(lo, page)) - {page}
    ensures page in s - Interval(lo, page) <==> page in s
  {
    assert s * Interval(lo, page + 1) == if page in s then s * Interval(lo, page) + {page} else s * Interval(lo, page);
  }

  lemma IntervalNone(lo: nat, page: nat, hi: nat)
    requires hi <= page && (page <= hi || page == lo)
    ensures Interval(lo, page) == Interval(lo, hi)
  {
  }

  lemma InInterval(lo: nat, p: nat, hi: nat)
    requires lo <= p < hi
    ensures p in Interval(lo, hi)
  {
    assert Between(lo, p, hi);
  }

  lemma IntervalStep(lo: nat, hi: nat)
    requires lo <= hi
    ensures Interval(lo, hi + 1) == Interval(lo, hi) + {hi}
  {
  }

  lemma AddOne(s: set<nat>, lo: nat, page: nat)
    requires lo <= page
    ensures s + Interval(lo, page + 1) == s + Interval(lo, page) + {page}
  {
  }

  lemma {:induction false} IntervalSize(lo: nat, hi: nat)
    requires lo <= hi
    ensures |Interval(lo, hi)| == hi - lo
    decreases hi - lo
  {
    if lo < hi {
      IntervalSize(lo, hi - 1);
      assert Interval(lo, hi) == Interval(lo, hi - 1) + {hi - 1};
    } else {
      assert Interval(lo, hi) == {};
    }
  }

  /** A page belongs to a region exactly when all its bytes do. */
  lemma PagesOfBytes(r: PhysRegion, p: nat)
    ensures p in PagesOf(r) <==> r.start <= p * PAGE_SIZE && (p + 1) * PAGE_SIZE <= r.End()
  {
    hide AlignUp, PageAddress;
    if AlignUp(r.start).Some? {
      PageBound(AlignUp(r.start).value, p);
    }
    PageBound(PageAddress(r.End()), p + 1);
  }

  lemma PageBound(a: nat, p: nat)
    requires a % PAGE_SIZE == 0
    ensures a / PAGE_SIZE <= p <==> a <= p * PAGE_SIZE
    ensures p <= a / PAGE_SIZE <==> p * PAGE_SIZE <= a
  {
  }

  // Runs of free pages.

  /** `count` consecutive free pages from `start` on. */
  ghost predicate FreeRun(free: set<nat>, start: nat, count: nat) {
    forall p: nat | start <= p < start + count :: p in free
  }

  ghost predicate LowestRun(free: set<nat>, start: nat, count: nat) {
    FreeRun(free, start, count) && forall s | 0 <= s < start :: !FreeRun(free, s, count)
  }

  /** Some run of that many free pages exists. */
  ghost predicate HasRun(free: set<nat>, pages: nat) {
    pages > 0 && exists start: nat :: FreeRun(free, start, pages)
  }

  class PageAllocator {
    const managed: PageBitmap
    const inUse: PageBitmap
    const ramPages: nat

    /** Pages in use are managed, and the bitmaps share no storage. */
    ghost predicate Valid()
      reads this, managed, inUse, managed.bits, inUse.bits
    {
      && managed != inUse && managed.bits != inUse.bits && managed.bits.Length == inUse.bits.Length
      && managed.Valid() && inUse.Valid()
      && inUse.Set() <= managed.Set()
    }

    /** No more pages are managed than there are RAM pages. */
    ghost predicate Accounts()
      reads this, managed
    {
      managed.setPages <= ramPages
    }

    ghost function Free(): set<nat>
      reads this, managed.bits, inUse.bits
    {
      managed.Set() - inUse.Set()
    }

    /** The number of pages the aperture holds. */
    function Aperture(): nat
      reads this
    {
      managed.bits.Length * 8
    }

    constructor (managed: PageBitmap, inUse: PageBitmap, ramPages: nat)
      requires managed != inUse && managed.bits != inUse.bits && managed.bits.Length == inUse.bits.Length
      requires managed.Valid() && inUse.Valid() && inUse.Set() <= managed.Set()
      ensures Valid() && this.managed == managed && this.inUse == inUse && this.ramPages == ramPages
    {
      this.managed, this.inUse, this.ramPages := managed, inUse, ramPages;
    }

    predicate IsFree(index: nat)
      requires Valid() && index < Aperture()
      reads this, managed, inUse, managed.bits, inUse.bits
      ensures IsFree(index) <==> index in Free()
    {
      managed.IsSet(index) && !inUse.IsSet(index)
    }

    lemma FreeInAperture(index: nat)
      requires Valid() && index in managed.Set()
      ensures index < Aperture()
    {
    }

    /** The scan of `allocate_contiguous`: the lowest run of `pages` unused pages. */
    method FindRun(pages: nat) returns (r: Option<nat>)
      requires Valid() && pages > 0
      ensures r.Some? ==> FreeRun(Free(), r.value, pages) && r.value + pages <= Aperture()
                          && forall s | 0 <= s < r.value :: !FreeRun(Free(), s, pages)
      ensures r.None? ==> forall s: nat :: !FreeRun(Free(), s, pages)
    {
      hide Indices;
      ghost var free := Free();
      var runStart: nat, runLen: nat := 0, 0;
      for index := 0 to Aperture()
        invariant runLen < pages && runLen <= index
        invariant runLen > 0 ==> runStart + runLen == index && FreeRun(free, runStart, runLen)
        invariant (if runLen > 0 then runStart else index) == 0 || (if runLen > 0 then runStart else index) - 1 !in free
        invariant forall s: nat | s + pages <= index :: !FreeRun(free, s, pages)
      {
        if IsFree(index) {
          if runLen == 0 {
            runStart := index;
          }
          runLen := runLen + 1;
          if runLen == pages {
            return Some(runStart);
          }
        } else {
          runLen := 0;
        }
        NoRunEndsAt(free, index, pages, if runLen > 0 then runStart else index + 1);
      }
      forall s: nat
        ensures !FreeRun(free, s, pages)
      {
        if FreeRun(free, s, pages) {
          assert s + pages - 1 in free;
          FreeInAperture(s + pages - 1);
        }
      }
      return None;
    }

    /** The lowest run of `pages` unused pages becomes in use; with none, nothing changes. */
    method AllocateContiguous(pages: nat) returns (r: Result<nat, AllocatorError>)
      requires Valid()
      modifies inUse, inUse.bits
      ensures Valid()
      ensures r.Ok? <==> HasRun(old(Free()), pages)
      ensures r.Ok? ==> r.value % PAGE_SIZE == 0 && LowestRun(old(Free()), r.value / PAGE_SIZE, pages)
                        && inUse.Set() == old(inUse.Set()) + Interval(r.value / PAGE_SIZE, r.value / PAGE_SIZE + pages)
      ensures r.Err? ==> r.error == Exhausted && inUse.Set() == old(inUse.Set())
    {
      hide Indices, Interval, FreeRun;
      if pages == 0 {
        return Err(Exhausted);
      }
      ghost var free := Free();
      var start := FindRun(pages);
      assert Free() == free;
      if start.None? {
        return Err(Exhausted);
      }
      Mark(start.value, pages);
      assert start.value * PAGE_SIZE / PAGE_SIZE == start.value;
      return Ok(start.value * PAGE_SIZE);
    }

    /** The highest unused page becomes in use. */
    method AllocateHigh() returns (r: Result<nat, AllocatorError>)
      requires Valid()
      modifies inUse, inUse.bits
      ensures Valid()
      ensures r.Ok? <==> old(Free()) != {}
      ensures r.Ok? ==> r.value % PAGE_SIZE == 0 && r.value / PAGE_SIZE in old(Free())
                        && (forall p | p in old(Free()) :: p <= r.value / PAGE_SIZE)
                        && inUse.Set() == old(inUse.Set()) + {r.value / PAGE_SIZE}
      ensures r.Err? ==> r.error == Exhausted && inUse.Set() == old(inUse.Set())
    {
      hide Indices;
      var index := Aperture();
      forall p | p in Free() ensures p < index { FreeInAperture(p); }
      while index > 0
        invariant 0 <= index <= Aperture()
        invariant Valid() && inUse.Set() == old(inUse.Set()) && managed.Set() == old(managed.Set())
        invariant forall p | p in Free() :: p < index
      {
        index := index - 1;
        if IsFree(index) {
          inUse.SetBit(index, true);
          return Ok(index * PAGE_SIZE);
        }
      }
      return Err(Exhausted);
    }

    /** The state of a page, or why the address names none. */
    method State(page: nat) returns (r: Result<PageState, AllocatorError>)
      requires Valid()
      ensures r == StateOf(page)
    {
      hide Indices;
      if page % PAGE_SIZE != 0 {
        return Err(UnalignedPage);
      }
      if page / PAGE_SIZE >= Aperture() {
        return Err(PhysicalAddressOutOfRange);
      }
      if !managed.IsSet(page / PAGE_SIZE) {
        return Ok(Reserved);
      }
      return if inUse.IsSet(page / PAGE_SIZE) then Ok(InUse) else Ok(Unused);
    }

    ghost function StateOf(page: nat): Result<PageState, AllocatorError>
      reads this, managed.bits, inUse.bits
    {
      if page % PAGE_SIZE != 0 then Err(UnalignedPage)
      else if page / PAGE_SIZE >= Aperture() then Err(PhysicalAddressOutOfRange)
      else if page / PAGE_SIZE !in managed.Set() then Ok(Reserved)
      else if page / PAGE_SIZE in inUse.Set() then Ok(InUse)
      else Ok(Unused)
    }

    /** Exactly a page in use can be freed, and then it alone becomes unused. */
    method FreePage(page: nat) returns (r: Result<(), AllocatorError>)
      requires Valid()
      modifies inUse, inUse.bits
      ensures Valid()
      ensures r.Ok? <==> old(StateOf(page)) == Ok(InUse)
      ensures r.Ok? ==> inUse.Set() == old(inUse.Set()) - {page / PAGE_SIZE}
      ensures r.Err? ==> inUse.Set() == old(inUse.Set())
      ensures old(StateOf(page)) == Ok(Reserved) ==> r == Err(ReservedPage)
      ensures old(StateOf(page)) == Ok(Unused) ==> r == Err(DoubleFree)
      ensures old(StateOf(page)).Err? ==> r == Err(old(StateOf(page)).error)
    {
      hide Indices;
      var state := State(page);
      if state.Err? {
        return Err(state.error);
      }
      if state.value == Reserved {
        return Err(ReservedPage);
      }
      if state.value == Unused {
        return Err(DoubleFree);
      }
      inUse.SetBit(page / PAGE_SIZE, false);
      return Ok(());
    }

    /** Freeing a page that is in use succeeds. */
    method FreeHeld(page: nat)
      requires Valid() && page in inUse.Set()
      modifies inUse, inUse.bits
      ensures Valid() && inUse.Set() == old(inUse.Set()) - {page}
    {
      hide Indices;
      FreeInAperture(page);
      assert page * PAGE_SIZE / PAGE_SIZE == page && page * PAGE_SIZE % PAGE_SIZE == 0;
      var freed := FreePage(page * PAGE_SIZE);
      assert freed.Ok?;
    }

    /** So does freeing a run of them, one by one. */
    method FreeSpan(lo: nat, hi: nat)
      requires Valid() && lo <= hi && Interval(lo, hi) <= inUse.Set()
      modifies inUse, inUse.bits
      ensures Valid() && inUse.Set() == old(inUse.Set()) - Interval(lo, hi)
    {
      hide Indices, Interval;
      ghost var was := inUse.Set();
      IntervalEmpty(lo);
      for page := lo to hi
        invariant Valid() && inUse.Set() == was - Interval(lo, page)
      {
        ReleaseOne(was, lo, page);
        InInterval(lo, page, hi);
        FreeHeld(page);
      }
    }

    /** The pages a release or allocation may look at: whole pages of the region, in the aperture. */
    ghost function Reach(region: PhysRegion): set<nat>
      reads this
    {
      if LowPage(region).None? then {}
      else Interval(LowPage(region).value, if HighPage(region) < Aperture() then HighPage(region) else Aperture())
    }

    method FindIn(lo: nat, end: nat) returns (r: Option<nat>)
      requires Valid() && end <= Aperture()
      ensures r.Some? ==> r.value in Free() && Between(lo, r.value, end)
      ensures r.Some? ==> forall p: nat | Between(lo, p, r.value) :: p !in Free()
      ensures r.None? ==> forall p: nat | Between(lo, p, end) :: p !in Free()
    {
      hide Indices;
      var page := lo;
      while page < end
        invariant lo <= page && forall p: nat | Between(lo, p, page) :: p !in Free()
      {
        if IsFree(page) {
          return Some(page);
        }
        page := page + 1;
      }
      return None;
    }

    /** The lowest unused page wholly inside the region becomes in use. */
    method AllocateIn(region: PhysRegion) returns (r: Result<nat, AllocatorError>)
      requires Valid()
      modifies inUse, inUse.bits
      ensures Valid()
      ensures LowPage(region).None? ==> r == Err(AddressOverflow)
      ensures LowPage(region).Some? ==>
                (r.Ok? <==> old(Free()) * Reach(region) != {}) && (r.Err? ==> r.error == Exhausted)
      ensures r.Ok? ==> r.value % PAGE_SIZE == 0 && r.value / PAGE_SIZE in old(Free()) * Reach(region)
                        && (forall p | p in old(Free()) * Reach(region) :: r.value / PAGE_SIZE <= p)
                        && inUse.Set() == old(inUse.Set()) + {r.value / PAGE_SIZE}
      ensures r.Err? ==> inUse.Set() == old(inUse.Set())
    {
      hide Indices, AlignUp, PageAddress;
      var start := AlignUp(region.start);
      if start.None? {
        return Err(AddressOverflow);
      }
      var hi := PageAddress(region.End()) / PAGE_SIZE;
      ghost var free := Free();
      var page := FindIn(start.value / PAGE_SIZE, if hi < Aperture() then hi else Aperture());
      assert Free() == free;
      if page.None? {
        return Err(Exhausted);
      }
      inUse.SetBit(page.value, true);
      return Ok(page.value * PAGE_SIZE);
    }

    method ReleaseSpan(lo: nat, end: nat) returns (released: nat)
      requires Valid() && end <= Aperture()
      modifies inUse, inUse.bits
      ensures Valid() && released == |old(inUse.Set()) * Interval(lo, end)|
      ensures inUse.Set() == old(inUse.Set()) - Interval(lo, end)
    {
      hide Indices, Interval;
      var page := lo;
      released := 0;
      ghost var was := inUse.Set();
      IntervalEmpty(lo);
      while page < end
        invariant Valid() && lo <= page && (page <= end || page == lo)
        invariant inUse.Set() == was - Interval(lo, page) && was <= managed.Set()
        invariant released == |was * Interval(lo, page)|
      {
        ReleaseOne(was, lo, page);
        if managed.IsSet(page) && inUse.IsSet(page) {
          inUse.SetBit(page, false);
          released := released + 1;
        }
        page := page + 1;
      }
      IntervalNone(lo, page, end);
    }

    /** Every page wholly inside the region becomes unused if it is managed. */
    method Release(region: PhysRegion) returns (r: Result<nat, AllocatorError>)
      requires Valid()
      modifies inUse, inUse.bits
      ensures Valid()
      ensures LowPage(region).None? ==> r == Err(AddressOverflow) && inUse.Set() == old(inUse.Set())
      ensures LowPage(region).Some? ==>
                r == Ok(|old(inUse.Set()) * Reach(region)|) && inUse.Set() == old(inUse.Set()) - Reach(region)
    {
      hide Indices, Interval, AlignUp, PageAddress;
      var start := AlignUp(region.start);
      if start.None? {
        return Err(AddressOverflow);
      }
      var hi := PageAddress(region.End()) / PAGE_SIZE;
      var released := ReleaseSpan(start.value / PAGE_SIZE, if hi < Aperture() then hi else Aperture());
      return Ok(released);
    }

    /** The three states partition the RAM pages. With more managed pages than RAM pages there is no
        such partition: the subtraction underflows. */
    method GetStats() returns (r: Option<Stats>)
      requires Valid()
      ensures r.None? <==> |managed.Set()| > ramPages
      ensures r.Some? ==> r.value.reserved + r.value.inUse + r.value.unused == r.value.ram == ramPages
      ensures r.Some? ==> && r.value.inUse == |inUse.Set()| && r.value.unused == |Free()|
                          && r.value.reserved == ramPages - |managed.Set()|
    {
      hide Indices;
      SubsetSize(inUse.Set(), managed.Set());
      if managed.setPages > ramPages {
        return None;
      }
      var unused := managed.setPages - inUse.setPages;
      return Some(Stats(ramPages, ramPages - managed.setPages, inUse.setPages, unused));
    }

    method Mark(start: nat, count: nat)
      requires Valid() && FreeRun(Free(), start, count) && start + count <= Aperture()
      modifies inUse, inUse.bits
      ensures Valid() && inUse.Set() == old(inUse.Set()) + Interval(start, start + count)
    {
      hide Indices, Interval;
      IntervalEmpty(start);
      ghost var free, was := Free(), inUse.Set();
      for page := start to start + count
        invariant Valid() && inUse.Set() == was + Interval(start, page) && free <= managed.Set()
      {
        AddOne(was, start, page);
        assert page in free;
        inUse.SetBit(page, true);
      }
    }
  }

  lemma SubsetSize(s: set<nat>, t: set<nat>)
    requires s <= t
    ensures |s| <= |t| && |t - s| == |t| - |s|
  {
    assert t == s + (t - s);
  }

  /** A run that ends right after `index` would have to include the page before `from`. */
  lemma NoRunEndsAt(free: set<nat>, index: nat, pages: nat, from: nat)
    requires from <= index + 1 && index + 1 - from < pages && (from == 0 || from - 1 !in free)
    ensures forall s: nat | s + pages == index + 1 :: !FreeRun(free, s, pages)
  {
    forall s: nat | s + pages == index + 1
      ensures !FreeRun(free, s, pages)
    {
      assert s <= from - 1 < s + pages;
    }
  }
}
