/** Identity-mapping regions around unordered, possibly overlapping exclusions. */
module IdentityMaps {
  import opened Wrappers
  import opened Bits
  import opened Descriptor
  import opened PageTree
  import opened Regions
  import S1 = Stage1
  import opened Stage1Refinement
  import opened Stage1Theorems
  import opened Stage1Blocks
  import opened TableSets

  datatype PrepareError = Validation | AddressOverflow | Table(error: S1.TranslationError)

  datatype Outcome = Done | Failed(error: PrepareError)

  /** The pages wholly inside a region. */
  predicate Inside(r: PhysRegion, va: nat) {
    AlignUp(r.start).Some? && AlignUp(r.start).value <= va < PageAddress(r.End())
  }

  /** The pages an exclusion touches. The scan ignores an exclusion whose end cannot be rounded up. */
  predicate Excludes(e: PhysRegion, va: nat) {
    AlignUp(e.End()).Some? && PageAddress(e.start) <= va < AlignUp(e.End()).value
  }

  ghost predicate Excluded(es: seq<PhysRegion>, va: nat) {
    exists k :: 0 <= k < |es| && Excludes(es[k], va)
  }

  ghost predicate Wanted(rs: seq<PhysRegion>, es: seq<PhysRegion>, va: nat) {
    (exists k :: 0 <= k < |rs| && Inside(rs[k], va)) && !Excluded(es, va)
  }

  /** Whatever translated still does so; what changed lies in `may` and is an identity mapping with
      `attr`; everything in `must` is identity-mapped with `attr`. */
  ghost predicate Mapped(before: S1.Tables, after: S1.Tables, attr: Attributes, must: iset<nat>, may: iset<nat>)
    requires S1.Shaped(before) && S1.Shaped(after)
  {
    && (forall va: nat | va < VA_LIMIT && !Unmapped(before, va) :: S1.Walk(after, va) == S1.Walk(before, va))
    && (forall va: nat | va < VA_LIMIT && S1.Walk(after, va) != S1.Walk(before, va) ::
          va in may && Translates(after, va, va, attr))
    && (forall va: nat | va in must :: Translates(after, va, va, attr))
  }

  predicate InSpan(lo: nat, hi: nat, va: nat) {
    lo <= va < hi
  }

  ghost function Span(lo: nat, hi: nat): iset<nat> {
    iset va: nat | InSpan(lo, hi, va)
  }

  lemma MapMore(t0: S1.Tables, t: S1.Tables, attr: Attributes, must: iset<nat>, may: iset<nat>, lo: nat, hi: nat)
    requires S1.Shaped(t0) && S1.Shaped(t) && Valid(t) && lo < hi && Mapped(t0, t, attr, must, may)
    ensures var (t', r) := S1.Map(t, S1.Mapping(lo, lo, hi - lo, attr));
            Valid(t') && Mapped(t0, t', attr, if r.Ok? then must + Span(lo, hi) else must, may + Span(lo, hi))
  {
    hide S1.Walk, S1.Map, Valid;
    var m := S1.Mapping(lo, lo, hi - lo, attr);
    MapTheorem(t, m);
    if S1.Map(t, m).1.Ok? {
      MapBounds(t, m);
    }
    MustBounds(t0, t, attr, must, may);
    var (t', r) := S1.Map(t, m);
    forall va: nat | va in (if r.Ok? then must + Span(lo, hi) else must)
      ensures Translates(t', va, va, attr)
    {
      if va in must {
        assert S1.Walk(t', va) == S1.Walk(t, va);
      } else {
        assert InSpan(lo, hi, va) && InRange(m, va);
      }
    }
  }

  lemma MapBounds(t: S1.Tables, m: S1.Mapping)
    requires S1.Shaped(t) && S1.Map(t, m).1.Ok?
    ensures m.va + m.size <= VA_LIMIT
  {
    hide S1.MapFrom, Shl, Or;
  }

  lemma MustBounds(t0: S1.Tables, t: S1.Tables, attr: Attributes, must: iset<nat>, may: iset<nat>)
    requires S1.Shaped(t0) && S1.Shaped(t) && Mapped(t0, t, attr, must, may)
    ensures forall va: nat | va in must :: va < VA_LIMIT
  {
    hide S1.WalkFrom;
    forall va: nat | va in must
      ensures va < VA_LIMIT
    {
      assert Translates(t, va, va, attr);
    }
  }

  // The scan.

  /** The bounds of an exclusion that matters between `cursor` and `end`. */
  predicate Relevant(e: PhysRegion, cursor: nat, end: nat) {
    AlignUp(e.End()).Some? && AlignUp(e.End()).value > cursor && PageAddress(e.start) < end
  }

  /** The relevant exclusion that starts first. */
  method NextExclusion(es: seq<PhysRegion>, cursor: nat, end: nat) returns (r: Option<(nat, nat)>)
    ensures r.None? <==> forall k | 0 <= k < |es| :: !Relevant(es[k], cursor, end)
    ensures r.Some? ==> exists k :: 0 <= k < |es| && Relevant(es[k], cursor, end)
                                 && r.value == (PageAddress(es[k].start), AlignUp(es[k].End()).value)
    ensures r.Some? ==> forall k | 0 <= k < |es| && Relevant(es[k], cursor, end) ::
              r.value.0 <= PageAddress(es[k].start)
  {
    hide PageAddress, AlignUp;
    r := None;
    for i := 0 to |es|
      invariant r.None? <==> forall k | 0 <= k < i :: !Relevant(es[k], cursor, end)
      invariant r.Some? ==> exists k :: 0 <= k < i && Relevant(es[k], cursor, end)
                                     && r.value == (PageAddress(es[k].start), AlignUp(es[k].End()).value)
      invariant r.Some? ==> forall k | 0 <= k < i && Relevant(es[k], cursor, end) ::
                  r.value.0 <= PageAddress(es[k].start)
    {
      if Relevant(es[i], cursor, end) && (r.None? || PageAddress(es[i].start) < r.value.0) {
        r := Some((PageAddress(es[i].start), AlignUp(es[i].End()).value));
      }
    }
  }

  method MapIdentity(t: TableSet, start: nat, end: nat, writable: bool, executable: bool) returns (r: Outcome)
    requires t.WellShaped()
    modifies t, t.storage
    ensures t.WellShaped()
    ensures if start % PAGE_SIZE != 0 || end % PAGE_SIZE != 0 || start >= end
            then r == Failed(Validation) && t.State() == old(t.State())
            else var m := S1.Mapping(start, start, end - start, Attributes(Normal, writable, executable));
                 var (t', result) := S1.Map(old(t.State()), m);
                 t.State() == t' && r == if result.Ok? then Done else Failed(Table(result.error))
  {
    if !S1.IsPageAligned(start) || !S1.IsPageAligned(end) || start >= end {
      return Failed(Validation);
    }
    var result := t.Map(S1.Mapping(start, start, end - start, Attributes(Normal, writable, executable)));
    return if result.Ok? then Done else Failed(Table(result.error));
  }

  // The address sets the scan works through.

  /** Below `cursor` in region `r`, the addresses no exclusion touches. */
  ghost function Finished(es: seq<PhysRegion>, start: nat, cursor: nat): iset<nat> {
    iset va: nat | InSpan(start, cursor, va) && !Excluded(es, va)
  }

  ghost function WantedSet(rs: seq<PhysRegion>, es: seq<PhysRegion>): iset<nat> {
    iset va: nat | Wanted(rs, es, va)
  }

  /** Nothing between the cursor and the next exclusion is excluded. */
  lemma GapIsFree(es: seq<PhysRegion>, start: nat, cursor: nat, hi: nat, end: nat)
    requires start <= cursor <= hi <= end
    requires forall k | 0 <= k < |es| && Relevant(es[k], cursor, end) :: hi <= PageAddress(es[k].start)
    ensures Finished(es, start, hi) == Finished(es, start, cursor) + Span(cursor, hi)
  {
    hide PageAddress, AlignUp;
    forall va: nat | InSpan(cursor, hi, va)
      ensures !Excluded(es, va)
    {
      assert forall k | 0 <= k < |es| && Excludes(es[k], va) :: Relevant(es[k], cursor, end);
    }
  }

  /** Everything inside an exclusion is excluded. */
  lemma SkipIsExcluded(es: seq<PhysRegion>, start: nat, cursor: nat, hi: nat, k: nat)
    requires k < |es| && start <= cursor <= hi && AlignUp(es[k].End()).Some?
    requires PageAddress(es[k].start) <= cursor && hi <= AlignUp(es[k].End()).value
    ensures Finished(es, start, hi) == Finished(es, start, cursor)
  {
    hide PageAddress, AlignUp;
    forall va: nat | InSpan(cursor, hi, va)
      ensures Excluded(es, va)
    {
      assert Excludes(es[k], va);
    }
  }

  lemma NextRegion(rs: seq<PhysRegion>, es: seq<PhysRegion>, i: nat, start: nat)
    requires i < |rs| && AlignUp(rs[i].start) == Some(start)
    ensures WantedSet(rs[..i + 1], es)
         == WantedSet(rs[..i], es) + Finished(es, start, PageAddress(rs[i].End()))
  {
    hide PageAddress, AlignUp, Excluded;
    forall va: nat
      ensures Wanted(rs[..i + 1], es, va) <==>
                Wanted(rs[..i], es, va) || va in Finished(es, start, PageAddress(rs[i].End()))
    {
      if Wanted(rs[..i], es, va) {
        var k :| 0 <= k < i && Inside(rs[..i][k], va);
        assert Inside(rs[..i + 1][k], va);
      }
      if va in Finished(es, start, PageAddress(rs[i].End())) {
        assert Inside(rs[..i + 1][i], va);
      }
      if Wanted(rs[..i + 1], es, va) {
        var k :| 0 <= k < i + 1 && Inside(rs[..i + 1][k], va);
        assert k < i ==> Inside(rs[..i][k], va);
      }
    }
  }

  lemma Weaken(
    t0: S1.Tables, t: S1.Tables, attr: Attributes, must: iset<nat>, may: iset<nat>, must': iset<nat>, may': iset<nat>)
    requires S1.Shaped(t0) && S1.Shaped(t) && Mapped(t0, t, attr, must, may)
    requires must' <= must && may <= may'
    ensures Mapped(t0, t, attr, must', may')
  {
    hide S1.Walk;
  }

  lemma FinishedWithin(es: seq<PhysRegion>, start: nat, cursor: nat, end: nat)
    requires cursor <= end
    ensures Finished(es, start, cursor) <= Finished(es, start, end)
  {
    hide Excluded;
  }

  lemma WantedPrefix(rs: seq<PhysRegion>, es: seq<PhysRegion>, i: nat)
    requires i <= |rs|
    ensures WantedSet(rs[..i], es) <= WantedSet(rs, es)
  {
    hide Inside, Excluded;
    forall va: nat | Wanted(rs[..i], es, va)
      ensures Wanted(rs, es, va)
    {
      var k :| 0 <= k < i && Inside(rs[..i][k], va);
      assert Inside(rs[k], va);
    }
  }

  // The loops.

  /** A single identity mapping was made, with this result. */
  ghost predicate IsOneMap(before: S1.Tables, lo: nat, hi: nat, attr: Attributes, after: S1.Tables, r: Outcome) {
    && S1.Shaped(before) && lo < hi
    && S1.Map(before, S1.Mapping(lo, lo, hi - lo, attr)).0 == after
    && (r.Done? <==> S1.Map(before, S1.Mapping(lo, lo, hi - lo, attr)).1.Ok?)
  }

  /** Map one stretch on top of what is already done. */
  method MapStretch(
    t: TableSet, ghost before: S1.Tables, ghost done: iset<nat>, lo: nat, hi: nat, writable: bool, executable: bool)
    returns (r: Outcome)
    requires t.WellShaped() && S1.Shaped(before) && Valid(t.State())
    requires lo < hi && lo % PAGE_SIZE == 0 && hi % PAGE_SIZE == 0
    requires Mapped(before, t.State(), Attributes(Normal, writable, executable), done, done)
    modifies t, t.storage
    ensures t.WellShaped() && Valid(t.State())
    ensures Mapped(before, t.State(), Attributes(Normal, writable, executable),
                   if r.Done? then done + Span(lo, hi) else done, done + Span(lo, hi))
    ensures IsOneMap(old(t.State()), lo, hi, Attributes(Normal, writable, executable), t.State(), r)
  {
    hide S1.Walk, S1.Map, Valid, Mapped, S1.Shaped;
    MapMore(before, t.State(), Attributes(Normal, writable, executable), done, done, lo, hi);
    r := MapIdentity(t, lo, hi, writable, executable);
  }

  /** One region: walk the cursor from exclusion to exclusion. */
  method MapRegion(t: TableSet, ghost before: S1.Tables, ghost done: iset<nat>, start: nat, end: nat,
                   es: seq<PhysRegion>, writable: bool, executable: bool)
    returns (r: Outcome)
    requires t.WellShaped() && S1.Shaped(before) && Valid(t.State())
    requires start % PAGE_SIZE == 0 && end % PAGE_SIZE == 0
    requires Mapped(before, t.State(), Attributes(Normal, writable, executable), done, done)
    modifies t, t.storage
    ensures t.WellShaped() && Valid(t.State())
    ensures Mapped(before, t.State(), Attributes(Normal, writable, executable),
                   if r.Done? then done + Finished(es, start, end) else iset{}, done + Finished(es, start, end))
    ensures start < end && (forall k | 0 <= k < |es| :: !Relevant(es[k], start, end)) ==>
              IsOneMap(old(t.State()), start, end, Attributes(Normal, writable, executable), t.State(), r)
  {
    hide S1.Walk, S1.Map, Valid, Mapped, S1.Shaped, PageAddress, AlignUp, Excluded;
    ghost var attr := Attributes(Normal, writable, executable);
    var cursor := start;
    assert done + Finished(es, start, cursor) == done;
    while cursor < end
      invariant t.WellShaped() && S1.Shaped(before) && Valid(t.State()) && cursor % PAGE_SIZE == 0
      invariant start <= cursor && (cursor <= end || cursor == start)
      invariant (forall k | 0 <= k < |es| :: !Relevant(es[k], start, end)) ==> cursor == start
      invariant cursor == start ==> t.State() == old(t.State())
      invariant Mapped(before, t.State(), attr, done + Finished(es, start, cursor), done + Finished(es, start, cursor))
      decreases end - cursor
    {
      ghost var so := done + Finished(es, start, cursor);
      var next := NextExclusion(es, cursor, end);
      var hi: nat := if next.Some? && next.value.0 < end then next.value.0 else end;
      if hi > cursor {
        GapIsFree(es, start, cursor, hi, end);
        assert so + Span(cursor, hi) == done + Finished(es, start, hi);
        FinishedWithin(es, start, hi, end);
        r := MapStretch(t, before, so, cursor, hi, writable, executable);
        if r.Failed? {
          Weaken(before, t.State(), attr, so, so + Span(cursor, hi), iset{}, done + Finished(es, start, end));
          return;
        }
      }
      if next.None? {
        return;
      }
      ghost var k :| 0 <= k < |es| && Relevant(es[k], cursor, end)
                  && next.value == (PageAddress(es[k].start), AlignUp(es[k].End()).value);
      ghost var reached := if hi > cursor then hi else cursor;
      cursor := if next.value.1 < cursor then cursor else if next.value.1 < end then next.value.1 else end;
      SkipIsExcluded(es, start, reached, cursor, k);
    }
    assert Finished(es, start, cursor) == Finished(es, start, end);
    return Done;
  }

  // What the exclusions mean.

  /** Some byte of the page at `page` belongs to the region. */
  ghost predicate Meets(e: PhysRegion, page: nat) {
    exists a: nat :: e.Contains(a) && page <= a < page + PAGE_SIZE
  }

  /** Every byte of the page belongs to the region. */
  ghost predicate Holds(r: PhysRegion, page: nat) {
    forall a: nat | page <= a < page + PAGE_SIZE :: r.Contains(a)
  }

  /** Rounding inward keeps the whole pages of a region. */
  lemma InsideIsWholePages(r: PhysRegion, page: nat)
    requires page % PAGE_SIZE == 0
    ensures Inside(r, page) <==> Holds(r, page)
  {
    hide PageAddress, AlignUp;
    if Holds(r, page) {
      assert r.Contains(page) && r.Contains(page + PAGE_SIZE - 1);
    }
  }

  /** Rounding outward keeps the pages that meet an exclusion, so a page is skipped exactly when it
      meets one, provided the end of the exclusion is a page below 2^64. */
  lemma ExcludesIsMeets(e: PhysRegion, page: nat)
    requires page % PAGE_SIZE == 0
    ensures Excludes(e, page) <==> Meets(e, page) && e.End() <= U64_LIMIT - PAGE_SIZE
  {
    hide PageAddress, AlignUp;
    if Excludes(e, page) {
      var a := if page < e.start then e.start else page;
      assert e.Contains(a);
    }
  }

  predicate Kept(e: PhysRegion) {
    e.End() <= U64_LIMIT - PAGE_SIZE
  }

  /** Page `page` of some region meets an exclusion the scan ignores and none that it keeps. */
  ghost predicate Exposed(rs: seq<PhysRegion>, es: seq<PhysRegion>, page: nat) {
    && page % PAGE_SIZE == 0
    && (exists i :: 0 <= i < |rs| && Holds(rs[i], page))
    && (exists k :: 0 <= k < |es| && Meets(es[k], page) && !Kept(es[k]))
    && (forall k | 0 <= k < |es| && Kept(es[k]) :: !Meets(es[k], page))
  }

  /** The pages to be mapped are the whole pages of the regions that no kept exclusion meets. */
  lemma WantedPage(rs: seq<PhysRegion>, es: seq<PhysRegion>, page: nat)
    requires page % PAGE_SIZE == 0
    ensures Wanted(rs, es, page) <==>
              && (exists i :: 0 <= i < |rs| && Holds(rs[i], page))
              && (forall k | 0 <= k < |es| && Kept(es[k]) :: !Meets(es[k], page))
  {
    hide Meets, Holds, Inside, Excludes;
    forall i | 0 <= i < |rs| ensures Inside(rs[i], page) <==> Holds(rs[i], page) {
      InsideIsWholePages(rs[i], page);
    }
    forall k | 0 <= k < |es| ensures Excludes(es[k], page) <==> Meets(es[k], page) && Kept(es[k]) {
      ExcludesIsMeets(es[k], page);
    }
  }

  /** Pages that meet exclusion `e` and were not translated are still not. */
  ghost predicate Spared(before: S1.Tables, after: S1.Tables, e: PhysRegion)
    requires S1.Shaped(before) && S1.Shaped(after)
  {
    forall page: nat | page % PAGE_SIZE == 0 && page < VA_LIMIT && Meets(e, page) && Unmapped(before, page) ::
      Unmapped(after, page)
  }

  /** The exclusions that the scan keeps are respected, whatever the outcome. */
  lemma KeptAreSpared(
    before: S1.Tables, after: S1.Tables, attr: Attributes, must: iset<nat>, rs: seq<PhysRegion>, es: seq<PhysRegion>)
    requires S1.Shaped(before) && S1.Shaped(after) && Mapped(before, after, attr, must, WantedSet(rs, es))
    ensures forall k | 0 <= k < |es| && Kept(es[k]) :: Spared(before, after, es[k])
  {
    hide S1.Walk, Meets, Holds, Wanted, Kept;
    forall k, page: nat | 0 <= k < |es| && Kept(es[k]) && page % PAGE_SIZE == 0 && page < VA_LIMIT
      && Meets(es[k], page) && Unmapped(before, page)
      ensures Unmapped(after, page)
    {
      WantedPage(rs, es, page);
      SameUnmapped(before, after, page);
    }
  }

  lemma SameUnmapped(before: S1.Tables, after: S1.Tables, va: nat)
    requires S1.Shaped(before) && S1.Shaped(after) && va < VA_LIMIT && Unmapped(before, va)
    ensures S1.Walk(after, va) == S1.Walk(before, va) ==> Unmapped(after, va)
  {
    hide S1.WalkFrom;
  }

  lemma TranslatedIsMapped(t: S1.Tables, va: nat, pa: nat, attr: Attributes)
    requires S1.Shaped(t) && va < VA_LIMIT && Translates(t, va, pa, attr)
    ensures !Unmapped(t, va)
  {
    hide S1.WalkFrom;
  }

  /** On success every exposed page is mapped to itself. So all exclusions are respected exactly when
      every exposed page was translated already; in particular when no page is exposed. */
  lemma SparedIff(
    before: S1.Tables, after: S1.Tables, attr: Attributes, rs: seq<PhysRegion>, es: seq<PhysRegion>)
    requires S1.Shaped(before) && S1.Shaped(after) && Mapped(before, after, attr, WantedSet(rs, es), WantedSet(rs, es))
    ensures forall page: nat | Exposed(rs, es, page) :: page < VA_LIMIT && Translates(after, page, page, attr)
    ensures (forall k | 0 <= k < |es| :: Spared(before, after, es[k]))
       <==> (forall page: nat | Exposed(rs, es, page) :: !Unmapped(before, page))
  {
    hide S1.Walk, Meets, Holds, Wanted, Kept;
    MustBounds(before, after, attr, WantedSet(rs, es), WantedSet(rs, es));
    forall page: nat | Exposed(rs, es, page)
      ensures page < VA_LIMIT && Translates(after, page, page, attr) && !Unmapped(after, page)
    {
      WantedPage(rs, es, page);
      assert page in WantedSet(rs, es);
      TranslatedIsMapped(after, page, page, attr);
    }
    if forall page: nat | Exposed(rs, es, page) :: !Unmapped(before, page) {
      forall k, page: nat | 0 <= k < |es| && page % PAGE_SIZE == 0 && page < VA_LIMIT
        && Meets(es[k], page) && Unmapped(before, page)
        ensures Unmapped(after, page)
      {
        WantedPage(rs, es, page);
        assert !Exposed(rs, es, page);
        SameUnmapped(before, after, page);
      }
    } else {
      var page: nat :| Exposed(rs, es, page) && Unmapped(before, page);
      var k :| 0 <= k < |es| && Meets(es[k], page) && !Kept(es[k]);
      assert !Spared(before, after, es[k]);
    }
  }

  // The whole list.

  /** A single region that meets no kept exclusion is one request. */
  predicate Unhindered(r: PhysRegion, es: seq<PhysRegion>) {
    && AlignUp(r.start).Some? && AlignUp(r.start).value < PageAddress(r.End())
    && forall k | 0 <= k < |es| :: !Relevant(es[k], AlignUp(r.start).value, PageAddress(r.End()))
  }

  /** On success exactly the wanted pages are identity-mapped and nothing else changes; on failure
      only wanted pages can have been mapped. */
  method MapIdentityRegionsExcluding(
    t: TableSet, rs: seq<PhysRegion>, es: seq<PhysRegion>, writable: bool, executable: bool)
    returns (r: Outcome)
    requires t.WellShaped() && Valid(t.State())
    modifies t, t.storage
    ensures t.WellShaped() && Valid(t.State())
    ensures Mapped(old(t.State()), t.State(), Attributes(Normal, writable, executable),
                   if r.Done? then WantedSet(rs, es) else iset{}, WantedSet(rs, es))
    ensures forall k | 0 <= k < |es| && Kept(es[k]) :: Spared(old(t.State()), t.State(), es[k])
    ensures r.Done? ==>
              && (forall page: nat | Exposed(rs, es, page) ::
                    page < VA_LIMIT && Translates(t.State(), page, page, Attributes(Normal, writable, executable)))
              && ((forall k | 0 <= k < |es| :: Spared(old(t.State()), t.State(), es[k]))
                  <==> (forall page: nat | Exposed(rs, es, page) :: !Unmapped(old(t.State()), page)))
    ensures |rs| == 1 && Unhindered(rs[0], es) ==>
              IsOneMap(old(t.State()), AlignUp(rs[0].start).value, PageAddress(rs[0].End()),
                       Attributes(Normal, writable, executable), t.State(), r)
  {
    hide S1.Walk, S1.Map, Valid, S1.Shaped, PageAddress, AlignUp, Excluded, Inside, Mapped, Wanted, WantedSet, Exposed,
      Spared, Kept, IsOneMap;
    ghost var before, attr := t.State(), Attributes(Normal, writable, executable);
    NothingWanted(before, attr, rs, es);
    for i := 0 to |rs|
      invariant t.WellShaped() && Valid(t.State()) && S1.Shaped(before)
      invariant i == 0 ==> t.State() == before
      invariant |rs| == 1 && Unhindered(rs[0], es) && i == 1 ==>
                  IsOneMap(before, AlignUp(rs[0].start).value, PageAddress(rs[0].End()), attr, t.State(), Done)
      invariant Mapped(before, t.State(), attr, WantedSet(rs[..i], es), WantedSet(rs[..i], es))
    {
      WantedPrefix(rs, es, i);
      WantedPrefix(rs, es, i + 1);
      var start := AlignUp(rs[i].start);
      if start.None? {
        Weaken(before, t.State(), attr, WantedSet(rs[..i], es), WantedSet(rs[..i], es), iset{}, WantedSet(rs, es));
        KeptAreSpared(before, t.State(), attr, iset{}, rs, es);
        return Failed(AddressOverflow);
      }
      NextRegion(rs, es, i, start.value);
      var end := PageAddress(rs[i].End());
      r := MapRegion(t, before, WantedSet(rs[..i], es), start.value, end, es, writable, executable);
      if r.Failed? {
        Weaken(before, t.State(), attr, iset{}, WantedSet(rs[..i + 1], es), iset{}, WantedSet(rs, es));
        KeptAreSpared(before, t.State(), attr, iset{}, rs, es);
        return;
      }
    }
    assert rs[..|rs|] == rs;
    KeptAreSpared(before, t.State(), attr, WantedSet(rs, es), rs, es);
    SparedIff(before, t.State(), attr, rs, es);
    return Done;
  }

  lemma NothingWanted(t: S1.Tables, attr: Attributes, rs: seq<PhysRegion>, es: seq<PhysRegion>)
    requires S1.Shaped(t)
    ensures Mapped(t, t, attr, WantedSet(rs[..0], es), WantedSet(rs[..0], es))
  {
    hide S1.Walk;
    assert WantedSet(rs[..0], es) == iset{};
  }

  /** An exclusion running into the last page of the address space is ignored: with room for four
      tables, the page it excludes is mapped into a new table set. */
  method IgnoredExclusion(storage: array2<nat>, base: nat, paBits: nat)
    returns (t: Result<TableSet, S1.TranslationError>)
    requires storage.Length1 == ENTRIES && storage.Length0 >= 5
    modifies storage
    ensures t.Ok? <==> S1.New(old(Rows(storage)), base, paBits).Ok?
    ensures t.Ok? ==> t.value.WellShaped() && Translates(t.value.State(), 0, 0, Attributes(Normal, true, false))
    ensures Meets(Region(0, U64_LIMIT - 1), 0)
  {
    hide S1.Walk, S1.Map, S1.New, Valid, Mapped, WantedSet, Spared, Rows;
    var rs: seq<PhysRegion>, es: seq<PhysRegion> := [Region(0, PAGE_SIZE)], [Region(0, U64_LIMIT - 1)];
    FirstPageExposed(rs, es);
    ghost var rows := Rows(storage);
    t := TableSet.Create(storage, base, paBits);
    if t.Ok? {
      NewTheorem(rows, base, paBits);
      FirstPageFits(t.value.State(), Attributes(Normal, true, false));
      FirstMapSucceeds(rows, base, paBits, S1.Mapping(0, 0, PAGE_SIZE, Attributes(Normal, true, false)));
      var r := MapIdentityRegionsExcluding(t.value, rs, es, true, false);
    }
  }

  lemma FirstPageFits(t: S1.Tables, attr: Attributes)
    requires S1.Shaped(t) && |t.pages| >= 5
    ensures S1.ValidateMapping(t, S1.Mapping(0, 0, PAGE_SIZE, attr)).Ok?
  {
    hide Shl, Or;
    S1.ValidatedMapping(t, S1.Mapping(0, 0, PAGE_SIZE, attr));
  }

  lemma FirstPageExposed(rs: seq<PhysRegion>, es: seq<PhysRegion>)
    requires rs == [Region(0, PAGE_SIZE)] && es == [Region(0, U64_LIMIT - 1)]
    ensures Exposed(rs, es, 0) && Unhindered(rs[0], es) && Meets(es[0], 0)
    ensures AlignUp(rs[0].start) == Some(0) && PageAddress(rs[0].End()) == PAGE_SIZE
  {
    assert es[0].Contains(0) && Meets(es[0], 0) && Holds(rs[0], 0);
  }
}
