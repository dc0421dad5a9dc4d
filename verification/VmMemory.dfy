/** The memory a VM owns, as a list of entries. */
module VmMemory {
  import opened Descriptor
  import opened PageTree
  import opened PageAllocators

  /** 512 MiB of guest RAM and 2 MiB for stage-2 tables, in pages. */
  const MAX_GUEST_MEM_PAGES: nat := 0x2020_0000 / PAGE_SIZE

  datatype Usage = GuestRam | Image | Scratch | Stack | Dtb | Guard | Stage2Table

  datatype VmMem =
    | IpaOnly(usage: Usage, ipa: nat, size: nat)
    | IpaPa(usage: Usage, ipa: nat, pa: nat, size: nat)
    | PaOnly(usage: Usage, pas: seq<nat>)

  function PhysicalPages(m: VmMem): nat {
    match m
    case IpaOnly(_, _, _) => 0
    case IpaPa(_, _, _, size) => size / PAGE_SIZE
    case PaOnly(_, pas) => |pas|
  }

  function Total(ms: seq<VmMem>): nat {
    if ms == [] then 0 else Total(ms[..|ms| - 1]) + PhysicalPages(ms[|ms| - 1])
  }

  /** The indices of the pages an entry holds. */
  ghost function EntryPages(m: VmMem): set<nat> {
    match m
    case IpaOnly(_, _, _) => {}
    case IpaPa(_, _, pa, size) => Interval(pa / PAGE_SIZE, pa / PAGE_SIZE + size / PAGE_SIZE)
    case PaOnly(_, pas) => Frames(pas)
  }

  ghost function Frames(pas: seq<nat>): set<nat> {
    if pas == [] then {} else Frames(pas[..|pas| - 1]) + {pas[|pas| - 1] / PAGE_SIZE}
  }

  ghost function OwnedPages(ms: seq<VmMem>): set<nat> {
    if ms == [] then {} else OwnedPages(ms[..|ms| - 1]) + EntryPages(ms[|ms| - 1])
  }

  predicate IpaApart(a: VmMem, b: VmMem) {
    a.PaOnly? || b.PaOnly? || a.ipa + a.size <= b.ipa || b.ipa + b.size <= a.ipa
  }

  predicate EntryOk(m: VmMem) {
    match m
    case IpaOnly(usage, ipa, size) => usage == Guard && IpaOk(ipa, size)
    case IpaPa(usage, ipa, pa, size) =>
      usage != Guard && usage != Stage2Table && IpaOk(ipa, size) && pa % PAGE_SIZE == 0
    case PaOnly(usage, pas) =>
      && usage == Stage2Table && |pas| > 0
      && (forall k | 0 <= k < |pas| :: pas[k] % PAGE_SIZE == 0)
      && (forall j, k | 0 <= j < k < |pas| :: pas[j] != pas[k])
  }

  /** A guest range: aligned, not empty, and below the limit. */
  predicate IpaFits(ipa: nat, size: nat) {
    ipa % PAGE_SIZE == 0 && size > 0 && ipa + size <= VA_LIMIT
  }

  predicate IpaOk(ipa: nat, size: nat) {
    IpaFits(ipa, size) && size % PAGE_SIZE == 0
  }

  /** Two entries share no page, no usage and no guest address. */
  ghost predicate Separate(a: VmMem, b: VmMem) {
    EntryPages(a) !! EntryPages(b) && a.usage != b.usage && IpaApart(a, b)
  }

  /** What every VM keeps: well-formed entries on pages in use, pairwise separate, within budget. */
  ghost predicate Owns(ms: seq<VmMem>, inUse: set<nat>) {
    && (forall k | 0 <= k < |ms| :: EntryOk(ms[k]) && EntryPages(ms[k]) <= inUse)
    && (forall j, k | 0 <= j < k < |ms| :: Separate(ms[j], ms[k]))
    && Total(ms) <= MAX_GUEST_MEM_PAGES
  }

  lemma {:induction false} OwnedMember(ms: seq<VmMem>, p: nat)
    ensures p in OwnedPages(ms) <==> exists k :: 0 <= k < |ms| && p in EntryPages(ms[k])
  {
    hide EntryPages;
    if ms != [] {
      var init := ms[..|ms| - 1];
      OwnedMember(init, p);
      if p in OwnedPages(init) {
        var k :| 0 <= k < |init| && p in EntryPages(init[k]);
        assert p in EntryPages(ms[k]);
      }
      if k :| 0 <= k < |ms| && p in EntryPages(ms[k]) {
        assert k < |init| ==> p in EntryPages(init[k]);
      }
    }
  }

  lemma {:induction false} FrameMember(pas: seq<nat>, p: nat)
    ensures p in Frames(pas) <==> exists k :: 0 <= k < |pas| && pas[k] / PAGE_SIZE == p
  {
    if pas != [] {
      var init := pas[..|pas| - 1];
      FrameMember(init, p);
      if p in Frames(init) {
        var k :| 0 <= k < |init| && init[k] / PAGE_SIZE == p;
        assert pas[k] / PAGE_SIZE == p;
      }
      if k :| 0 <= k < |pas| && pas[k] / PAGE_SIZE == p {
        assert k < |init| ==> init[k] / PAGE_SIZE == p;
      }
    }
  }

  /** The number of pages owned is the sum the source keeps: no page is held twice. */
  lemma {:induction false} OwnedSize(ms: seq<VmMem>, inUse: set<nat>)
    requires Owns(ms, inUse)
    ensures |OwnedPages(ms)| == Total(ms)
  {
    hide EntryPages, EntryOk, PhysicalPages, IpaApart;
    if ms != [] {
      var init, last := ms[..|ms| - 1], ms[|ms| - 1];
      OwnsPrefix(ms, inUse);
      OwnedSize(init, inUse);
      EntrySize(last);
      forall p | p in OwnedPages(init)
        ensures p !in EntryPages(last)
      {
        OwnedMember(init, p);
        var k :| 0 <= k < |init| && p in EntryPages(init[k]);
        assert Separate(ms[k], ms[|ms| - 1]);
      }
      assert OwnedPages(init) !! EntryPages(last);
    }
  }

  lemma OwnsPrefix(ms: seq<VmMem>, inUse: set<nat>)
    requires Owns(ms, inUse) && ms != []
    ensures Owns(ms[..|ms| - 1], inUse)
  {
    hide EntryPages, EntryOk, Separate, PhysicalPages;
  }

  lemma EntrySize(m: VmMem)
    requires EntryOk(m)
    ensures |EntryPages(m)| == PhysicalPages(m)
  {
    match m
    case IpaOnly(_, _, _) =>
    case IpaPa(_, _, pa, size) => IntervalSize(pa / PAGE_SIZE, pa / PAGE_SIZE + size / PAGE_SIZE);
    case PaOnly(_, pas) => FramesSize(pas);
  }

  lemma {:induction false} FramesSize(pas: seq<nat>)
    requires forall k | 0 <= k < |pas| :: pas[k] % PAGE_SIZE == 0
    requires forall j, k | 0 <= j < k < |pas| :: pas[j] != pas[k]
    ensures |Frames(pas)| == |pas|
  {
    if pas != [] {
      var init, last := pas[..|pas| - 1], pas[|pas| - 1];
      FramesSize(init);
      FrameMember(init, last / PAGE_SIZE);
      assert last / PAGE_SIZE !in Frames(init);
    }
  }

  // Adding an entry, and adding a table page.

  lemma OwnedInUse(ms: seq<VmMem>, inUse: set<nat>)
    requires Owns(ms, inUse)
    ensures OwnedPages(ms) <= inUse && Total(ms) <= MAX_GUEST_MEM_PAGES
  {
    hide EntryPages, EntryOk, Separate, OwnedPages;
    forall p | p in OwnedPages(ms)
      ensures p in inUse
    {
      OwnedMember(ms, p);
    }
  }

  lemma OwnedSnoc(ms: seq<VmMem>, m: VmMem)
    ensures OwnedPages(ms + [m]) == OwnedPages(ms) + EntryPages(m)
    ensures Total(ms + [m]) == Total(ms) + PhysicalPages(m)
  {
    hide EntryPages, PhysicalPages;
    assert (ms + [m])[..|ms|] == ms;
  }

  /** Taking `more` pages changes nothing about the pages that are not owned. */
  lemma OthersKept(inUse: set<nat>, owned: set<nat>, more: set<nat>)
    requires owned <= inUse && more !! inUse
    ensures (inUse + more) - (owned + more) == inUse - owned
  {
  }

  lemma OwnsSnoc(ms: seq<VmMem>, m: VmMem, inUse: set<nat>)
    requires Owns(ms, inUse) && EntryOk(m) && EntryPages(m) !! inUse
    requires Total(ms) + PhysicalPages(m) <= MAX_GUEST_MEM_PAGES
    requires forall k | 0 <= k < |ms| :: ms[k].usage != m.usage && IpaApart(ms[k], m)
    ensures Owns(ms + [m], inUse + EntryPages(m))
    ensures (inUse + EntryPages(m)) - OwnedPages(ms + [m]) == inUse - OwnedPages(ms)
  {
    hide EntryPages, EntryOk, PhysicalPages, IpaApart, OwnedPages, Total;
    OwnedInUse(ms, inUse);
    OwnedSnoc(ms, m);
    OthersKept(inUse, OwnedPages(ms), EntryPages(m));
    SnocSeparate(ms, m, inUse);
  }

  lemma SnocSeparate(ms: seq<VmMem>, m: VmMem, inUse: set<nat>)
    requires Owns(ms, inUse) && EntryPages(m) !! inUse
    requires forall k | 0 <= k < |ms| :: ms[k].usage != m.usage && IpaApart(ms[k], m)
    ensures forall j, k | 0 <= j < k < |ms + [m]| :: Separate((ms + [m])[j], (ms + [m])[k])
  {
    hide EntryPages, EntryOk, IpaApart, Total;
    forall j | 0 <= j < |ms|
      ensures Separate(ms[j], m)
    {
      assert EntryPages(ms[j]) <= inUse;
    }
  }

  function Grown(ms: seq<VmMem>, t: nat, pa: nat): seq<VmMem>
    requires t < |ms| && ms[t].PaOnly?
  {
    ms[t := PaOnly(ms[t].usage, ms[t].pas + [pa])]
  }

  /** Only the list of table pages differs. */
  predicate KeepsRam(ms: seq<VmMem>, ms': seq<VmMem>) {
    |ms'| == |ms| && forall k | 0 <= k < |ms| :: if ms[k].PaOnly? then ms'[k].PaOnly? else ms'[k] == ms[k]
  }

  lemma GrownKeepsRam(ms: seq<VmMem>, t: nat, pa: nat)
    requires t < |ms| && ms[t].PaOnly?
    ensures KeepsRam(ms, Grown(ms, t, pa))
  {
  }

  lemma {:induction false} GrownTotal(ms: seq<VmMem>, t: nat, pa: nat)
    requires t < |ms| && ms[t].PaOnly?
    ensures Total(Grown(ms, t, pa)) == Total(ms) + 1
  {
    var init := ms[..|ms| - 1];
    if t < |ms| - 1 {
      GrownTotal(init, t, pa);
      assert Grown(ms, t, pa)[..|ms| - 1] == Grown(init, t, pa);
    } else {
      assert Grown(ms, t, pa)[..|ms| - 1] == init;
    }
  }

  lemma GrownEntry(m: VmMem, pa: nat)
    requires m.PaOnly?
    ensures EntryPages(PaOnly(m.usage, m.pas + [pa])) == EntryPages(m) + {pa / PAGE_SIZE}
  {
    assert (m.pas + [pa])[..|m.pas|] == m.pas;
  }

  lemma OwnsGrown(ms: seq<VmMem>, t: nat, pa: nat, inUse: set<nat>)
    requires Owns(ms, inUse) && t < |ms| && ms[t].PaOnly? && Total(ms) < MAX_GUEST_MEM_PAGES
    requires pa % PAGE_SIZE == 0 && pa / PAGE_SIZE !in inUse
    ensures Owns(Grown(ms, t, pa), inUse + {pa / PAGE_SIZE})
    ensures (inUse + {pa / PAGE_SIZE}) - OwnedPages(Grown(ms, t, pa)) == inUse - OwnedPages(ms)
  {
    hide EntryPages, PhysicalPages, EntryOk, OwnedPages, Total, IpaApart;
    GrownTotal(ms, t, pa);
    GrownEntry(ms[t], pa);
    FreshFrame(ms[t], pa, inUse);
    GrownSeparate(ms, t, pa, inUse);
    OwnedInUse(ms, inUse);
    OwnedGrown(ms, t, pa);
    OthersKept(inUse, OwnedPages(ms), {pa / PAGE_SIZE});
  }

  lemma GrownSeparate(ms: seq<VmMem>, t: nat, pa: nat, inUse: set<nat>)
    requires Owns(ms, inUse) && t < |ms| && ms[t].PaOnly? && pa / PAGE_SIZE !in inUse
    ensures var ms' := Grown(ms, t, pa); forall j, k | 0 <= j < k < |ms'| :: Separate(ms'[j], ms'[k])
  {
    hide EntryPages, EntryOk, Total;
    var ms' := Grown(ms, t, pa);
    GrownEntry(ms[t], pa);
    forall j, k | 0 <= j < k < |ms'|
      ensures Separate(ms'[j], ms'[k])
    {
      assert Separate(ms[j], ms[k]) && EntryPages(ms[j]) <= inUse && EntryPages(ms[k]) <= inUse;
    }
  }

  lemma OwnedGrown(ms: seq<VmMem>, t: nat, pa: nat)
    requires t < |ms| && ms[t].PaOnly?
    ensures OwnedPages(Grown(ms, t, pa)) == OwnedPages(ms) + {pa / PAGE_SIZE}
  {
    hide OwnedPages, Grown;
    forall p
      ensures p in OwnedPages(Grown(ms, t, pa)) <==> p in OwnedPages(ms) || p == pa / PAGE_SIZE
    {
      GrownOwned(ms, t, pa, p);
    }
  }

  lemma FreshFrame(m: VmMem, pa: nat, inUse: set<nat>)
    requires m.PaOnly? && EntryOk(m) && EntryPages(m) <= inUse && pa % PAGE_SIZE == 0 && pa / PAGE_SIZE !in inUse
    ensures EntryOk(PaOnly(m.usage, m.pas + [pa]))
  {
    forall k | 0 <= k < |m.pas|
      ensures m.pas[k] != pa
    {
      FrameMember(m.pas, m.pas[k] / PAGE_SIZE);
    }
  }

  lemma GrownOwned(ms: seq<VmMem>, t: nat, pa: nat, p: nat)
    requires t < |ms| && ms[t].PaOnly?
    ensures p in OwnedPages(Grown(ms, t, pa)) <==> p in OwnedPages(ms) || p == pa / PAGE_SIZE
  {
    hide EntryPages;
    var ms' := Grown(ms, t, pa);
    GrownEntry(ms[t], pa);
    OwnedMember(ms, p);
    OwnedMember(ms', p);
    if k :| 0 <= k < |ms| && p in EntryPages(ms[k]) {
      assert p in EntryPages(ms'[k]);
    }
    if k :| 0 <= k < |ms'| && p in EntryPages(ms'[k]) {
      assert k != t ==> p in EntryPages(ms[k]);
    }
    assert p == pa / PAGE_SIZE ==> p in EntryPages(ms'[t]);
  }

  // Entries built from a run of pages.

  /** Page addresses `pa`, `pa + PAGE_SIZE`, ... */
  function PageRun(pa: nat, pages: nat): (s: seq<nat>)
    ensures |s| == pages && forall k | 0 <= k < pages :: s[k] == pa + k * PAGE_SIZE
  {
    seq(pages, k requires 0 <= k < pages => pa + k * PAGE_SIZE)
  }

  lemma {:induction false} RunFrames(pa: nat, pages: nat)
    requires pa % PAGE_SIZE == 0
    ensures Frames(PageRun(pa, pages)) == Interval(pa / PAGE_SIZE, pa / PAGE_SIZE + pages)
  {
    var run := PageRun(pa, pages);
    if pages == 0 {
      IntervalEmpty(pa / PAGE_SIZE);
    } else {
      RunFrames(pa, pages - 1);
      assert run[..pages - 1] == PageRun(pa, pages - 1);
      IntervalStep(pa / PAGE_SIZE, pa / PAGE_SIZE + pages - 1);
      assert (pa + (pages - 1) * PAGE_SIZE) / PAGE_SIZE == pa / PAGE_SIZE + pages - 1;
    }
  }

  lemma RunEntry(pa: nat, pages: nat)
    requires pa % PAGE_SIZE == 0 && pages > 0
    ensures EntryOk(PaOnly(Stage2Table, PageRun(pa, pages)))
  {
  }

  /** Guest addresses `[ipa, ipa + size)` are clear of the entry. */
  predicate IpaClear(m: VmMem, ipa: nat, size: nat) {
    m.PaOnly? || m.ipa + m.size <= ipa || ipa + size <= m.ipa
  }
}
