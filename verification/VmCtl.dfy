/** VM memory control: allocation, stage-2 mapping and teardown. */
module VmControl {
  import opened Wrappers
  import opened Bits
  import opened Descriptor
  import opened PageTree
  import opened PageBitmaps
  import opened Regions
  import A = PageAllocators
  import opened PageAllocators
  import S1 = Stage1
  import opened Stage2Encoding
  import opened Stage2
  import opened VmMemory

  function FindUsage(ms: seq<VmMem>, usage: Usage): (r: Option<nat>)
    ensures r.Some? ==> r.value < |ms| && ms[r.value].usage == usage
    ensures r.None? ==> forall k | 0 <= k < |ms| :: ms[k].usage != usage
  {
    if ms == [] then None
    else
      match FindUsage(ms[..|ms| - 1], usage)
      case Some(k) => Some(k)
      case None => if ms[|ms| - 1].usage == usage then Some(|ms| - 1) else None
  }

  lemma FindUnique(ms: seq<VmMem>, usage: Usage, k: nat)
    requires k < |ms| && ms[k].usage == usage && forall i, j | 0 <= i < j < |ms| :: ms[i].usage != ms[j].usage
    ensures FindUsage(ms, usage) == Some(k)
  {
    hide FindUsage;
    assert FindUsage(ms, usage).Some?;
  }

  /** The tables in memory are those of the table entry, rooted at its first page. */
  ghost predicate TablesOk(ms: seq<VmMem>, mem: Memory, lv: map<nat, nat>) {
    match FindUsage(ms, Stage2Table)
    case None => lv == map[]
    case Some(t) =>
      && ms[t].PaOnly? && |ms[t].pas| > 0 && Inv(mem, lv, ms[t].pas[0])
      && forall p | p in lv :: p in ms[t].pas
  }

  lemma TablesGrown(ms: seq<VmMem>, mem: Memory, lv: map<nat, nat>, t: nat, c: nat)
    requires TablesOk(ms, mem, lv) && FindUsage(ms, Stage2Table) == Some(t) && c !in ms[t].pas
    requires forall i, j | 0 <= i < j < |ms| :: ms[i].usage != ms[j].usage
    ensures ms[t].PaOnly? && FindUsage(Grown(ms, t, c), Stage2Table) == Some(t)
    ensures TablesOk(Grown(ms, t, c), mem[c := ZeroPage()], lv)
    ensures Inv(mem, lv, ms[t].pas[0]) && Inv(mem[c := ZeroPage()], lv, ms[t].pas[0])
    ensures View(mem[c := ZeroPage()], lv, ms[t].pas[0]) == View(mem, lv, ms[t].pas[0]) && c !in lv
  {
    hide Inv, View, FindUsage;
    FindUnique(Grown(ms, t, c), Stage2Table, t);
    OtherPage(mem, lv, ms[t].pas[0], c, ZeroPage());
  }

  /** One more table page keeps everything a VM relies on. */
  lemma GrownTables(ms: seq<VmMem>, mem: Memory, lv: map<nat, nat>, inUse: set<nat>, t: nat, c: nat)
    requires Owns(ms, inUse) && TablesOk(ms, mem, lv) && FindUsage(ms, Stage2Table) == Some(t)
    requires Total(ms) < MAX_GUEST_MEM_PAGES && c % PAGE_SIZE == 0 && c / PAGE_SIZE !in inUse
    ensures ms[t].PaOnly?
    ensures var ms', mem' := Grown(ms, t, c), mem[c := ZeroPage()];
            && Owns(ms', inUse + {c / PAGE_SIZE}) && TablesOk(ms', mem', lv) && KeepsRam(ms, ms')
            && (inUse + {c / PAGE_SIZE}) - OwnedPages(ms') == inUse - OwnedPages(ms)
            && FindUsage(ms', Stage2Table) == Some(t) && c !in lv
            && ms'[t].PaOnly? && c in ms'[t].pas && |ms[t].pas| > 0 && ms'[t].pas[0] == ms[t].pas[0]
            && Inv(mem, lv, ms[t].pas[0]) && Inv(mem', lv, ms[t].pas[0])
            && View(mem', lv, ms[t].pas[0]) == View(mem, lv, ms[t].pas[0])
  {
    hide Inv, View, FindUsage, EntryPages, Owns, TablesOk, KeepsRam, OwnedPages, Total;
    TableEntryAt(ms, mem, lv, inUse, t);
    FreshPage(ms[t], c, inUse);
    OwnsGrown(ms, t, c, inUse);
    TablesGrown(ms, mem, lv, t, c);
    GrownKeepsRam(ms, t, c);
  }

  lemma TableEntryAt(ms: seq<VmMem>, mem: Memory, lv: map<nat, nat>, inUse: set<nat>, t: nat)
    requires Owns(ms, inUse) && TablesOk(ms, mem, lv) && FindUsage(ms, Stage2Table) == Some(t)
    ensures ms[t].PaOnly? && |ms[t].pas| > 0 && EntryPages(ms[t]) <= inUse && Inv(mem, lv, ms[t].pas[0])
    ensures forall p | p in lv :: p in ms[t].pas
    ensures forall i, j | 0 <= i < j < |ms| :: ms[i].usage != ms[j].usage
  {
    hide EntryPages, EntryOk, IpaApart, FindUsage, Inv;
    assert forall i, j | 0 <= i < j < |ms| :: Separate(ms[i], ms[j]);
  }

  lemma TablesKept(ms: seq<VmMem>, mem: Memory, lv: map<nat, nat>, t: nat)
    requires FindUsage(ms, Stage2Table) == Some(t) && ms[t].PaOnly? && |ms[t].pas| > 0
    requires Inv(mem, lv, ms[t].pas[0]) && forall p | p in lv :: p in ms[t].pas
    ensures TablesOk(ms, mem, lv)
  {
    hide FindUsage, Inv;
  }

  // The effect of mapping.

  ghost predicate PageEffect(v: Tree<nat>, w: Tree<nat>, ipa: nat, d: nat, ok: bool) {
    && Walkable(v) && Walkable(w)
    && (forall x: nat | x < VA_LIMIT ::
          Lookup(w, x) == if ok && ipa <= x < ipa + PAGE_SIZE then Hit(d, 3) else Lookup(v, x))
    && (ok ==> forall x: nat | x < VA_LIMIT && ipa <= x < ipa + PAGE_SIZE ::
          Lookup(v, x) == Miss || Lookup(v, x) == Hit(d, 3))
  }

  /** The descriptor that maps guest address `x` of a range. */
  function EntryFor(ipa: nat, pa: nat, g: Grant, x: nat): nat
    requires ipa <= x
  {
    EncodeL3(pa + (x - ipa) / PAGE_SIZE * PAGE_SIZE, g)
  }

  /** No valid entry changes; what changes lies in the range and maps as asked; on success the
      whole range maps as asked. */
  ghost predicate RangeEffect(v: Tree<nat>, w: Tree<nat>, ipa: nat, pa: nat, size: nat, g: Grant, ok: bool) {
    && Walkable(v) && Walkable(w)
    && (forall x: nat | x < VA_LIMIT && Lookup(v, x).Hit? :: Lookup(w, x) == Lookup(v, x))
    && (forall x: nat | x < VA_LIMIT && Lookup(w, x) != Lookup(v, x) ::
          ipa <= x < ipa + size && Lookup(w, x) == Hit(EntryFor(ipa, pa, g, x), 3))
    && (ok ==> forall x: nat | x < VA_LIMIT && ipa <= x < ipa + size :: Lookup(w, x) == Hit(EntryFor(ipa, pa, g, x), 3))
  }

  lemma RangeStep(v: Tree<nat>, w: Tree<nat>, u: Tree<nat>, ipa: nat, pa: nat, done: nat, g: Grant, ok: bool)
    requires done % PAGE_SIZE == 0 && RangeEffect(v, w, ipa, pa, done, g, true)
    requires PageEffect(w, u, ipa + done, EncodeL3(pa + done, g), ok)
    ensures RangeEffect(v, u, ipa, pa, done + PAGE_SIZE, g, ok)
  {
    hide Lookup, EncodeL3, Walkable;
    forall x: nat | ipa + done <= x < ipa + done + PAGE_SIZE
      ensures EntryFor(ipa, pa, g, x) == EncodeL3(pa + done, g)
    {
      assert (x - ipa) / PAGE_SIZE * PAGE_SIZE == done;
    }
  }

  lemma RangeNone(v: Tree<nat>, ipa: nat, pa: nat, g: Grant)
    requires Walkable(v)
    ensures RangeEffect(v, v, ipa, pa, 0, g, true)
  {
  }

  lemma RangeWiden(v: Tree<nat>, w: Tree<nat>, ipa: nat, pa: nat, size: nat, size': nat, g: Grant)
    requires RangeEffect(v, w, ipa, pa, size, g, false) && size <= size'
    ensures RangeEffect(v, w, ipa, pa, size', g, false)
  {
    hide Lookup, EncodeL3, Walkable;
  }

  /** Something else than `d` is mapped at `ipa`. */
  ghost predicate Taken(v: Tree<nat>, ipa: nat, d: nat)
    requires Walkable(v)
  {
    Lookup(v, ipa).Hit? && Lookup(v, ipa) != Hit(d, 3)
  }

  /** A block maps `ipa`. */
  ghost predicate BlockAt(v: Tree<nat>, ipa: nat)
    requires Walkable(v)
  {
    Lookup(v, ipa).Hit? && Lookup(v, ipa).level < 3
  }

  /** Every page of the range is unmapped, or mapped as asked already. */
  ghost predicate RangeFits(v: Tree<nat>, ipa: nat, pa: nat, size: nat, g: Grant)
    requires Walkable(v)
  {
    forall x: nat | x < VA_LIMIT && ipa <= x < ipa + size ::
      Lookup(v, x) == Miss || Lookup(v, x) == Hit(EntryFor(ipa, pa, g, x), 3)
  }

  /** What the outcome of mapping a range says; `spent` is whether no table page is to be had. */
  ghost predicate RangeOutcome(
    v: Tree<nat>, ipa: nat, pa: nat, size: nat, g: Grant, r: Result<(), S1.TranslationError>, spent: bool)
    requires Walkable(v)
  {
    match r
    case Ok(_) => RangeFits(v, ipa, pa, size, g)
    case Err(e) => (e == S1.ConflictingEntry && !RangeFits(v, ipa, pa, size, g)) || (e == S1.TableExhausted && spent)
  }

  lemma RangeSucceeded(v: Tree<nat>, w: Tree<nat>, ipa: nat, pa: nat, size: nat, g: Grant, spent: bool)
    requires RangeEffect(v, w, ipa, pa, size, g, true)
    ensures RangeOutcome(v, ipa, pa, size, g, Ok(()), spent)
  {
    hide Lookup, EncodeL3, Walkable;
  }

  lemma RangeConflicts(
    v: Tree<nat>, w: Tree<nat>, ipa: nat, pa: nat, size: nat, g: Grant, done: nat, spent: bool)
    requires RangeEffect(v, w, ipa, pa, done, g, true) && done < size && done % PAGE_SIZE == 0 && ipa + size <= VA_LIMIT
    requires Taken(w, ipa + done, EncodeL3(pa + done, g))
    ensures RangeOutcome(v, ipa, pa, size, g, Err(S1.ConflictingEntry), spent)
  {
    hide Lookup, EncodeL3, Walkable;
    var x := ipa + done;
    assert Lookup(v, x) == Lookup(w, x);
    assert EntryFor(ipa, pa, g, x) == EncodeL3(pa + done, g);
  }

  lemma RangeExhausts(v: Tree<nat>, ipa: nat, pa: nat, size: nat, g: Grant)
    requires Walkable(v)
    ensures RangeOutcome(v, ipa, pa, size, g, Err(S1.TableExhausted), true)
  {
  }

  lemma RamSelf(ms: seq<VmMem>)
    ensures KeepsRam(ms, ms)
  {
  }

  lemma RamThen(a: seq<VmMem>, b: seq<VmMem>, c: seq<VmMem>)
    requires KeepsRam(a, b) && KeepsRam(b, c)
    ensures KeepsRam(a, c)
  {
  }

  lemma RamMore(a: seq<VmMem>, b: seq<VmMem>)
    requires KeepsRam(a, b)
    ensures MoreRam(a, b)
  {
  }

  /** The checks on the ends of a range before it is mapped, in the order of the source. */
  function RangeError(ipa: nat, pa: nat, size: nat, paBits: nat): (r: Option<S1.TranslationError>)
    ensures r == Some(S1.AddressOverflow) <==> !(ipa + size < U64_LIMIT && pa + size < U64_LIMIT)
    ensures r.None? && size > 0 ==> ipa + (size - 1) < 0x80_0000_0000 && pa + (size - 1) < Shl(1, paBits)
    ensures r == Some(S1.VirtualAddressOutOfRange) ==> ipa + size > 0x80_0000_0000
    ensures r == Some(S1.PhysicalAddressOutOfRange) ==> pa + size > Shl(1, paBits)
    ensures r.Some? ==> r.value in {S1.AddressOverflow, S1.VirtualAddressOutOfRange, S1.PhysicalAddressOutOfRange}
  {
    if ipa + size >= U64_LIMIT || pa + size >= U64_LIMIT then Some(S1.AddressOverflow)
    else if ipa + size > VA_LIMIT then Some(S1.VirtualAddressOutOfRange)
    else if pa + size > Shl(1, paBits) then Some(S1.PhysicalAddressOutOfRange)
    else None
  }

  // Isolation.

  /** The descriptor maps normal memory. */
  predicate IsNormal(d: nat) {
    d / 4 % 16 == 15
  }

  /** The page belongs to guest memory of the VM. */
  ghost predicate InRam(ms: seq<VmMem>, p: nat) {
    exists k :: 0 <= k < |ms| && ms[k].IpaPa? && p in EntryPages(ms[k])
  }

  /** Whatever is mapped as normal memory is guest memory of the VM. */
  ghost predicate Isolated(ms: seq<VmMem>, v: Tree<nat>)
    requires Walkable(v)
  {
    forall x: nat | x < VA_LIMIT && Lookup(v, x).Hit? && IsNormal(Lookup(v, x).leaf) ::
      InRam(ms, And(Lookup(v, x).leaf, ADDRESS_MASK) / PAGE_SIZE)
  }

  const DEVICE := Grant(DeviceNgNre, ReadWrite, ExecuteNever)

  /** Page `k` of a device window at `pa`, as the descriptor for it names it. */
  function DevicePage(pa: nat, k: nat): nat {
    Frame(pa + k * PAGE_SIZE) / PAGE_SIZE
  }

  /** No page of the window is in `u`. */
  ghost predicate WindowClear(pa: nat, size: nat, u: iset<nat>) {
    forall k: nat | k < size / PAGE_SIZE :: DevicePage(pa, k) !in u
  }

  /** Whatever is mapped, as normal memory or as a device, is guest memory of the VM or not in `u`. */
  ghost predicate Confined(ms: seq<VmMem>, v: Tree<nat>, u: iset<nat>)
    requires Walkable(v)
  {
    forall x: nat | x < VA_LIMIT && Lookup(v, x).Hit? :: Allowed(ms, Lookup(v, x).leaf, u)
  }

  ghost predicate Allowed(ms: seq<VmMem>, d: nat, u: iset<nat>) {
    InRam(ms, And(d, ADDRESS_MASK) / PAGE_SIZE) || And(d, ADDRESS_MASK) / PAGE_SIZE !in u
  }

  /** Valid entries are never changed. */
  ghost predicate Grows(v: Tree<nat>, w: Tree<nat>) {
    Walkable(v) && Walkable(w) && forall x: nat | x < VA_LIMIT && Lookup(v, x).Hit? :: Lookup(w, x) == Lookup(v, x)
  }

  /** Every page of the window is mapped. */
  ghost predicate WindowMapped(v: Tree<nat>, ipa: nat, pa: nat, size: nat)
    requires Walkable(v)
  {
    forall k: nat | k < size / PAGE_SIZE && ipa + k * PAGE_SIZE < VA_LIMIT ::
      Lookup(v, ipa + k * PAGE_SIZE) == Hit(EncodeL3(pa + k * PAGE_SIZE, DEVICE), 3)
  }

  lemma AllowedKept(ms: seq<VmMem>, ms': seq<VmMem>, d: nat, u: iset<nat>)
    requires MoreRam(ms, ms') && Allowed(ms, d, u)
    ensures Allowed(ms', d, u)
  {
    hide And, InRam;
    if InRam(ms, And(d, ADDRESS_MASK) / PAGE_SIZE) {
      RamKept(ms, ms', And(d, ADDRESS_MASK) / PAGE_SIZE);
    }
  }

  /** Mapping a range keeps confinement if every descriptor it writes is allowed. */
  lemma ConfinedRange(
    ms: seq<VmMem>, ms': seq<VmMem>, v: Tree<nat>, w: Tree<nat>, ipa: nat, pa: nat, size: nat, g: Grant, ok: bool,
    u: iset<nat>)
    requires MoreRam(ms, ms') && RangeEffect(v, w, ipa, pa, size, g, ok) && Confined(ms, v, u)
    requires forall x: nat | ipa <= x < ipa + size :: Allowed(ms, EntryFor(ipa, pa, g, x), u)
    ensures Confined(ms', w, u)
  {
    hide Lookup, EntryFor, Walkable, Allowed, MoreRam;
    forall x: nat | x < VA_LIMIT && Lookup(w, x).Hit?
      ensures Allowed(ms', Lookup(w, x).leaf, u)
    {
      AllowedKept(ms, ms', Lookup(w, x).leaf, u);
    }
  }

  lemma RangeGrows(v: Tree<nat>, w: Tree<nat>, ipa: nat, pa: nat, size: nat, g: Grant, ok: bool)
    requires RangeEffect(v, w, ipa, pa, size, g, ok)
    ensures Grows(v, w)
  {
    hide Lookup, Walkable, EntryFor;
  }

  lemma GrowsSelf(v: Tree<nat>)
    requires Walkable(v)
    ensures Grows(v, v)
  {
  }

  lemma WindowStays(v: Tree<nat>, w: Tree<nat>, ipa: nat, pa: nat, size: nat)
    requires Grows(v, w) && WindowMapped(v, ipa, pa, size)
    ensures WindowMapped(w, ipa, pa, size)
  {
    hide Lookup, Walkable, EncodeL3;
  }

  /** The frame of a window page. */
  lemma DeviceFrame(pa: nat, k: nat)
    ensures And(EncodeL3(pa + k * PAGE_SIZE, DEVICE), ADDRESS_MASK) / PAGE_SIZE == DevicePage(pa, k)
  {
    hide And, EncodeL3, Frame, IsValid, IsTableOrPage, IsExecuteNever;
    PageRoundTrip(pa + k * PAGE_SIZE, DEVICE);
  }

  /** Mapping a window that is clear of `u` is allowed. */
  lemma WindowAllowed(ms: seq<VmMem>, ipa: nat, pa: nat, size: nat, u: iset<nat>, x: nat)
    requires WindowClear(pa, size, u) && size % PAGE_SIZE == 0 && ipa <= x < ipa + size
    ensures Allowed(ms, EntryFor(ipa, pa, DEVICE, x), u)
  {
    hide And, EncodeL3, DevicePage, InRam;
    PagesBelow(x - ipa, size);
    DeviceFrame(pa, (x - ipa) / PAGE_SIZE);
  }

  /** A window that was mapped successfully is mapped page by page. */
  lemma WindowDone(v: Tree<nat>, w: Tree<nat>, ipa: nat, pa: nat, size: nat)
    requires RangeEffect(v, w, ipa, pa, size, DEVICE, true) && size % PAGE_SIZE == 0
    ensures WindowMapped(w, ipa, pa, size)
  {
    hide Lookup, Walkable, EncodeL3, EntryFor;
    forall k: nat | k < size / PAGE_SIZE && ipa + k * PAGE_SIZE < VA_LIMIT
      ensures Lookup(w, ipa + k * PAGE_SIZE) == Hit(EncodeL3(pa + k * PAGE_SIZE, DEVICE), 3)
    {
      WindowEntry(ipa, pa, size, k);
    }
  }

  lemma WindowEntry(ipa: nat, pa: nat, size: nat, k: nat)
    requires k < size / PAGE_SIZE
    ensures k * PAGE_SIZE < size
    ensures EntryFor(ipa, pa, DEVICE, ipa + k * PAGE_SIZE) == EncodeL3(pa + k * PAGE_SIZE, DEVICE)
  {
    hide EncodeL3;
    var x := ipa + k * PAGE_SIZE;
    assert (x - ipa) / PAGE_SIZE == k;
  }

  /** Confinement leaves no page of a mapped window in `u`, except guest memory. */
  lemma WindowConfined(ms: seq<VmMem>, v: Tree<nat>, ipa: nat, pa: nat, size: nat, u: iset<nat>, k: nat)
    requires Walkable(v) && Confined(ms, v, u) && WindowMapped(v, ipa, pa, size)
    requires k < size / PAGE_SIZE && ipa + size <= VA_LIMIT
    ensures DevicePage(pa, k) !in u || InRam(ms, DevicePage(pa, k))
  {
    hide Lookup, Walkable, EncodeL3, And, InRam, DevicePage;
    DeviceFrame(pa, k);
    assert ipa + k * PAGE_SIZE < VA_LIMIT;
    assert Lookup(v, ipa + k * PAGE_SIZE).Hit?;
  }

  /** Guest memory is the VM's own, and never one of its tables. */
  lemma RamIsOwned(ms: seq<VmMem>, inUse: set<nat>, p: nat)
    requires Owns(ms, inUse) && InRam(ms, p)
    ensures p in OwnedPages(ms)
    ensures forall k, i | 0 <= k < |ms| && ms[k].PaOnly? && 0 <= i < |ms[k].pas| :: ms[k].pas[i] / PAGE_SIZE != p
  {
    hide EntryPages, EntryOk, Total, IpaApart;
    var j :| 0 <= j < |ms| && ms[j].IpaPa? && p in EntryPages(ms[j]);
    OwnedMember(ms, p);
    forall k, i | 0 <= k < |ms| && ms[k].PaOnly? && 0 <= i < |ms[k].pas|
      ensures ms[k].pas[i] / PAGE_SIZE != p
    {
      TablePages(ms[k], i);
      assert if j < k then Separate(ms[j], ms[k]) else Separate(ms[k], ms[j]);
    }
  }

  lemma TablePages(m: VmMem, i: nat)
    requires m.PaOnly? && i < |m.pas|
    ensures m.pas[i] / PAGE_SIZE in EntryPages(m)
  {
    FrameMember(m.pas, m.pas[i] / PAGE_SIZE);
  }

  /** Entries that hold guest memory are kept. */
  predicate MoreRam(ms: seq<VmMem>, ms': seq<VmMem>) {
    forall k | 0 <= k < |ms| && ms[k].IpaPa? :: k < |ms'| && ms'[k] == ms[k]
  }

  lemma RamKept(ms: seq<VmMem>, ms': seq<VmMem>, p: nat)
    requires MoreRam(ms, ms') && InRam(ms, p)
    ensures InRam(ms', p)
  {
    hide EntryPages;
    var k :| 0 <= k < |ms| && ms[k].IpaPa? && p in EntryPages(ms[k]);
    assert ms'[k].IpaPa? && p in EntryPages(ms'[k]);
  }

  /** Mapping a range keeps isolation if what it maps as normal memory is guest memory. */
  lemma IsolatedRange(
    ms: seq<VmMem>, ms': seq<VmMem>, v: Tree<nat>, w: Tree<nat>, ipa: nat, pa: nat, size: nat, g: Grant, ok: bool)
    requires MoreRam(ms, ms') && RangeEffect(v, w, ipa, pa, size, g, ok) && Isolated(ms, v)
    requires forall x: nat | g.kind == NormalWbWa && ipa <= x < ipa + size ::
               InRam(ms, And(EntryFor(ipa, pa, g, x), ADDRESS_MASK) / PAGE_SIZE)
    ensures Isolated(ms', w)
  {
    hide Lookup, EncodeL3, Walkable, And, InRam, MoreRam;
    forall x: nat | x < VA_LIMIT && Lookup(w, x).Hit? && IsNormal(Lookup(w, x).leaf)
      ensures InRam(ms', And(Lookup(w, x).leaf, ADDRESS_MASK) / PAGE_SIZE)
    {
      if Lookup(w, x) != Lookup(v, x) {
        PageRoundTrip(pa + (x - ipa) / PAGE_SIZE * PAGE_SIZE, g);
      }
      RamKept(ms, ms', And(Lookup(w, x).leaf, ADDRESS_MASK) / PAGE_SIZE);
    }
  }

  /** A descriptor for guest memory names a page of it. */
  lemma RamFrames(ms: seq<VmMem>, k: nat, g: Grant, x: nat)
    requires k < |ms| && ms[k].IpaPa? && EntryOk(ms[k]) && ms[k].pa + ms[k].size <= PA_LIMIT
    requires ms[k].ipa <= x < ms[k].ipa + ms[k].size
    ensures InRam(ms, And(EntryFor(ms[k].ipa, ms[k].pa, g, x), ADDRESS_MASK) / PAGE_SIZE)
  {
    hide And, EncodeL3, Interval, IsValid, IsTableOrPage, IsExecuteNever, MemAttr, AccessCode, ShareCode;
    var m := ms[k];
    var i := (x - m.ipa) / PAGE_SIZE;
    assert i < m.size / PAGE_SIZE by { PagesBelow(x - m.ipa, m.size); }
    var pa := m.pa + i * PAGE_SIZE;
    PageRoundTrip(pa, g);
    assert Frame(pa) == pa by { FrameOfAligned(m.pa, i); }
    assert pa / PAGE_SIZE == m.pa / PAGE_SIZE + i;
    InInterval(m.pa / PAGE_SIZE, pa / PAGE_SIZE, m.pa / PAGE_SIZE + m.size / PAGE_SIZE);
    assert pa / PAGE_SIZE in EntryPages(m);
  }

  lemma PagesBelow(a: nat, size: nat)
    requires a < size && size % PAGE_SIZE == 0
    ensures a / PAGE_SIZE < size / PAGE_SIZE && a / PAGE_SIZE * PAGE_SIZE + PAGE_SIZE <= size
  {
  }

  lemma FrameOfAligned(pa: nat, i: nat)
    requires pa % PAGE_SIZE == 0 && pa + i * PAGE_SIZE < PA_LIMIT
    ensures Frame(pa + i * PAGE_SIZE) == pa + i * PAGE_SIZE
  {
    ModUnique(pa + i * PAGE_SIZE, PAGE_SIZE, pa / PAGE_SIZE + i, 0);
  }

  lemma UsageIsolated(
    ms: seq<VmMem>, ms': seq<VmMem>, k: nat, v: Tree<nat>, w: Tree<nat>, g: Grant, ok: bool)
    requires k < |ms| && ms[k].IpaPa? && EntryOk(ms[k]) && ms[k].pa + ms[k].size <= PA_LIMIT && MoreRam(ms, ms')
    requires RangeEffect(v, w, ms[k].ipa, ms[k].pa, ms[k].size, g, ok) && Isolated(ms, v)
    ensures Isolated(ms', w)
  {
    hide RangeEffect, Isolated, MoreRam, InRam, And, EncodeL3, EntryOk, Walkable;
    var m := ms[k];
    forall x: nat | g.kind == NormalWbWa && m.ipa <= x < m.ipa + m.size
      ensures InRam(ms, And(EntryFor(m.ipa, m.pa, g, x), ADDRESS_MASK) / PAGE_SIZE)
    {
      RamFrames(ms, k, g, x);
    }
    IsolatedRange(ms, ms', v, w, m.ipa, m.pa, m.size, g, ok);
  }

  lemma StillIsolated(ms: seq<VmMem>, ms': seq<VmMem>)
    requires ms <= ms'
    ensures forall v: Tree<nat> | Walkable(v) && Isolated(ms, v) :: Isolated(ms', v)
  {
    hide Lookup, Walkable, InRam, And, IsNormal;
    forall p | InRam(ms, p)
      ensures InRam(ms', p)
    {
      RamKept(ms, ms', p);
    }
  }

  lemma NothingMapped(ms: seq<VmMem>, v: Tree<nat>)
    requires Walkable(v) && forall x: nat :: Lookup(v, x) == Miss
    ensures Isolated(ms, v)
  {
    hide Lookup, And;
  }

  lemma EntryFacts(a: PageAllocator, ms: seq<VmMem>, k: nat)
    requires a.Valid() && a.Aperture() * PAGE_SIZE <= PA_LIMIT && Owns(ms, a.inUse.Set()) && k < |ms| && ms[k].IpaPa?
    ensures EntryOk(ms[k]) && IpaOk(ms[k].ipa, ms[k].size) && ms[k].pa + ms[k].size <= PA_LIMIT
  {
    hide Indices, EntryPages, Separate, Total;
    assert EntryOk(ms[k]) && EntryPages(ms[k]) <= a.inUse.Set();
    forall p | p in a.inUse.Set()
      ensures p < a.Aperture()
    {
      a.FreeInAperture(p);
    }
    RamBound(ms[k], a.inUse.Set(), a.Aperture());
  }

  /** Guest memory lies within the aperture of the allocator. */
  lemma RamBound(m: VmMem, inUse: set<nat>, aperture: nat)
    requires m.IpaPa? && EntryOk(m) && EntryPages(m) <= inUse && forall p | p in inUse :: p < aperture
    ensures m.pa + m.size <= aperture * PAGE_SIZE
  {
    var last := m.pa / PAGE_SIZE + m.size / PAGE_SIZE - 1;
    InInterval(m.pa / PAGE_SIZE, last, m.pa / PAGE_SIZE + m.size / PAGE_SIZE);
    assert last in inUse;
  }

  class VmCtl {
    const allocator: PageAllocator
    var vmMem: seq<VmMem>
    var memory: Memory
    ghost var levels: map<nat, nat>

    ghost predicate Valid()
      reads this, allocator, allocator.managed, allocator.inUse, allocator.managed.bits, allocator.inUse.bits
    {
      && allocator.Valid() && allocator.Aperture() * PAGE_SIZE <= PA_LIMIT
      && Owns(vmMem, allocator.inUse.Set()) && TablesOk(vmMem, memory, levels)
    }

    /** The pages in use that are not this VM's. */
    ghost function Others(): set<nat>
      reads this, allocator, allocator.inUse.bits
    {
      allocator.inUse.Set() - OwnedPages(vmMem)
    }

    ghost predicate HasTables()
      reads this
    {
      FindUsage(vmMem, Stage2Table).Some?
    }

    /** The translation tree, if there are tables. */
    ghost function Tables(): Tree<nat>
      requires TablesOk(vmMem, memory, levels) && HasTables()
      reads this
    {
      View(memory, levels, vmMem[FindUsage(vmMem, Stage2Table).value].pas[0])
    }

    /** Whatever the tables map as normal memory is guest memory of this VM. */
    ghost predicate Secure()
      requires TablesOk(vmMem, memory, levels)
      reads this
    {
      HasTables() ==> Isolated(vmMem, Tables())
    }

    /** Whatever the tables map is guest memory of this VM or not in `u`. */
    ghost predicate Keeps(u: iset<nat>)
      requires TablesOk(vmMem, memory, levels)
      reads this
    {
      HasTables() ==> Confined(vmMem, Tables(), u)
    }

    /** The tables are there and map every page of the window. */
    ghost predicate Shows(ipa: nat, pa: nat, size: nat)
      requires TablesOk(vmMem, memory, levels)
      reads this
    {
      HasTables() && WindowMapped(Tables(), ipa, pa, size)
    }

    /** The budget is used up or no page is free. */
    ghost predicate TablesSpent()
      reads this, allocator, allocator.managed.bits, allocator.inUse.bits
    {
      Total(vmMem) >= MAX_GUEST_MEM_PAGES || allocator.Free() == {}
    }

    constructor (allocator: PageAllocator)
      requires allocator.Valid() && allocator.Aperture() * PAGE_SIZE <= PA_LIMIT
      ensures Valid() && this.allocator == allocator && vmMem == [] && Others() == allocator.inUse.Set() && Secure()
    {
      this.allocator := allocator;
      vmMem, memory, levels := [], map[], map[];
    }

    /** One more zeroed table page, within the budget. */
    method AllocTablePage() returns (r: Result<nat, A.AllocatorError>)
      requires Valid()
      modifies this, allocator.inUse, allocator.inUse.bits
      ensures Valid() && Others() == old(Others()) && levels == old(levels) && HasTables() == old(HasTables())
      ensures r.Err? ==> vmMem == old(vmMem) && memory == old(memory)
      ensures HasTables() ==> Tables() == old(Tables())
      ensures r.Ok? ==> HasTables() && r.value % PAGE_SIZE == 0 && r.value < PA_LIMIT && r.value !in levels
                        && memory == old(memory)[r.value := ZeroPage()]
      ensures r.Ok? ==> r.value in vmMem[FindUsage(vmMem, Stage2Table).value].pas
      ensures KeepsRam(old(vmMem), vmMem) && (r.Err? && HasTables() ==> TablesSpent())
      ensures old(Total(vmMem)) >= MAX_GUEST_MEM_PAGES ==> r == Err(A.Exhausted)
      ensures old(Total(vmMem)) < MAX_GUEST_MEM_PAGES && !HasTables() ==> r == Err(A.Unexpected)
    {
      hide Indices, Interval, Inv, View, FindUsage, EntryPages, Owns, TablesOk, KeepsRam, OwnedPages, Total,
        Grown;
      RamSelf(vmMem);
      if Total(vmMem) >= MAX_GUEST_MEM_PAGES {
        return Err(A.Exhausted);
      }
      var t := FindUsage(vmMem, Stage2Table);
      if t.None? {
        return Err(A.Unexpected);
      }
      ghost var inUse := allocator.inUse.Set();
      var page := AllocatePage(allocator);
      if page.Err? {
        return page;
      }
      GrownTables(vmMem, memory, levels, inUse, t.value, page.value);
      vmMem := Grown(vmMem, t.value, page.value);
      memory := memory[page.value := ZeroPage()];
      return page;
    }

    /** Follow, or create, the table below `table` on the way of `ipa`. No translation changes. */
    method NextTable(table: nat, level: nat, ipa: nat) returns (r: Result<nat, S1.TranslationError>)
      requires Valid() && HasTables() && 1 <= level < 3 && Reach(Tables(), level, ipa) == At(table)
      modifies this, allocator.inUse, allocator.inUse.bits
      ensures Valid() && HasTables() && Others() == old(Others()) && SameLookups(old(Tables()), Tables())
      ensures r.Ok? ==> Reach(Tables(), level + 1, ipa) == At(r.value)
      ensures KeepsRam(old(vmMem), vmMem)
      ensures r.Err? ==> (r.error == S1.TableExhausted && TablesSpent())
                         || (r.error == S1.ConflictingEntry && BlockAt(old(Tables()), ipa))
    {
      hide Indices, Interval, Inv, View, FindUsage, Owns, TablesOk, Reach, Index, IsValid, IsTableOrPage, And;
      ghost var t := FindUsage(vmMem, Stage2Table).value;
      TableEntryAt(vmMem, memory, levels, allocator.inUse.Set(), t);
      ghost var v := Tables();
      SameLookupsSelf(v);
      InvPage(memory, levels, vmMem[t].pas[0], table);
      var i := S1.IndexFor(level, ipa);
      var d := memory[table][i];
      NextEntry(memory, levels, vmMem[t].pas[0], table, level, ipa);
      if IsValid(d) {
        return if IsTableOrPage(d) then Ok(And(d, ADDRESS_MASK)) else Err(S1.ConflictingEntry);
      }
      var page := AllocTablePage();
      if page.Err? {
        return Err(S1.TableExhausted);
      }
      ghost var t' := FindUsage(vmMem, Stage2Table).value;
      TableEntryAt(vmMem, memory, levels, allocator.inUse.Set(), t');
      LinkCorrect(memory, levels, vmMem[t'].pas[0], table, level, page.value, ipa);
      LinkKnown(memory, table, i, page.value);
      memory := Put(memory, table, i, TableEntry(page.value));
      levels := levels[page.value := level + 1];
      TablesKept(vmMem, memory, levels, t');
      return Ok(page.value);
    }

    /** Map one guest page. A valid entry is never changed: it either agrees or is a conflict. */
    method MapL3Page(ipa: nat, pa: nat, g: Grant) returns (r: Result<(), S1.TranslationError>)
      requires Valid() && HasTables() && ipa % PAGE_SIZE == 0 && ipa < VA_LIMIT
      modifies this, allocator.inUse, allocator.inUse.bits
      ensures Valid() && HasTables() && Others() == old(Others())
      ensures PageEffect(old(Tables()), Tables(), ipa, EncodeL3(pa, g), r.Ok?) && KeepsRam(old(vmMem), vmMem)
      ensures r.Err? ==> (r.error == S1.TableExhausted && TablesSpent())
                         || (r.error == S1.ConflictingEntry && Taken(old(Tables()), ipa, EncodeL3(pa, g)))
    {
      hide Indices, Inv, View, FindUsage, Owns, TablesOk, Reach, Index, IsValid, EncodeL3, Lookup, PageEffect;
      ghost var v := Tables();
      ghost var t := FindUsage(vmMem, Stage2Table).value;
      TableEntryAt(vmMem, memory, levels, allocator.inUse.Set(), t);
      ReachRoot(v, ipa);
      PageUnchanged(v, v, ipa, EncodeL3(pa, g));
      var root := vmMem[FindUsage(vmMem, Stage2Table).value].pas[0];
      var l2 := NextTable(root, 1, ipa);
      PageUnchanged(v, Tables(), ipa, EncodeL3(pa, g));
      if l2.Err? {
        BlockTaken(v, v, ipa, EncodeL3(pa, g));
        return Err(l2.error);
      }
      ghost var v2 := Tables();
      var l3 := NextTable(l2.value, 2, ipa);
      SameLookupsThen(v, v2, Tables());
      PageUnchanged(v, Tables(), ipa, EncodeL3(pa, g));
      if l3.Err? {
        BlockTaken(v, v2, ipa, EncodeL3(pa, g));
        return Err(l3.error);
      }
      PageValid(pa, g);
      r := PutPage(l3.value, ipa, EncodeL3(pa, g), v);
    }

    /** The last step of `map_l3_page`. */
    method PutPage(table: nat, ipa: nat, d: nat, ghost v: Tree<nat>) returns (r: Result<(), S1.TranslationError>)
      requires Valid() && HasTables() && ipa % PAGE_SIZE == 0 && ipa < VA_LIMIT && IsValid(d)
      requires Reach(Tables(), 3, ipa) == At(table) && SameLookups(v, Tables())
      modifies this
      ensures Valid() && HasTables() && Others() == old(Others()) && PageEffect(v, Tables(), ipa, d, r.Ok?)
      ensures vmMem == old(vmMem) && (r.Err? ==> r.error == S1.ConflictingEntry && Taken(v, ipa, d))
    {
      hide Indices, Inv, View, FindUsage, Owns, TablesOk, Reach, Index, IsValid, Lookup, PageEffect;
      ghost var t := FindUsage(vmMem, Stage2Table).value;
      TableEntryAt(vmMem, memory, levels, allocator.inUse.Set(), t);
      ghost var root := vmMem[t].pas[0];
      InvPage(memory, levels, root, table);
      var i := S1.IndexFor(3, ipa);
      var current := memory[table][i];
      PutEffect(memory, levels, root, table, ipa, d, v);
      if IsValid(current) {
        return if current == d then Ok(()) else Err(S1.ConflictingEntry);
      }
      memory := Put(memory, table, i, d);
      TablesKept(vmMem, memory, levels, t);
      return Ok(());
    }

    /** Map a page-aligned range page by page. */
    method MapRange(ipa: nat, pa: nat, size: nat, g: Grant) returns (r: Result<(), S1.TranslationError>)
      requires Valid() && ipa % PAGE_SIZE == 0 && size % PAGE_SIZE == 0 && ipa + size <= VA_LIMIT && size > 0
      modifies this, allocator.inUse, allocator.inUse.bits
      ensures Valid() && HasTables() == old(HasTables()) && Others() == old(Others())
      ensures !HasTables() ==> r == Err(S1.Unexpected)
      ensures HasTables() ==> RangeEffect(old(Tables()), Tables(), ipa, pa, size, g, r.Ok?)
                              && RangeOutcome(old(Tables()), ipa, pa, size, g, r, TablesSpent())
      ensures KeepsRam(old(vmMem), vmMem)
    {
      hide Indices, Inv, View, FindUsage, Owns, TablesOk, PageEffect, RangeEffect, OwnedPages, Lookup, Walkable,
        EncodeL3, RangeOutcome, Taken, TablesSpent, KeepsRam;
      RamSelf(vmMem);
      if FindUsage(vmMem, Stage2Table).None? {
        return Err(S1.Unexpected);
      }
      ghost var v := Tables();
      ghost var t := FindUsage(vmMem, Stage2Table).value;
      TableEntryAt(vmMem, memory, levels, allocator.inUse.Set(), t);
      RangeNone(v, ipa, pa, g);
      var done := 0;
      while done < size
        invariant Valid() && HasTables() && Others() == old(Others())
        invariant 0 <= done <= size && done % PAGE_SIZE == 0
        invariant RangeEffect(v, Tables(), ipa, pa, done, g, true) && KeepsRam(old(vmMem), vmMem)
      {
        ghost var w, ms := Tables(), vmMem;
        r := MapL3Page(ipa + done, pa + done, g);
        RangeStep(v, w, Tables(), ipa, pa, done, g, r.Ok?);
        RamThen(old(vmMem), ms, vmMem);
        if r.Err? {
          RangeWiden(v, Tables(), ipa, pa, done + PAGE_SIZE, size, g);
          if r.error == S1.ConflictingEntry {
            RangeConflicts(v, w, ipa, pa, size, g, done, TablesSpent());
          } else {
            RangeExhausts(v, ipa, pa, size, g);
          }
          return;
        }
        done := done + PAGE_SIZE;
      }
      RangeSucceeded(v, Tables(), ipa, pa, size, g, TablesSpent());
      return Ok(());
    }

    /** `map_with_pa_bits`: map the memory allocated for `usage`. */
    method MapUsage(usage: Usage, g: Grant, paBits: nat) returns (r: Result<(), S1.TranslationError>)
      requires Valid()
      modifies this, allocator.inUse, allocator.inUse.bits
      ensures Valid() && HasTables() == old(HasTables()) && Others() == old(Others()) && KeepsRam(old(vmMem), vmMem)
      ensures var k := old(FindUsage(vmMem, usage));
              if k.None? || !old(vmMem)[k.value].IpaPa? then
                && r == Err(S1.InvalidateParameter)
                && vmMem == old(vmMem) && memory == old(memory) && levels == old(levels)
              else var m := old(vmMem)[k.value];
                   if RangeError(m.ipa, m.pa, m.size, paBits).Some? then
                     && r == Err(RangeError(m.ipa, m.pa, m.size, paBits).value)
                     && vmMem == old(vmMem) && memory == old(memory) && levels == old(levels)
                   else if !HasTables() then r == Err(S1.Unexpected)
                   else && RangeEffect(old(Tables()), Tables(), m.ipa, m.pa, m.size, g, r.Ok?)
                        && RangeOutcome(old(Tables()), m.ipa, m.pa, m.size, g, r, TablesSpent())
      ensures old(Secure()) ==> Secure()
    {
      hide Indices, Inv, View, FindUsage, RangeEffect, RangeOutcome, Shl, TablesOk, Isolated, TablesSpent, EncodeL3,
        Lookup, Walkable, Owns, KeepsRam, And, MoreRam, EntryOk, OwnedPages;
      var k := FindUsage(vmMem, usage);
      RamSelf(vmMem);
      if k.None? || !vmMem[k.value].IpaPa? {
        return Err(S1.InvalidateParameter);
      }
      var m := vmMem[k.value];
      var bad := RangeError(m.ipa, m.pa, m.size, paBits);
      if bad.Some? {
        return Err(bad.value);
      }
      ghost var ms, inUse := vmMem, allocator.inUse.Set();
      EntryFacts(allocator, ms, k.value);
      r := MapRange(m.ipa, m.pa, m.size, g);
      if HasTables() && old(Secure()) {
        RamMore(ms, vmMem);
        UsageIsolated(ms, vmMem, k.value, old(Tables()), Tables(), g, r.Ok?);
      }
    }

    /** `map_external_device_with_pa_bits`: map a device range that is not the VM's memory. */
    method MapExternalDevice(ipa: nat, pa: nat, size: nat, paBits: nat) returns (r: Result<(), S1.TranslationError>)
      requires Valid()
      modifies this, allocator.inUse, allocator.inUse.bits
      ensures Valid() && HasTables() == old(HasTables()) && Others() == old(Others()) && KeepsRam(old(vmMem), vmMem)
      ensures if size == 0 || ipa % PAGE_SIZE != 0 || pa % PAGE_SIZE != 0 || size % PAGE_SIZE != 0 then
                r == Err(S1.UnalignedMapping) && vmMem == old(vmMem) && memory == old(memory) && levels == old(levels)
              else if RangeError(ipa, pa, size, paBits).Some? then
                && r == Err(RangeError(ipa, pa, size, paBits).value)
                && vmMem == old(vmMem) && memory == old(memory) && levels == old(levels)
              else if !HasTables() then r == Err(S1.Unexpected)
              else var g := Grant(DeviceNgNre, ReadWrite, ExecuteNever);
                   && RangeEffect(old(Tables()), Tables(), ipa, pa, size, g, r.Ok?)
                   && RangeOutcome(old(Tables()), ipa, pa, size, g, r, TablesSpent())
      ensures old(Secure()) ==> Secure()
    {
      hide Indices, Inv, View, FindUsage, RangeEffect, RangeOutcome, Shl, Owns, TablesOk, Isolated, TablesSpent,
        EncodeL3, Lookup, Walkable, KeepsRam, And, MoreRam, OwnedPages;
      RamSelf(vmMem);
      if size == 0 || !S1.IsPageAligned(ipa) || !S1.IsPageAligned(pa) || !S1.IsPageAligned(size) {
        return Err(S1.UnalignedMapping);
      }
      var bad := RangeError(ipa, pa, size, paBits);
      if bad.Some? {
        return Err(bad.value);
      }
      ghost var ms := vmMem;
      r := MapRange(ipa, pa, size, DEVICE);
      if HasTables() && old(Secure()) {
        RamMore(ms, vmMem);
        IsolatedRange(ms, vmMem, old(Tables()), Tables(), ipa, pa, size, DEVICE, r.Ok?);
      }
    }

    /** A guest range is acceptable if it is aligned, not empty, in range and clear of the others. */
    method ValidateIpaRange(ipa: nat, size: nat) returns (r: Result<(), A.AllocatorError>)
      requires Valid()
      ensures r.Ok? <==> IpaFits(ipa, size) && forall k | 0 <= k < |vmMem| :: IpaClear(vmMem[k], ipa, size)
      ensures r == Err(A.OverlappingIpa) <==> IpaFits(ipa, size) && !r.Ok?
      ensures r == Err(A.AddressOverflow) <==> size > 0 && ipa % PAGE_SIZE == 0 && ipa + size >= U64_LIMIT
      ensures r.Ok? || r.error in {A.OverlappingIpa, A.AddressOverflow, A.InvalidIpa}
    {
      if size == 0 || !S1.IsPageAligned(ipa) {
        return Err(A.InvalidIpa);
      }
      if ipa + size >= U64_LIMIT {
        return Err(A.AddressOverflow);
      }
      if ipa + size > VA_LIMIT {
        return Err(A.InvalidIpa);
      }
      for k := 0 to |vmMem|
        invariant forall j | 0 <= j < k :: IpaClear(vmMem[j], ipa, size)
      {
        if !vmMem[k].PaOnly? && ipa < vmMem[k].ipa + vmMem[k].size && vmMem[k].ipa < ipa + size {
          return Err(A.OverlappingIpa);
        }
      }
      return Ok(());
    }

    /** The checks of `vm_mem_alloc` up to the allocation itself. */
    method CheckAlloc(usage: Usage, ipa: Option<nat>, size: nat) returns (r: Result<nat, A.AllocatorError>)
      requires Valid() && size < U64_LIMIT
      ensures r.Ok? <==> AlignUp(size).Some? && CanAlloc(vmMem, usage, ipa, AlignUp(size).value)
      ensures r.Ok? ==> r.value == AlignUp(size).value
      ensures r == Err(A.AlreadyAllocated)
         <==> AlignUp(size).Some? && exists k | 0 <= k < |vmMem| :: vmMem[k].usage == usage
      ensures r == Err(A.InvalidateParameter)
         <==> && AlignUp(size).Some? && (forall k | 0 <= k < |vmMem| :: vmMem[k].usage != usage)
              && (ipa.None? <==> usage != Stage2Table)
      ensures r == Err(A.Exhausted)
         <==> && AlignUp(size).Some? && (forall k | 0 <= k < |vmMem| :: vmMem[k].usage != usage)
              && (ipa.None? <==> usage == Stage2Table)
              && (ipa.Some? ==> && IpaFits(ipa.value, AlignUp(size).value)
                                && forall k | 0 <= k < |vmMem| :: IpaClear(vmMem[k], ipa.value, AlignUp(size).value))
              && usage != Guard && Total(vmMem) + AlignUp(size).value / PAGE_SIZE > MAX_GUEST_MEM_PAGES
    {
      hide Indices, AlignUp, Owns, TablesOk;
      var aligned := AlignUp(size);
      if aligned.None? {
        return Err(A.AddressOverflow);
      }
      if FindUsage(vmMem, usage).Some? {
        return Err(A.AlreadyAllocated);
      }
      if ipa.Some? != (usage != Stage2Table) {
        return Err(A.InvalidateParameter);
      }
      if ipa.Some? {
        var valid := ValidateIpaRange(ipa.value, aligned.value);
        if valid.Err? {
          return Err(valid.error);
        }
      }
      if usage != Guard && Total(vmMem) + aligned.value / PAGE_SIZE > MAX_GUEST_MEM_PAGES {
        return Err(A.Exhausted);
      }
      return Ok(aligned.value);
    }

    method AllocGuard(ipa: nat, size: nat)
      requires Valid() && IpaOk(ipa, size)
      requires forall k | 0 <= k < |vmMem| :: vmMem[k].usage != Guard && IpaClear(vmMem[k], ipa, size)
      modifies this
      ensures Valid() && Others() == old(Others()) && vmMem == old(vmMem) + [IpaOnly(Guard, ipa, size)]
      ensures HasTables() == old(HasTables()) && (HasTables() ==> Tables() == old(Tables()))
    {
      hide Indices, Interval, Inv, View, Owns, TablesOk, OwnedPages, EntryPages, FindUsage;
      var m := IpaOnly(Guard, ipa, size);
      OwnedInUse(vmMem, allocator.inUse.Set());
      GuardPages(m);
      AddEntry(vmMem, m, allocator.inUse.Set(), memory, levels);
      vmMem := vmMem + [m];
    }

    method AllocTables(pages: nat) returns (r: Result<nat, A.AllocatorError>)
      requires Valid() && Total(vmMem) + pages <= MAX_GUEST_MEM_PAGES
      requires forall k | 0 <= k < |vmMem| :: vmMem[k].usage != Stage2Table
      modifies this, allocator.inUse, allocator.inUse.bits
      ensures Valid() && Others() == old(Others())
      ensures r.Err? ==> vmMem == old(vmMem) && allocator.inUse.Set() == old(allocator.inUse.Set())
      ensures r.Err? ==> memory == old(memory) && levels == old(levels)
      ensures r.Ok? <==> HasRun(old(allocator.Free()), pages)
      ensures r.Ok? ==> pages > 0 && vmMem == old(vmMem) + [PaOnly(Stage2Table, PageRun(r.value, pages))]
      ensures r.Ok? ==> HasTables() && Walkable(Tables()) && forall x: nat :: Lookup(Tables(), x) == Miss
    {
      hide Indices, Interval, Inv, View, Owns, TablesOk, OwnedPages, EntryPages, FindUsage, Lookup, HasRun;
      ghost var inUse := allocator.inUse.Set();
      r := AllocateRun(allocator, pages);
      if r.Err? {
        return;
      }
      var m := PaOnly(Stage2Table, PageRun(r.value, pages));
      RunEntry(r.value, pages);
      RunPages(r.value, pages);
      AddTables(vmMem, m, inUse, memory, r.value);
      vmMem := vmMem + [m];
      memory := Zeroed(memory, m.pas);
      levels := map[r.value := 1];
    }

    method AllocRam(usage: Usage, ipa: nat, size: nat) returns (r: Result<nat, A.AllocatorError>)
      requires Valid() && usage != Guard && usage != Stage2Table && IpaOk(ipa, size)
      requires Total(vmMem) + size / PAGE_SIZE <= MAX_GUEST_MEM_PAGES
      requires forall k | 0 <= k < |vmMem| :: vmMem[k].usage != usage && IpaClear(vmMem[k], ipa, size)
      modifies this, allocator.inUse, allocator.inUse.bits
      ensures Valid() && Others() == old(Others())
      ensures r.Err? ==> vmMem == old(vmMem) && allocator.inUse.Set() == old(allocator.inUse.Set())
      ensures r.Ok? <==> HasRun(old(allocator.Free()), size / PAGE_SIZE)
      ensures r.Ok? ==> vmMem == old(vmMem) + [IpaPa(usage, ipa, r.value, size)]
      ensures HasTables() == old(HasTables()) && (HasTables() ==> Tables() == old(Tables()))
    {
      hide Indices, Interval, Inv, View, Owns, TablesOk, OwnedPages, EntryPages, FindUsage, HasRun;
      ghost var inUse := allocator.inUse.Set();
      r := AllocateRun(allocator, size / PAGE_SIZE);
      if r.Err? {
        return;
      }
      var m := IpaPa(usage, ipa, r.value, size);
      IpaPages(m);
      AddEntry(vmMem, m, inUse, memory, levels);
      vmMem := vmMem + [m];
    }

    /** Allocate memory for a usage that has none yet: one new entry, or nothing at all. */
    method Alloc(usage: Usage, ipa: Option<nat>, size: nat) returns (r: Result<Option<nat>, A.AllocatorError>)
      requires Valid() && size < U64_LIMIT
      modifies this, allocator.inUse, allocator.inUse.bits
      ensures Valid() && Others() == old(Others())
      ensures r.Err? ==> vmMem == old(vmMem) && allocator.inUse.Set() == old(allocator.inUse.Set())
      ensures r.Ok? ==> exists m :: vmMem == old(vmMem) + [m] && EntryFits(m, usage, ipa, size, r.value)
      ensures r.Ok? <==> && AlignUp(size).Some? && CanAlloc(old(vmMem), usage, ipa, AlignUp(size).value)
                         && (usage != Guard ==> HasRun(old(allocator.Free()), AlignUp(size).value / PAGE_SIZE))
      ensures old(Secure()) ==> Secure()
      ensures old(HasTables()) ==> HasTables() && Tables() == old(Tables())
      ensures !old(HasTables()) && HasTables() ==> Walkable(Tables()) && forall x: nat :: Lookup(Tables(), x) == Miss
    {
      hide Indices, Inv, View, Owns, TablesOk, OwnedPages, IpaOk, AlignUp, HasRun, Isolated, FindUsage;
      var aligned := CheckAlloc(usage, ipa, size);
      if aligned.Err? {
        return Err(aligned.error);
      }
      if HasTables() {
        TableEntryAt(vmMem, memory, levels, allocator.inUse.Set(), FindUsage(vmMem, Stage2Table).value);
      }
      if usage == Guard {
        AllocGuard(ipa.value, aligned.value);
        StillIsolated(old(vmMem), vmMem);
        assert EntryFits(IpaOnly(Guard, ipa.value, aligned.value), usage, ipa, size, None);
        return Ok(None);
      }
      if usage == Stage2Table {
        var base := AllocTables(aligned.value / PAGE_SIZE);
        if base.Err? {
          return Err(base.error);
        }
        NothingMapped(vmMem, Tables());
        var m := PaOnly(Stage2Table, PageRun(base.value, aligned.value / PAGE_SIZE));
        assert EntryFits(m, usage, ipa, size, Some(base.value));
        return Ok(Some(base.value));
      }
      var base := AllocRam(usage, ipa.value, aligned.value);
      if base.Err? {
        return Err(base.error);
      }
      StillIsolated(old(vmMem), vmMem);
      assert EntryFits(IpaPa(usage, ipa.value, base.value, aligned.value), usage, ipa, size, Some(base.value));
      return Ok(Some(base.value));
    }

    /** Every page of the VM is freed exactly once, and no free fails. */
    method ReleaseAll()
      requires Valid()
      modifies this, allocator.inUse, allocator.inUse.bits
      ensures Valid() && vmMem == [] && allocator.inUse.Set() == old(Others()) && Secure()
    {
      hide Indices, Inv, View, OwnedPages, EntryPages, FindUsage, Separate, EntryOk, Total;
      ghost var was := allocator.inUse.Set();
      NothingOwned(was, vmMem);
      for i := 0 to |vmMem|
        invariant vmMem == old(vmMem) && allocator.Valid() && allocator.inUse.Set() == was - OwnedPages(vmMem[..i])
      {
        StillHeld(vmMem, i, was);
        ReleaseEntry(allocator, vmMem[i]);
      }
      assert vmMem[..|vmMem|] == vmMem;
      vmMem, levels := [], map[];
      NoEntries(memory, allocator.inUse.Set());
    }
  }

  lemma NothingOwned(was: set<nat>, ms: seq<VmMem>)
    ensures was - OwnedPages(ms[..0]) == was
  {
  }

  lemma NoEntries(mem: Memory, inUse: set<nat>)
    ensures Owns([], inUse) && TablesOk([], mem, map[])
  {
  }

  /** Entry `i` is untouched when those before it have been released. */
  lemma StillHeld(ms: seq<VmMem>, i: nat, was: set<nat>)
    requires Owns(ms, was) && i < |ms|
    ensures EntryOk(ms[i]) && EntryPages(ms[i]) <= was - OwnedPages(ms[..i])
    ensures was - OwnedPages(ms[..i]) - EntryPages(ms[i]) == was - OwnedPages(ms[..i + 1])
  {
    hide EntryPages, EntryOk, Total, IpaApart;
    assert ms[..i + 1] == ms[..i] + [ms[i]];
    OwnedSnoc(ms[..i], ms[i]);
    forall p | p in EntryPages(ms[i])
      ensures p !in OwnedPages(ms[..i])
    {
      OwnedMember(ms[..i], p);
      assert forall k | 0 <= k < i :: Separate(ms[k], ms[i]);
    }
  }

  /** Free the pages of one entry. */
  method ReleaseEntry(a: PageAllocator, m: VmMem)
    requires a.Valid() && EntryOk(m) && EntryPages(m) <= a.inUse.Set()
    modifies a.inUse, a.inUse.bits
    ensures a.Valid() && a.inUse.Set() == old(a.inUse.Set()) - EntryPages(m)
  {
    hide Indices, Interval, Frames;
    match m {
      case IpaOnly(_, _, _) =>
      case IpaPa(_, _, pa, size) => a.FreeSpan(pa / PAGE_SIZE, pa / PAGE_SIZE + size / PAGE_SIZE);
      case PaOnly(_, pas) => ReleasePages(a, pas);
    }
  }

  method ReleasePages(a: PageAllocator, pas: seq<nat>)
    requires a.Valid() && Frames(pas) <= a.inUse.Set()
    requires forall k | 0 <= k < |pas| :: pas[k] % PAGE_SIZE == 0
    requires forall j, k | 0 <= j < k < |pas| :: pas[j] != pas[k]
    modifies a.inUse, a.inUse.bits
    ensures a.Valid() && a.inUse.Set() == old(a.inUse.Set()) - Frames(pas)
  {
    hide Indices, Frames;
    ghost var was := a.inUse.Set();
    NoFrames(was, pas);
    for i := 0 to |pas|
      invariant a.Valid() && a.inUse.Set() == was - Frames(pas[..i])
    {
      NextFrame(pas, i, was);
      a.FreeHeld(pas[i] / PAGE_SIZE);
    }
    assert pas[..|pas|] == pas;
  }

  lemma NoFrames(was: set<nat>, pas: seq<nat>)
    ensures was - Frames(pas[..0]) == was
  {
  }

  lemma NextFrame(pas: seq<nat>, i: nat, was: set<nat>)
    requires i < |pas| && Frames(pas) <= was
    requires forall k | 0 <= k < |pas| :: pas[k] % PAGE_SIZE == 0
    requires forall j, k | 0 <= j < k < |pas| :: pas[j] != pas[k]
    ensures pas[i] / PAGE_SIZE in was - Frames(pas[..i])
    ensures was - Frames(pas[..i]) - {pas[i] / PAGE_SIZE} == was - Frames(pas[..i + 1])
  {
    FrameMember(pas, pas[i] / PAGE_SIZE);
    FrameMember(pas[..i], pas[i] / PAGE_SIZE);
    assert pas[..i + 1][..i] == pas[..i];
  }

  /** The usage is new, has a guest range exactly if it needs one, and fits the budget. */
  predicate CanAlloc(ms: seq<VmMem>, usage: Usage, ipa: Option<nat>, bytes: nat) {
    && (forall k | 0 <= k < |ms| :: ms[k].usage != usage)
    && (ipa.Some? <==> usage != Stage2Table)
    && (ipa.Some? ==> IpaOk(ipa.value, bytes) && forall k | 0 <= k < |ms| :: IpaClear(ms[k], ipa.value, bytes))
    && (usage != Guard ==> Total(ms) + bytes / PAGE_SIZE <= MAX_GUEST_MEM_PAGES)
  }

  /** The entry holds what was asked for, rounded up to pages, and `pa` is its first page. */
  predicate EntryFits(m: VmMem, usage: Usage, ipa: Option<nat>, size: nat, pa: Option<nat>) {
    && m.usage == usage
    && match m
       case IpaOnly(_, at, bytes) => usage == Guard && ipa == Some(at) && size <= bytes < size + PAGE_SIZE && pa == None
       case IpaPa(_, at, base, bytes) => ipa == Some(at) && size <= bytes < size + PAGE_SIZE && pa == Some(base)
       case PaOnly(_, pas) =>
         usage == Stage2Table && ipa == None && |pas| > 0 && pa == Some(pas[0])
         && size <= |pas| * PAGE_SIZE < size + PAGE_SIZE
  }

  /** `allocate_contiguous_pages`, in the bounds of the aperture. */
  method AllocateRun(a: PageAllocator, pages: nat) returns (r: Result<nat, A.AllocatorError>)
    requires a.Valid() && a.Aperture() * PAGE_SIZE <= PA_LIMIT
    modifies a.inUse, a.inUse.bits
    ensures a.Valid()
    ensures r.Ok? ==> pages > 0 && r.value % PAGE_SIZE == 0 && r.value < PA_LIMIT
                      && Interval(r.value / PAGE_SIZE, r.value / PAGE_SIZE + pages) !! old(a.inUse.Set())
                      && a.inUse.Set()
                         == old(a.inUse.Set()) + Interval(r.value / PAGE_SIZE, r.value / PAGE_SIZE + pages)
    ensures r.Err? ==> a.inUse.Set() == old(a.inUse.Set())
    ensures r.Ok? <==> HasRun(old(a.Free()), pages)
  {
    hide Indices;
    ghost var free := a.Free();
    r := a.AllocateContiguous(pages);
    if r.Ok? {
      assert r.value / PAGE_SIZE in free;
      a.FreeInAperture(r.value / PAGE_SIZE);
    }
  }

  function Zeroed(mem: Memory, pas: seq<nat>): (m: Memory)
    ensures forall k | 0 <= k < |pas| :: pas[k] in m && m[pas[k]] == ZeroPage()
  {
    if pas == [] then mem else Zeroed(mem, pas[..|pas| - 1])[pas[|pas| - 1] := ZeroPage()]
  }

  lemma RunPages(pa: nat, pages: nat)
    requires pa % PAGE_SIZE == 0
    ensures EntryPages(PaOnly(Stage2Table, PageRun(pa, pages))) == Interval(pa / PAGE_SIZE, pa / PAGE_SIZE + pages)
  {
    hide Interval;
    RunFrames(pa, pages);
  }

  lemma GuardPages(m: VmMem)
    requires m.IpaOnly?
    ensures EntryPages(m) == {} && PhysicalPages(m) == 0
  {
  }

  lemma IpaPages(m: VmMem)
    requires m.IpaPa?
    ensures EntryPages(m) == Interval(m.pa / PAGE_SIZE, m.pa / PAGE_SIZE + m.size / PAGE_SIZE)
  {
    hide Interval;
  }

  /** A new entry that is not the tables. */
  lemma AddEntry(ms: seq<VmMem>, m: VmMem, inUse: set<nat>, mem: Memory, lv: map<nat, nat>)
    requires Owns(ms, inUse) && TablesOk(ms, mem, lv) && EntryOk(m) && !m.PaOnly? && EntryPages(m) !! inUse
    requires Total(ms) + PhysicalPages(m) <= MAX_GUEST_MEM_PAGES
    requires forall k | 0 <= k < |ms| :: ms[k].usage != m.usage && IpaClear(ms[k], m.ipa, m.size)
    ensures Owns(ms + [m], inUse + EntryPages(m)) && TablesOk(ms + [m], mem, lv)
    ensures (inUse + EntryPages(m)) - OwnedPages(ms + [m]) == inUse - OwnedPages(ms)
    ensures m.IpaOnly? ==> inUse + EntryPages(m) == inUse
    ensures FindUsage(ms + [m], Stage2Table) == FindUsage(ms, Stage2Table)
  {
    hide Inv, Owns, OwnedPages, PhysicalPages;
    OwnsSnoc(ms, m, inUse);
    assert (ms + [m])[..|ms|] == ms;
  }

  /** The tables, rooted at their first page. */
  lemma AddTables(ms: seq<VmMem>, m: VmMem, inUse: set<nat>, mem: Memory, root: nat)
    requires Owns(ms, inUse) && EntryOk(m) && m.PaOnly? && EntryPages(m) !! inUse && m.pas[0] == root && root < PA_LIMIT
    requires Total(ms) + PhysicalPages(m) <= MAX_GUEST_MEM_PAGES
    requires forall k | 0 <= k < |ms| :: ms[k].usage != m.usage
    ensures Owns(ms + [m], inUse + EntryPages(m)) && TablesOk(ms + [m], Zeroed(mem, m.pas), map[root := 1])
    ensures (inUse + EntryPages(m)) - OwnedPages(ms + [m]) == inUse - OwnedPages(ms)
    ensures FindUsage(ms + [m], Stage2Table) == Some(|ms|) && Inv(Zeroed(mem, m.pas), map[root := 1], root)
    ensures forall x: nat :: Lookup(View(Zeroed(mem, m.pas), map[root := 1], root), x) == Miss
  {
    hide Inv, Owns, OwnedPages, PhysicalPages, EntryPages;
    OwnsSnoc(ms, m, inUse);
    assert (ms + [m])[..|ms|] == ms;
    FreshRoot(Zeroed(mem, m.pas), root);
  }

  lemma PageUnchanged(v: Tree<nat>, w: Tree<nat>, ipa: nat, d: nat)
    requires Walkable(v) && (v == w || SameLookups(v, w))
    ensures PageEffect(v, w, ipa, d, false)
  {
    hide Lookup;
  }

  lemma SameLookupsThen(a: Tree<nat>, b: Tree<nat>, c: Tree<nat>)
    requires SameLookups(a, b) && SameLookups(b, c)
    ensures SameLookups(a, c)
  {
    hide Lookup;
  }

  lemma BlockTaken(a: Tree<nat>, b: Tree<nat>, ipa: nat, d: nat)
    requires Walkable(a) && (a == b || SameLookups(a, b))
    ensures Walkable(b) && (BlockAt(b, ipa) ==> Taken(a, ipa, d))
  {
    hide Lookup;
  }

  lemma SameLookupsAt(a: Tree<nat>, b: Tree<nat>, ipa: nat)
    requires SameLookups(a, b)
    ensures Lookup(a, ipa) == Lookup(b, ipa)
  {
    hide Lookup;
  }

  lemma PutEffect(mem: Memory, lv: map<nat, nat>, root: nat, p: nat, ipa: nat, d: nat, v: Tree<nat>)
    requires Inv(mem, lv, root) && Reach(View(mem, lv, root), 3, ipa) == At(p) && SameLookups(v, View(mem, lv, root))
    requires ipa % PAGE_SIZE == 0 && ipa < VA_LIMIT && IsValid(d)
    ensures p in lv && p in mem && |mem[p]| == ENTRIES
    ensures var current, mem' := mem[p][Index(3, ipa)], Put(mem, p, Index(3, ipa), d);
            && Inv(mem', lv, root)
            && (IsValid(current) ==> PageEffect(v, View(mem, lv, root), ipa, d, current == d))
            && (IsValid(current) && current != d ==> Taken(v, ipa, d))
            && (!IsValid(current) ==> PageEffect(v, View(mem', lv, root), ipa, d, true))
  {
    hide Inv, View, Reach, Index, IsValid, Lookup, Put;
    PutCorrect(mem, lv, root, p, ipa, d);
    EntryIsLookup(mem, lv, root, p, ipa, ipa);
    SameLookupsAt(v, View(mem, lv, root), ipa);
    forall x: nat | x < VA_LIMIT && ipa <= x < ipa + PAGE_SIZE
      ensures Lookup(v, x) == if IsValid(mem[p][Index(3, ipa)]) then Hit(mem[p][Index(3, ipa)], 3) else Miss
    {
      EntryIsLookup(mem, lv, root, p, ipa, x);
      SameLookupsAt(v, View(mem, lv, root), x);
    }
  }

  lemma SameLookupsSelf(v: Tree<nat>)
    requires Walkable(v)
    ensures SameLookups(v, v)
  {
  }

  /** How the walk goes on from the entry that the page holds. */
  lemma NextEntry(mem: Memory, lv: map<nat, nat>, root: nat, p: nat, level: nat, ipa: nat)
    requires Inv(mem, lv, root) && 1 <= level < 3 && Reach(View(mem, lv, root), level, ipa) == At(p)
    ensures p in lv && p in mem && |mem[p]| == ENTRIES
    ensures var d := mem[p][Index(level, ipa)];
            && (IsValid(d) && IsTableOrPage(d) ==>
                  Reach(View(mem, lv, root), level + 1, ipa) == At(And(d, ADDRESS_MASK)))
            && (IsValid(d) && !IsTableOrPage(d) ==> BlockAt(View(mem, lv, root), ipa))
  {
    hide Index, IsValid, IsTableOrPage, And;
    InvPage(mem, lv, root, p);
    LookupFrom(View(mem, lv, root), level, ipa);
  }

  /** Linking a page that is already zero. */
  lemma LinkKnown(mem: Memory, p: nat, i: nat, c: nat)
    requires p in mem && i < |mem[p]| && c in mem && mem[c] == ZeroPage() && p != c
    ensures Link(mem, p, i, c) == Put(mem, p, i, TableEntry(c))
  {
    hide TableEntry;
  }

  /** `allocate_page`: the lowest unused page. */
  method AllocatePage(a: PageAllocator) returns (r: Result<nat, A.AllocatorError>)
    requires a.Valid() && a.Aperture() * PAGE_SIZE <= PA_LIMIT
    modifies a.inUse, a.inUse.bits
    ensures a.Valid()
    ensures r.Ok? ==> r.value % PAGE_SIZE == 0 && r.value < PA_LIMIT && r.value / PAGE_SIZE !in old(a.inUse.Set())
                      && a.inUse.Set() == old(a.inUse.Set()) + {r.value / PAGE_SIZE}
    ensures r.Err? ==> a.inUse.Set() == old(a.inUse.Set()) && a.Free() == {}
  {
    hide Indices, Interval;
    ghost var free := a.Free();
    r := a.AllocateContiguous(1);
    NoneFree(free);
    if r.Ok? {
      OnePage(free, r.value / PAGE_SIZE);
      a.FreeInAperture(r.value / PAGE_SIZE);
    }
  }

  lemma NoneFree(free: set<nat>)
    ensures (forall start: nat :: !FreeRun(free, start, 1)) ==> free == {}
  {
    if p :| p in free {
      assert FreeRun(free, p, 1);
    }
  }

  lemma OnePage(free: set<nat>, start: nat)
    requires FreeRun(free, start, 1)
    ensures start in free && Interval(start, start + 1) == {start}
  {
  }

  lemma FreshPage(m: VmMem, pa: nat, inUse: set<nat>)
    requires m.PaOnly? && EntryPages(m) <= inUse && pa / PAGE_SIZE !in inUse
    ensures pa !in m.pas
  {
    FrameMember(m.pas, pa / PAGE_SIZE);
  }

  // A guest's life.

  datatype VmOp =
    | OpAlloc(usage: Usage, ipa: Option<nat>, size: nat)
    | OpMap(usage: Usage, g: Grant, paBits: nat)
    | OpDevice(at: nat, pa: nat, bytes: nat, paBits: nat)

  /** A device window that the operation asks for is clear of `u`. */
  ghost predicate OpClear(op: VmOp, u: iset<nat>) {
    op.OpDevice? ==> WindowClear(op.pa, op.bytes, u)
  }

  /** One operation. Entries once valid stay; confinement to `u` is kept if a device window is clear of
      it; and a window that was mapped is there. */
  method RunOp(vm: VmCtl, op: VmOp, ghost u: iset<nat>) returns (ok: bool)
    requires vm.Valid() && vm.Secure() && (op.OpAlloc? ==> op.size < U64_LIMIT)
    modifies vm, vm.allocator.inUse, vm.allocator.inUse.bits
    ensures vm.Valid() && vm.Secure() && vm.Others() == old(vm.Others()) && MoreRam(old(vm.vmMem), vm.vmMem)
    ensures old(vm.HasTables()) ==> vm.HasTables() && Grows(old(vm.Tables()), vm.Tables())
    ensures old(vm.Keeps(u)) && OpClear(op, u) ==> vm.Keeps(u)
    ensures ok && op.OpDevice? ==> vm.Shows(op.at, op.pa, op.bytes) && op.at + op.bytes <= VA_LIMIT
  {
    hide Indices, Owns, TablesOk, OwnedPages, FindUsage, RangeEffect, Shl, EntryFits, CanAlloc, HasRun, AlignUp,
      RangeOutcome, Isolated, Lookup, Walkable, Confined, KeepsRam, MoreRam, WindowMapped, WindowClear, Grows;
    ghost var ms, inUse := vm.vmMem, vm.allocator.inUse.Set();
    if vm.HasTables() {
      TableEntryAt(ms, vm.memory, vm.levels, inUse, FindUsage(ms, Stage2Table).value);
      GrowsSelf(vm.Tables());
    }
    RamSelf(ms);
    RamMore(ms, ms);
    match op
    case OpAlloc(usage, ipa, size) =>
      var r := vm.Alloc(usage, ipa, size);
      ok := r.Ok?;
      AfterAlloc(ms, vm.vmMem);
      if !old(vm.HasTables()) && vm.HasTables() {
        NothingConfined(vm.vmMem, vm.Tables(), u);
      }
    case OpMap(usage, g, paBits) =>
      EntryFactsAll(vm.allocator, ms);
      var r := vm.MapUsage(usage, g, paBits);
      ok := r.Ok?;
      RamMore(ms, vm.vmMem);
      ghost var k := FindUsage(ms, usage);
      if vm.HasTables() && k.Some? && UsageTried(ms[k.value], paBits) {
        UsageConfined(ms, vm.vmMem, k.value, old(vm.Tables()), vm.Tables(), g, r.Ok?, u);
      }
    case OpDevice(at, pa, bytes, paBits) =>
      var r := vm.MapExternalDevice(at, pa, bytes, paBits);
      ok := r.Ok?;
      RamMore(ms, vm.vmMem);
      if vm.HasTables() && DeviceTried(at, pa, bytes, paBits) {
        DeviceConfined(ms, vm.vmMem, old(vm.Tables()), vm.Tables(), at, pa, bytes, r.Ok?, u);
      }
  }

  /** The entry can be mapped and the checks on its range pass. */
  predicate UsageTried(m: VmMem, paBits: nat) {
    m.IpaPa? && RangeError(m.ipa, m.pa, m.size, paBits).None?
  }

  /** The checks of `map_external_device` pass. */
  predicate DeviceTried(ipa: nat, pa: nat, size: nat, paBits: nat) {
    && size > 0 && ipa % PAGE_SIZE == 0 && pa % PAGE_SIZE == 0 && size % PAGE_SIZE == 0
    && RangeError(ipa, pa, size, paBits).None?
  }

  lemma AfterAlloc(ms: seq<VmMem>, ms': seq<VmMem>)
    ensures ms <= ms' ==> MoreRam(ms, ms')
    ensures forall v: Tree<nat>, u: iset<nat> | ms <= ms' && Walkable(v) && Confined(ms, v, u) :: Confined(ms', v, u)
  {
    hide Lookup, Walkable, Allowed;
    if ms <= ms' {
      forall d: nat, u: iset<nat> | Allowed(ms, d, u)
        ensures Allowed(ms', d, u)
      {
        AllowedKept(ms, ms', d, u);
      }
    }
  }

  lemma NothingConfined(ms: seq<VmMem>, v: Tree<nat>, u: iset<nat>)
    requires Walkable(v) && forall x: nat :: Lookup(v, x) == Miss
    ensures Confined(ms, v, u)
  {
    hide Lookup, Allowed;
  }

  lemma EntryFactsAll(a: PageAllocator, ms: seq<VmMem>)
    requires a.Valid() && a.Aperture() * PAGE_SIZE <= PA_LIMIT && Owns(ms, a.inUse.Set())
    ensures forall k | 0 <= k < |ms| && ms[k].IpaPa? :: EntryOk(ms[k]) && ms[k].pa + ms[k].size <= PA_LIMIT
  {
    hide Owns, EntryOk, Indices;
    forall k | 0 <= k < |ms| && ms[k].IpaPa?
      ensures EntryOk(ms[k]) && ms[k].pa + ms[k].size <= PA_LIMIT
    {
      EntryFacts(a, ms, k);
    }
  }

  lemma UsageConfined(
    ms: seq<VmMem>, ms': seq<VmMem>, k: nat, v: Tree<nat>, w: Tree<nat>, g: Grant, ok: bool, u: iset<nat>)
    requires k < |ms| && ms[k].IpaPa? && EntryOk(ms[k]) && ms[k].pa + ms[k].size <= PA_LIMIT && MoreRam(ms, ms')
    requires RangeEffect(v, w, ms[k].ipa, ms[k].pa, ms[k].size, g, ok)
    ensures Grows(v, w) && (Confined(ms, v, u) ==> Confined(ms', w, u))
  {
    hide RangeEffect, Confined, MoreRam, InRam, And, EncodeL3, EntryOk, Walkable, Grows;
    var m := ms[k];
    RangeGrows(v, w, m.ipa, m.pa, m.size, g, ok);
    forall x: nat | m.ipa <= x < m.ipa + m.size
      ensures Allowed(ms, EntryFor(m.ipa, m.pa, g, x), u)
    {
      RamFrames(ms, k, g, x);
    }
    assert Walkable(v) by { RangeWalkable(v, w, m.ipa, m.pa, m.size, g, ok); }
    if Confined(ms, v, u) {
      ConfinedRange(ms, ms', v, w, m.ipa, m.pa, m.size, g, ok, u);
    }
  }

  lemma RangeWalkable(v: Tree<nat>, w: Tree<nat>, ipa: nat, pa: nat, size: nat, g: Grant, ok: bool)
    requires RangeEffect(v, w, ipa, pa, size, g, ok)
    ensures Walkable(v) && Walkable(w)
  {
  }

  lemma DeviceConfined(
    ms: seq<VmMem>, ms': seq<VmMem>, v: Tree<nat>, w: Tree<nat>, ipa: nat, pa: nat, size: nat, ok: bool, u: iset<nat>)
    requires MoreRam(ms, ms') && RangeEffect(v, w, ipa, pa, size, DEVICE, ok) && size % PAGE_SIZE == 0
    ensures Walkable(v) && Walkable(w) && Grows(v, w)
    ensures Confined(ms, v, u) && WindowClear(pa, size, u) ==> Confined(ms', w, u)
    ensures ok ==> WindowMapped(w, ipa, pa, size)
  {
    hide RangeEffect, Confined, MoreRam, Allowed, EntryFor, Walkable, Grows, WindowClear, WindowMapped;
    RangeGrows(v, w, ipa, pa, size, DEVICE, ok);
    RangeWalkable(v, w, ipa, pa, size, DEVICE, ok);
    if ok {
      WindowDone(v, w, ipa, pa, size);
    }
    if Confined(ms, v, u) && WindowClear(pa, size, u) {
      forall x: nat | ipa <= x < ipa + size
        ensures Allowed(ms, EntryFor(ipa, pa, DEVICE, x), u)
      {
        WindowAllowed(ms, ipa, pa, size, u, x);
      }
      ConfinedRange(ms, ms', v, w, ipa, pa, size, DEVICE, ok, u);
    }
  }

  /** Page `p` belongs to a device window that some operation asks for. */
  ghost predicate InWindows(ops: seq<VmOp>, p: nat) {
    exists k, i: nat :: WindowPage(ops, k, i) && p == DevicePage(ops[k].pa, i)
  }

  predicate WindowPage(ops: seq<VmOp>, k: int, i: nat) {
    0 <= k < |ops| && ops[k].OpDevice? && i < ops[k].bytes / PAGE_SIZE
  }

  ghost function Elsewhere(ops: seq<VmOp>): iset<nat> {
    iset p: nat | !InWindows(ops, p)
  }

  lemma OwnWindowsClear(ops: seq<VmOp>, k: nat)
    requires k < |ops|
    ensures OpClear(ops[k], Elsewhere(ops))
  {
    hide DevicePage;
    if ops[k].OpDevice? {
      forall i: nat | i < ops[k].bytes / PAGE_SIZE
        ensures InWindows(ops, DevicePage(ops[k].pa, i))
      {
        assert WindowPage(ops, k, i);
      }
    }
  }

  /** Everything that the tables map is guest memory of the VM or a page of a device window asked for. */
  ghost predicate Accounted(ms: seq<VmMem>, v: Tree<nat>, ops: seq<VmOp>)
    requires Walkable(v)
  {
    forall x: nat | x < VA_LIMIT && Lookup(v, x).Hit? ::
      var p := And(Lookup(v, x).leaf, ADDRESS_MASK) / PAGE_SIZE; InRam(ms, p) || InWindows(ops, p)
  }

  lemma AccountedFor(ms: seq<VmMem>, v: Tree<nat>, ops: seq<VmOp>)
    requires Walkable(v) && Confined(ms, v, Elsewhere(ops))
    ensures Accounted(ms, v, ops)
  {
    hide Lookup, And, InRam, InWindows;
  }

  /** Every device window that was mapped is there. */
  ghost predicate AllShown(v: Tree<nat>, ops: seq<VmOp>, oks: seq<bool>)
    requires Walkable(v) && |oks| == |ops|
  {
    forall k | 0 <= k < |ops| && oks[k] && ops[k].OpDevice? ::
      WindowMapped(v, ops[k].at, ops[k].pa, ops[k].bytes) && ops[k].at + ops[k].bytes <= VA_LIMIT
  }

  /** So if all windows were mapped, then nothing mapped lies in `u`, guest memory aside, exactly when no
      device window does. */
  lemma ConfinedIff(ms: seq<VmMem>, v: Tree<nat>, ops: seq<VmOp>, oks: seq<bool>, u: iset<nat>)
    requires Walkable(v) && |oks| == |ops| && Accounted(ms, v, ops) && AllShown(v, ops, oks)
    requires forall k | 0 <= k < |ops| && ops[k].OpDevice? :: oks[k]
    ensures Confined(ms, v, u)
       <==> forall k, i: nat | WindowPage(ops, k, i) ::
              DevicePage(ops[k].pa, i) !in u || InRam(ms, DevicePage(ops[k].pa, i))
  {
    hide Lookup, And, InRam, DevicePage, WindowMapped, Walkable;
    if Confined(ms, v, u) {
      forall k, i: nat | WindowPage(ops, k, i)
        ensures DevicePage(ops[k].pa, i) !in u || InRam(ms, DevicePage(ops[k].pa, i))
      {
        WindowConfined(ms, v, ops[k].at, ops[k].pa, ops[k].bytes, u, i);
      }
    }
  }

  /** Whatever a VM does, and however its operations fail: what its tables map as normal memory is its
      own guest memory and none of its tables, and the pages of others are left alone. Everything that
      the tables of a new VM map is guest memory or lies in a device window that was asked for, and
      every window that was mapped is there. */
  method RunOps(vm: VmCtl, ops: seq<VmOp>) returns (oks: seq<bool>)
    requires vm.Valid() && vm.Secure()
    requires forall k | 0 <= k < |ops| && ops[k].OpAlloc? :: ops[k].size < U64_LIMIT
    modifies vm, vm.allocator.inUse, vm.allocator.inUse.bits
    ensures vm.Valid() && vm.Secure() && vm.Others() == old(vm.Others()) && |oks| == |ops|
    ensures vm.HasTables() ==>
              forall x: nat | x < VA_LIMIT && Lookup(vm.Tables(), x).Hit? && IsNormal(Lookup(vm.Tables(), x).leaf) ::
                var p := And(Lookup(vm.Tables(), x).leaf, ADDRESS_MASK) / PAGE_SIZE;
                && p in OwnedPages(vm.vmMem)
                && forall t | t in vm.vmMem[FindUsage(vm.vmMem, Stage2Table).value].pas :: t / PAGE_SIZE != p
    ensures vm.HasTables() ==> Walkable(vm.Tables()) && AllShown(vm.Tables(), ops, oks)
    ensures !vm.HasTables() ==> forall k | 0 <= k < |ops| && ops[k].OpDevice? :: !oks[k]
    ensures !old(vm.HasTables()) && vm.HasTables() ==> Accounted(vm.vmMem, vm.Tables(), ops)
  {
    hide Indices, Owns, TablesOk, OwnedPages, FindUsage, Isolated, And, Lookup, IsNormal, Walkable, Confined,
      WindowMapped, Grows, MoreRam, WindowClear, InRam, DevicePage, OpClear, Elsewhere, Accounted;
    ghost var u := Elsewhere(ops);
    oks := [];
    for i := 0 to |ops|
      invariant vm.Valid() && vm.Others() == old(vm.Others()) && vm.Secure() && |oks| == i
      invariant !old(vm.HasTables()) ==> vm.Keeps(u)
      invariant forall k | 0 <= k < i && oks[k] && ops[k].OpDevice? ::
                  vm.Shows(ops[k].at, ops[k].pa, ops[k].bytes) && ops[k].at + ops[k].bytes <= VA_LIMIT
    {
      ghost var v := if vm.HasTables() then Some(vm.Tables()) else None;
      OwnWindowsClear(ops, i);
      var ok := RunOp(vm, ops[i], u);
      if v.Some? {
        StillShown(v.value, vm.Tables());
      }
      oks := oks + [ok];
    }
    if vm.HasTables() {
      ghost var ms, inUse := vm.vmMem, vm.allocator.inUse.Set();
      TableEntryAt(ms, vm.memory, vm.levels, inUse, FindUsage(ms, Stage2Table).value);
      IsolatedMeans(ms, inUse, vm.Tables());
      if !old(vm.HasTables()) {
        AccountedFor(ms, vm.Tables(), ops);
      }
    }
  }

  lemma StillShown(v: Tree<nat>, w: Tree<nat>)
    requires Grows(v, w)
    ensures Walkable(v) && Walkable(w)
    ensures forall ipa: nat, pa: nat, size: nat | WindowMapped(v, ipa, pa, size) :: WindowMapped(w, ipa, pa, size)
  {
    hide WindowMapped, Walkable, Lookup;
    forall ipa: nat, pa: nat, size: nat | WindowMapped(v, ipa, pa, size)
      ensures WindowMapped(w, ipa, pa, size)
    {
      WindowStays(v, w, ipa, pa, size);
    }
  }

  lemma IsolatedMeans(ms: seq<VmMem>, inUse: set<nat>, v: Tree<nat>)
    requires Owns(ms, inUse) && Walkable(v) && Isolated(ms, v)
    requires FindUsage(ms, Stage2Table).Some? && ms[FindUsage(ms, Stage2Table).value].PaOnly?
    ensures forall x: nat | x < VA_LIMIT && Lookup(v, x).Hit? && IsNormal(Lookup(v, x).leaf) ::
              var p := And(Lookup(v, x).leaf, ADDRESS_MASK) / PAGE_SIZE;
              p in OwnedPages(ms) && forall t | t in ms[FindUsage(ms, Stage2Table).value].pas :: t / PAGE_SIZE != p
  {
    hide Owns, OwnedPages, And, Lookup, IsNormal, InRam, Walkable, FindUsage;
    forall x: nat | x < VA_LIMIT && Lookup(v, x).Hit? && IsNormal(Lookup(v, x).leaf)
      ensures var p := And(Lookup(v, x).leaf, ADDRESS_MASK) / PAGE_SIZE;
              p in OwnedPages(ms) && forall t | t in ms[FindUsage(ms, Stage2Table).value].pas :: t / PAGE_SIZE != p
    {
      RamIsOwned(ms, inUse, And(Lookup(v, x).leaf, ADDRESS_MASK) / PAGE_SIZE);
    }
  }

  /** Teardown after any run leaves exactly the pages in use that were in use before: the counts the
      source compares are equal. */
  method RunGuest(a: PageAllocator, ops: seq<VmOp>)
    requires a.Valid() && a.Aperture() * PAGE_SIZE <= PA_LIMIT
    requires forall k | 0 <= k < |ops| && ops[k].OpAlloc? :: ops[k].size < U64_LIMIT
    modifies a.inUse, a.inUse.bits
    ensures a.Valid() && a.inUse.Set() == old(a.inUse.Set()) && a.inUse.setPages == old(a.inUse.setPages)
  {
    hide Indices, Owns, TablesOk, OwnedPages, FindUsage, And, Lookup, IsNormal, Walkable;
    var vm := new VmCtl(a);
    var _ := RunOps(vm, ops);
    vm.ReleaseAll();
  }
}
