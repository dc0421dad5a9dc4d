/** Stacks of the secondary CPUs: allocated together or not at all. */
module Stacks {
  import opened Wrappers
  import opened Bits
  import opened Descriptor
  import opened PageBitmaps
  import A = PageAllocators
  import opened PageAllocators

  const STACK_SIZE: nat := 0x1_0000
  const STACK_PAGES: nat := 17

  datatype Cpu = Cpu(enabled: bool, logicalId: Option<nat>, affinity: nat)

  datatype StackLayout = StackLayout(guard: nat, bottom: nat, top: nat)

  datatype SecondaryStack = SecondaryStack(logicalId: nat, affinity: nat, layout: StackLayout)

  /** One guard page below a 64 KiB stack. */
  function LayoutOf(base: nat): (r: Option<StackLayout>)
    ensures r.Some? <==> base % PAGE_SIZE == 0 && base + STACK_PAGES * PAGE_SIZE < U64_LIMIT
    ensures r.Some? ==> r.value.guard == base && r.value.bottom == base + PAGE_SIZE
                        && r.value.top == base + STACK_PAGES * PAGE_SIZE
  {
    if base % PAGE_SIZE != 0 then None
    else if base + PAGE_SIZE >= U64_LIMIT then None
    else if base + PAGE_SIZE + STACK_SIZE >= U64_LIMIT then None
    else Some(StackLayout(base, base + PAGE_SIZE, base + PAGE_SIZE + STACK_SIZE))
  }

  /** The pages of a stack and its guard. */
  ghost function StackPages(s: SecondaryStack): set<nat> {
    Interval(s.layout.guard / PAGE_SIZE, s.layout.guard / PAGE_SIZE + STACK_PAGES)
  }

  ghost function Owned(stacks: seq<SecondaryStack>): set<nat> {
    if stacks == [] then {} else StackPages(stacks[0]) + Owned(stacks[1..])
  }

  /** Whole stacks on pages outside `taken`, no two sharing a page. */
  ghost predicate Placed(stacks: seq<SecondaryStack>, taken: set<nat>) {
    && (forall k | 0 <= k < |stacks| ::
          LayoutOf(stacks[k].layout.guard) == Some(stacks[k].layout) && StackPages(stacks[k]) !! taken)
    && (forall j, k | 0 <= j < k < |stacks| :: StackPages(stacks[j]) !! StackPages(stacks[k]))
  }

  /** An enabled CPU other than the boot CPU. */
  predicate IsSecondary(cpu: Cpu) {
    cpu.enabled && cpu.logicalId != Some(0)
  }

  /** The secondaries, in order. */
  function Secondaries(cpus: seq<Cpu>): seq<Cpu> {
    if cpus == [] then []
    else
      var last := cpus[|cpus| - 1];
      Secondaries(cpus[..|cpus| - 1]) + (if IsSecondary(last) then [last] else [])
  }

  /** A CPU gets a stack exactly if it is enabled and is not CPU 0. */
  lemma {:induction false} SecondariesAre(cpus: seq<Cpu>, cpu: Cpu)
    ensures cpu in Secondaries(cpus) <==> cpu in cpus && cpu.enabled && (cpu.logicalId.None? || cpu.logicalId.value > 0)
    ensures |Secondaries(cpus)| <= |cpus|
    decreases |cpus|
  {
    if cpus != [] {
      var before, last := cpus[..|cpus| - 1], cpus[|cpus| - 1];
      SecondariesAre(before, cpu);
      assert cpus == before + [last];
    }
  }

  /** One stack for each enabled secondary, in order. */
  predicate Serves(stacks: seq<SecondaryStack>, cpus: seq<Cpu>) {
    && |stacks| == |Secondaries(cpus)|
    && forall k | 0 <= k < |stacks| ::
         && Secondaries(cpus)[k].logicalId == Some(stacks[k].logicalId)
         && Secondaries(cpus)[k].affinity == stacks[k].affinity
  }

  lemma {:induction false} OwnedSnoc(stacks: seq<SecondaryStack>, s: SecondaryStack)
    ensures Owned(stacks + [s]) == Owned(stacks) + StackPages(s)
  {
    hide StackPages;
    if stacks == [] {
      assert stacks + [s] == [s];
    } else {
      OwnedSnoc(stacks[1..], s);
      assert (stacks + [s])[1..] == stacks[1..] + [s];
    }
  }

  lemma {:induction false} OwnedMember(stacks: seq<SecondaryStack>, p: nat)
    ensures p in Owned(stacks) <==> exists k :: 0 <= k < |stacks| && p in StackPages(stacks[k])
  {
    hide StackPages;
    if stacks != [] {
      OwnedMember(stacks[1..], p);
      if p in Owned(stacks[1..]) {
        var k :| 0 <= k < |stacks[1..]| && p in StackPages(stacks[1..][k]);
        assert p in StackPages(stacks[k + 1]);
      }
      if k :| 0 <= k < |stacks| && p in StackPages(stacks[k]) {
        assert k > 0 ==> p in StackPages(stacks[1..][k - 1]);
      }
    }
  }

  /** A run of free pages can be placed next to the stacks placed so far. */
  lemma PlaceOne(stacks: seq<SecondaryStack>, s: SecondaryStack, taken: set<nat>)
    requires Placed(stacks, taken) && LayoutOf(s.layout.guard) == Some(s.layout)
    requires StackPages(s) !! taken + Owned(stacks)
    ensures Placed(stacks + [s], taken)
  {
    hide StackPages, LayoutOf;
    forall j | 0 <= j < |stacks|
      ensures StackPages(stacks[j]) !! StackPages(s)
    {
      forall p | p in StackPages(stacks[j])
        ensures p !in StackPages(s)
      {
        OwnedMember(stacks, p);
      }
    }
  }

  lemma ServeOne(stacks: seq<SecondaryStack>, s: SecondaryStack, cpus: seq<Cpu>, i: nat)
    requires i < |cpus| && Serves(stacks, cpus[..i]) && IsSecondary(cpus[i])
    requires cpus[i].logicalId == Some(s.logicalId) && cpus[i].affinity == s.affinity
    ensures Serves(stacks + [s], cpus[..i + 1])
  {
    assert cpus[..i + 1][..i] == cpus[..i];
  }

  lemma ServeNone(stacks: seq<SecondaryStack>, cpus: seq<Cpu>, i: nat)
    requires i < |cpus| && Serves(stacks, cpus[..i]) && !IsSecondary(cpus[i])
    ensures Serves(stacks, cpus[..i + 1])
  {
    assert cpus[..i + 1][..i] == cpus[..i];
  }

  // How many stacks fit.

  /** `starts` are runs of stack size in `free`, one after the other. */
  ghost predicate Packing(free: set<nat>, starts: seq<nat>) {
    && (forall k | 0 <= k < |starts| :: FreeRun(free, starts[k], STACK_PAGES))
    && (forall j, k | 0 <= j < k < |starts| :: starts[j] + STACK_PAGES <= starts[k])
  }

  /** `n` stacks that share no page fit into the free pages. */
  ghost predicate Fits(free: set<nat>, n: nat) {
    exists starts :: |starts| == n && Packing(free, starts)
  }

  lemma FitsFewer(free: set<nat>, n: nat, m: nat)
    requires Fits(free, n) && m <= n
    ensures Fits(free, m)
  {
    var starts :| |starts| == n && Packing(free, starts);
    assert |starts[..m]| == m && Packing(free, starts[..m]);
  }

  lemma FitsOne(free: set<nat>)
    ensures Fits(free, 1) <==> HasRun(free, STACK_PAGES)
  {
    if Fits(free, 1) {
      var starts :| |starts| == 1 && Packing(free, starts);
      assert FreeRun(free, starts[0], STACK_PAGES);
    }
    if HasRun(free, STACK_PAGES) {
      var start: nat :| FreeRun(free, start, STACK_PAGES);
      assert |[start]| == 1 && Packing(free, [start]);
    }
  }

  lemma FitsNone(free: set<nat>)
    ensures Fits(free, 0)
  {
    var none: seq<nat> := [];
    assert |none| == 0 && Packing(free, none);
  }

  /** Taking the lowest run is never wrong: whatever fits still fits. */
  lemma LowestIsBest(free: set<nat>, start: nat, n: nat)
    requires LowestRun(free, start, STACK_PAGES)
    ensures Fits(free, n + 1) <==> Fits(free - Interval(start, start + STACK_PAGES), n)
  {
    var rest := free - Interval(start, start + STACK_PAGES);
    if Fits(free, n + 1) {
      var starts :| |starts| == n + 1 && Packing(free, starts);
      PackingRest(free, start, starts);
    }
    if Fits(rest, n) {
      var starts :| |starts| == n && Packing(rest, starts);
      PackingMore(free, start, starts);
    }
  }

  lemma PackingRest(free: set<nat>, start: nat, starts: seq<nat>)
    requires LowestRun(free, start, STACK_PAGES) && |starts| > 0 && Packing(free, starts)
    ensures Packing(free - Interval(start, start + STACK_PAGES), starts[1..])
  {
    assert FreeRun(free, starts[0], STACK_PAGES) && start <= starts[0];
    forall k | 0 <= k < |starts[1..]|
      ensures FreeRun(free - Interval(start, start + STACK_PAGES), starts[1..][k], STACK_PAGES)
    {
      assert FreeRun(free, starts[k + 1], STACK_PAGES) && starts[0] + STACK_PAGES <= starts[k + 1];
    }
  }

  lemma RunIn(some: set<nat>, all: set<nat>, start: nat)
    requires some <= all && FreeRun(some, start, STACK_PAGES)
    ensures FreeRun(all, start, STACK_PAGES) && start in some
  {
  }

  lemma PackingMore(free: set<nat>, start: nat, starts: seq<nat>)
    requires LowestRun(free, start, STACK_PAGES)
    requires Packing(free - Interval(start, start + STACK_PAGES), starts)
    ensures Packing(free, [start] + starts)
  {
    var rest := free - Interval(start, start + STACK_PAGES);
    forall k | 0 <= k < |starts|
      ensures start + STACK_PAGES <= starts[k] && FreeRun(free, starts[k], STACK_PAGES)
    {
      RunIn(rest, free, starts[k]);
      if starts[k] < start + STACK_PAGES {
        InInterval(start, starts[k], start + STACK_PAGES);
      }
    }
  }

  /** The secondaries among the first CPUs come first. */
  lemma {:induction false} SecondariesPrefix(cpus: seq<Cpu>, i: nat)
    requires i <= |cpus|
    ensures Secondaries(cpus[..i]) <= Secondaries(cpus)
    ensures i < |cpus| && IsSecondary(cpus[i]) ==>
              |Secondaries(cpus[..i])| < |Secondaries(cpus)| && Secondaries(cpus)[|Secondaries(cpus[..i])|] == cpus[i]
    decreases |cpus|
  {
    if i == |cpus| {
      assert cpus[..i] == cpus;
    } else {
      var init := cpus[..|cpus| - 1];
      assert init[..i] == cpus[..i];
      if i < |init| {
        SecondariesPrefix(init, i);
        assert init[i] == cpus[i];
      }
    }
  }

  /** The first secondary without an id is reached: those before it have one and their stacks fit. */
  ghost predicate Nameless(cpus: seq<Cpu>, free: set<nat>) {
    exists k ::
      0 <= k < |Secondaries(cpus)| && Secondaries(cpus)[k].logicalId.None? && NamedBelow(cpus, k) && Fits(free, k)
  }

  predicate NamedBelow(cpus: seq<Cpu>, k: nat)
    requires k <= |Secondaries(cpus)|
  {
    forall j | 0 <= j < k :: Secondaries(cpus)[j].logicalId.Some?
  }

  // The in-place forms.

  /** Give every page of one stack back; none of the frees can fail. */
  method FreeStack(a: PageAllocator, s: SecondaryStack)
    requires a.Valid() && LayoutOf(s.layout.guard) == Some(s.layout) && StackPages(s) <= a.inUse.Set()
    modifies a.inUse, a.inUse.bits
    ensures a.Valid() && a.inUse.Set() == old(a.inUse.Set()) - StackPages(s)
  {
    hide Indices, Interval, LayoutOf;
    a.FreeSpan(s.layout.guard / PAGE_SIZE, s.layout.guard / PAGE_SIZE + STACK_PAGES);
  }

  /** Undo a partial allocation. */
  method Rollback(a: PageAllocator, stacks: seq<SecondaryStack>, ghost taken: set<nat>)
    requires a.Valid() && Placed(stacks, taken) && a.inUse.Set() == taken + Owned(stacks)
    modifies a.inUse, a.inUse.bits
    ensures a.Valid() && a.inUse.Set() == taken
  {
    hide Indices, Interval, LayoutOf, StackPages;
    for i := 0 to |stacks|
      invariant a.Valid() && a.inUse.Set() == taken + Owned(stacks[i..])
    {
      DropOne(stacks, i, taken);
      FreeStack(a, stacks[i]);
    }
    assert stacks[|stacks|..] == [];
  }

  lemma DropOne(stacks: seq<SecondaryStack>, i: nat, taken: set<nat>)
    requires i < |stacks| && Placed(stacks, taken)
    ensures StackPages(stacks[i]) <= taken + Owned(stacks[i..])
    ensures (taken + Owned(stacks[i..])) - StackPages(stacks[i]) == taken + Owned(stacks[i + 1..])
  {
    hide StackPages, LayoutOf;
    var rest := stacks[i + 1..];
    assert stacks[i..][1..] == rest && stacks[i..][0] == stacks[i];
    forall p | p in Owned(rest)
      ensures p !in StackPages(stacks[i])
    {
      OwnedMember(rest, p);
      var k :| 0 <= k < |rest| && p in StackPages(rest[k]);
      assert StackPages(stacks[i]) !! StackPages(stacks[i + 1 + k]);
    }
  }

  /** One more stack next to those placed so far, or nothing at all. */
  method AllocateOne(a: PageAllocator, ghost stacks: seq<SecondaryStack>, id: nat, affinity: nat, ghost taken: set<nat>)
    returns (r: Result<SecondaryStack, A.AllocatorError>)
    requires a.Valid() && a.Aperture() * PAGE_SIZE < U64_LIMIT && Placed(stacks, taken)
    requires a.inUse.Set() == taken + Owned(stacks)
    modifies a.inUse, a.inUse.bits
    ensures a.Valid()
    ensures r.Err? ==> r.error == A.Exhausted && a.inUse.Set() == taken + Owned(stacks)
    ensures r.Ok? <==> Fits(old(a.Free()), 1)
    ensures r.Ok? ==> forall n: nat :: Fits(old(a.Free()), n + 1) <==> Fits(a.Free(), n)
    ensures r.Ok? ==> r.value.logicalId == id && r.value.affinity == affinity
                      && Placed(stacks + [r.value], taken) && a.inUse.Set() == taken + Owned(stacks + [r.value])
  {
    hide Indices, Interval, Owned, Placed, Fits;
    ghost var free := a.Free();
    FitsOne(free);
    var base := a.AllocateContiguous(STACK_PAGES);
    if base.Err? {
      return Err(base.error);
    }
    ghost var start := base.value / PAGE_SIZE;
    RunPages(free, start);
    assert start + STACK_PAGES - 1 in free;
    a.FreeInAperture(start + STACK_PAGES - 1);
    var layout := LayoutOf(base.value);
    var stack := SecondaryStack(id, affinity, layout.value);
    PlaceOne(stacks, stack, taken);
    OwnedSnoc(stacks, stack);
    assert a.Free() == free - Interval(start, start + STACK_PAGES);
    forall n: nat
      ensures Fits(free, n + 1) <==> Fits(a.Free(), n)
    {
      LowestIsBest(free, start, n);
    }
    return Ok(stack);
  }

  lemma RunPages(free: set<nat>, start: nat)
    requires FreeRun(free, start, STACK_PAGES)
    ensures Interval(start, start + STACK_PAGES) <= free
  {
  }

  /** The first `i` CPUs are served, and whatever fits beside their stacks fits in what is left. */
  ghost predicate SoFar(cpus: seq<Cpu>, i: nat, stacks: seq<SecondaryStack>, free: set<nat>, rest: set<nat>) {
    && i <= |cpus| && Serves(stacks, cpus[..i]) && |stacks| <= |Secondaries(cpus)| && NamedBelow(cpus, |stacks|)
    && forall n: nat :: Fits(free, |stacks| + n) <==> Fits(rest, n)
  }

  lemma SoFarNone(cpus: seq<Cpu>, free: set<nat>)
    ensures SoFar(cpus, 0, [], free, free)
  {
    hide Fits;
  }

  lemma SoFarSkip(cpus: seq<Cpu>, i: nat, stacks: seq<SecondaryStack>, free: set<nat>, rest: set<nat>)
    requires i < |cpus| && SoFar(cpus, i, stacks, free, rest) && !IsSecondary(cpus[i])
    ensures SoFar(cpus, i + 1, stacks, free, rest)
  {
    hide Fits, Serves, Secondaries;
    ServeNone(stacks, cpus, i);
  }

  lemma SoFarNext(
    cpus: seq<Cpu>, i: nat, stacks: seq<SecondaryStack>, s: SecondaryStack, free: set<nat>, rest: set<nat>,
    rest': set<nat>)
    requires i < |cpus| && SoFar(cpus, i, stacks, free, rest) && IsSecondary(cpus[i])
    requires cpus[i].logicalId == Some(s.logicalId) && cpus[i].affinity == s.affinity
    requires forall n: nat :: Fits(rest, n + 1) <==> Fits(rest', n)
    ensures SoFar(cpus, i + 1, stacks + [s], free, rest')
  {
    hide Fits, Secondaries;
    SecondariesPrefix(cpus, i);
    ServeOne(stacks, s, cpus, i);
    forall n: nat
      ensures Fits(free, |stacks + [s]| + n) <==> Fits(rest', n)
    {
      assert |stacks + [s]| + n == |stacks| + (n + 1);
    }
  }

  lemma SoFarAll(cpus: seq<Cpu>, stacks: seq<SecondaryStack>, free: set<nat>, rest: set<nat>)
    requires SoFar(cpus, |cpus|, stacks, free, rest)
    ensures Serves(stacks, cpus) && NamedBelow(cpus, |Secondaries(cpus)|) && Fits(free, |Secondaries(cpus)|)
  {
    hide Fits, Secondaries;
    assert cpus[..|cpus|] == cpus;
    FitsNone(rest);
    assert Fits(free, |stacks| + 0);
  }

  lemma SoFarNameless(cpus: seq<Cpu>, i: nat, stacks: seq<SecondaryStack>, free: set<nat>, rest: set<nat>)
    requires i < |cpus| && SoFar(cpus, i, stacks, free, rest) && IsSecondary(cpus[i]) && cpus[i].logicalId.None?
    ensures Nameless(cpus, free) && !NamedBelow(cpus, |Secondaries(cpus)|)
  {
    hide Fits, Secondaries;
    SecondariesPrefix(cpus, i);
    FitsNone(rest);
    assert Fits(free, |stacks| + 0);
    assert Secondaries(cpus)[|stacks|].logicalId.None?;
  }

  lemma SoFarFull(cpus: seq<Cpu>, i: nat, stacks: seq<SecondaryStack>, free: set<nat>, rest: set<nat>)
    requires i < |cpus| && SoFar(cpus, i, stacks, free, rest) && IsSecondary(cpus[i]) && cpus[i].logicalId.Some?
    requires !Fits(rest, 1)
    ensures !Nameless(cpus, free) && !Fits(free, |Secondaries(cpus)|)
  {
    hide Fits, Secondaries;
    SecondariesPrefix(cpus, i);
    assert !Fits(free, |stacks| + 1);
    forall n | |stacks| + 1 <= n
      ensures !Fits(free, n)
    {
      if Fits(free, n) {
        FitsFewer(free, n, |stacks| + 1);
      }
    }
  }

  /** Failure-atomic: an error leaves the allocator as it was. On success every enabled secondary
      has its own stack and guard on pages that were free, and exactly those became in use. It succeeds
      exactly when every secondary has an id and that many stacks fit, in whatever way, into the free
      pages. */
  method AllocateSecondaryStacks(cpus: seq<Cpu>, a: PageAllocator)
    returns (r: Result<seq<SecondaryStack>, A.AllocatorError>)
    requires a.Valid() && a.Aperture() * PAGE_SIZE < U64_LIMIT
    modifies a.inUse, a.inUse.bits
    ensures a.Valid()
    ensures r.Ok? <==> NamedBelow(cpus, |Secondaries(cpus)|) && Fits(old(a.Free()), |Secondaries(cpus)|)
    ensures r.Err? ==> a.inUse.Set() == old(a.inUse.Set())
    ensures r.Err? ==> r.error == if Nameless(cpus, old(a.Free())) then A.InvalidateParameter else A.Exhausted
    ensures r.Ok? ==> Serves(r.value, cpus) && Placed(r.value, old(a.inUse.Set()))
                      && a.inUse.Set() == old(a.inUse.Set()) + Owned(r.value)
  {
    hide Indices, Interval, Serves, Placed, Owned, Fits, Secondaries, Nameless, SoFar, NamedBelow;
    ghost var taken, free := a.inUse.Set(), a.Free();
    var stacks: seq<SecondaryStack> := [];
    Nothing(taken);
    SoFarNone(cpus, free);
    for i := 0 to |cpus|
      invariant a.Valid() && Placed(stacks, taken) && a.inUse.Set() == taken + Owned(stacks)
      invariant SoFar(cpus, i, stacks, free, a.Free())
    {
      ghost var rest := a.Free();
      if IsSecondary(cpus[i]) {
        if cpus[i].logicalId.None? {
          SoFarNameless(cpus, i, stacks, free, rest);
          Rollback(a, stacks, taken);
          return Err(A.InvalidateParameter);
        }
        var one := AllocateOne(a, stacks, cpus[i].logicalId.value, cpus[i].affinity, taken);
        if one.Err? {
          SoFarFull(cpus, i, stacks, free, rest);
          Rollback(a, stacks, taken);
          return Err(one.error);
        }
        SoFarNext(cpus, i, stacks, one.value, free, rest, a.Free());
        stacks := stacks + [one.value];
      } else {
        SoFarSkip(cpus, i, stacks, free, rest);
      }
    }
    SoFarAll(cpus, stacks, free, a.Free());
    return Ok(stacks);
  }

  lemma Nothing(taken: set<nat>)
    ensures Placed([], taken) && taken + Owned([]) == taken
  {
  }
}
