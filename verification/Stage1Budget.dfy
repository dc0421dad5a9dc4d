/** How many table pages one request can take from the arena. */
module Stage1Budget {
  import opened Wrappers
  import opened Bits
  import opened Descriptor
  import opened PageTree
  import opened Stage1
  import opened Stage1Refinement
  import opened Stage1Map

  /** Tables of level `l` missing on the ways to the first and the last address of a range. */
  ghost function Missing(v: Tree<LeafInfo>, l: nat, first: nat, last: nat): (n: nat)
    requires Walkable(v) && 2 <= l <= 3
    ensures n <= 2
  {
    Absent(v, l, first) + Absent(v, l, last)
  }

  predicate SameL1(x: nat, y: nat) {
    x / L1_SIZE == y / L1_SIZE
  }

  predicate SameL2(x: nat, y: nat) {
    x / L2_SIZE == y / L2_SIZE
  }

  /** A cursor inside a 1 GiB or 2 MiB block is in the first or the last one of the range. */
  predicate CursorAtEdge(va: nat, first: nat, last: nat) {
    && (va % L1_SIZE != 0 ==> SameL1(va, first) || SameL1(va, last))
    && (va % L2_SIZE != 0 ==> SameL2(va, first) || SameL2(va, last))
  }

  lemma SameL1Absent(v: Tree<LeafInfo>, x: nat, y: nat)
    requires Walkable(v) && x < VA_LIMIT && y < VA_LIMIT && SameL1(x, y)
    ensures Absent(v, 2, x) == Absent(v, 2, y)
  {
    SameBlock(1, x, y);
    AgreeMeets(v, 2, x, y);
  }

  lemma SameL2Absent(v: Tree<LeafInfo>, x: nat, y: nat)
    requires Walkable(v) && x < VA_LIMIT && y < VA_LIMIT && SameL2(x, y)
    ensures Absent(v, 3, x) == Absent(v, 3, y)
  {
    SameBlock(2, x, y);
    AgreeMeets(v, 3, x, y);
  }

  /** A small leaf is chosen only at an edge of the range. */
  lemma SmallLeafAtEdge(va: nat, pa: nat, remaining: nat, first: nat, last: nat)
    requires va % L1_SIZE == pa % L1_SIZE && remaining > 0 && last + 1 == va + remaining
    requires CursorAtEdge(va, first, last)
    ensures ChooseLevel(va, pa, remaining) >= 2 ==> SameL1(va, first) || SameL1(va, last)
    ensures ChooseLevel(va, pa, remaining) == 3 ==> SameL2(va, first) || SameL2(va, last)
  {
    hide AlignedFor;
    Congruent(va, pa);
  }

  lemma Congruent(va: nat, pa: nat)
    requires va % L1_SIZE == pa % L1_SIZE
    ensures va % L2_SIZE == pa % L2_SIZE
  {
    var q, r := va / L1_SIZE, va % L1_SIZE;
    var q' := pa / L1_SIZE;
    ModUnique(va, L2_SIZE, 512 * q + r / L2_SIZE, r % L2_SIZE);
    ModUnique(pa, L2_SIZE, 512 * q' + r / L2_SIZE, r % L2_SIZE);
  }

  lemma NextCursor(va: nat, pa: nat, remaining: nat, first: nat, last: nat)
    requires va % L1_SIZE == pa % L1_SIZE && remaining > 0 && last + 1 == va + remaining
    requires CursorAtEdge(va, first, last)
    requires va % PAGE_SIZE == 0
    ensures var size := LevelSize(ChooseLevel(va, pa, remaining));
            && CursorAtEdge(va + size, first, last)
            && (va + size) % L1_SIZE == (pa + size) % L1_SIZE
  {
    hide AlignedFor;
    SmallLeafAtEdge(va, pa, remaining, first, last);
    Congruent(va, pa);
    var level := ChooseLevel(va, pa, remaining);
    StepCongruent(va, pa, LevelSize(level));
    match level
    case 1 => StepBlock(va);
    case 2 => StepIn(va, L1_SIZE, L2_SIZE); StepBlock2(va);
    case _ => StepIn(va, L1_SIZE, PAGE_SIZE); StepIn(va, L2_SIZE, PAGE_SIZE);
  }

  lemma StepBlock(va: nat)
    requires va % L1_SIZE == 0
    ensures (va + L1_SIZE) % L1_SIZE == 0 && (va + L1_SIZE) % L2_SIZE == 0
  {
    ModUnique(va + L1_SIZE, L2_SIZE, 512 * (va / L1_SIZE + 1), 0);
  }

  lemma StepBlock2(va: nat)
    requires va % L2_SIZE == 0
    ensures (va + L2_SIZE) % L2_SIZE == 0
  {
  }

  lemma StepCongruent(va: nat, pa: nat, size: nat)
    requires va % L1_SIZE == pa % L1_SIZE
    ensures (va + size) % L1_SIZE == (pa + size) % L1_SIZE
  {
    var x := va % L1_SIZE + size;
    ModUnique(va + size, L1_SIZE, va / L1_SIZE + x / L1_SIZE, x % L1_SIZE);
    ModUnique(pa + size, L1_SIZE, pa / L1_SIZE + x / L1_SIZE, x % L1_SIZE);
  }

  /** A step that does not end on a block boundary stays in its block. */
  lemma StepIn(va: nat, block: nat, step: nat)
    requires || (block == L1_SIZE && step == L2_SIZE) || (block == L1_SIZE && step == PAGE_SIZE)
             || (block == L2_SIZE && step == PAGE_SIZE)
    requires va % step == 0
    ensures (va + step) % block != 0 ==> (va + step) / block == va / block
  {
    if step == L2_SIZE {
      SmallStep(va, L1_SIZE, L2_SIZE, va / L2_SIZE / 512, va / L2_SIZE % 512);
    } else if block == L1_SIZE {
      SmallStep(va, L1_SIZE, PAGE_SIZE, va / PAGE_SIZE / 0x4_0000, va / PAGE_SIZE % 0x4_0000);
    } else {
      SmallStep(va, L2_SIZE, PAGE_SIZE, va / PAGE_SIZE / 512, va / PAGE_SIZE % 512);
    }
  }

  /** The address lies `r` steps into block `q`. */
  lemma SmallStep(va: nat, block: nat, step: nat, q: nat, r: nat)
    requires block > 0 && va == block * q + step * r && step * r + step <= block
    ensures (va + step) % block != 0 ==> (va + step) / block == va / block
  {
    var a, b := step * r, step * r + step;
    assert 0 <= a;
    if b < block {
      ModUnique(va + step, block, q, b);
      if step > 0 {
        ModUnique(va, block, q, a);
      }
    } else {
      assert va + step == block * (q + 1) + 0;
      ModUnique(va + step, block, q + 1, 0);
    }
  }

  /** Each leaf takes from the arena at most what it removes from the missing tables. */
  lemma LeafBudget(v: Tree<LeafInfo>, w: Tree<LeafInfo>, level: nat, va: nat, first: nat, last: nat, l: nat)
    requires Walkable(v) && Walkable(w) && KeepsTables(v, w) && 1 <= level <= 3 && 2 <= l <= 3
    requires va < VA_LIMIT && first < VA_LIMIT && last < VA_LIMIT
    requires level >= 2 ==> SameL1(va, first) || SameL1(va, last)
    requires level == 3 ==> SameL2(va, first) || SameL2(va, last)
    ensures l <= level ==> Absent(v, l, va) <= Missing(v, l, first, last)
    ensures Missing(w, l, first, last) <= Missing(v, l, first, last)
    ensures l <= level && Reach(w, level, va).At? ==>
              Absent(v, l, va) + Missing(w, l, first, last) <= Missing(v, l, first, last)
  {
    hide Reach, KeepsTables;
    KeptReach(v, w, l, first);
    KeptReach(v, w, l, last);
    if l <= level {
      if l == 2 {
        var near := if SameL1(va, first) then first else last;
        SameL1Absent(v, va, near);
        SameL1Absent(w, va, near);
      } else {
        var near := if SameL2(va, first) then first else last;
        SameL2Absent(v, va, near);
        SameL2Absent(w, va, near);
      }
      if l < level && Reach(w, level, va).At? {
        ReachBelow(w, l, level, va);
      }
    }
  }

  /** Pages added at levels 2 and 3 only, and at each no more than were missing. */
  ghost predicate Spent(lv: seq<nat>, lv': seq<nat>, v: Tree<LeafInfo>, first: nat, last: nat)
    requires Walkable(v)
  {
    && lv <= lv' && (forall k | |lv| <= k < |lv'| :: 2 <= lv'[k] <= 3)
    && (forall l | 2 <= l <= 3 :: Count(lv', l) <= Count(lv, l) + Missing(v, l, first, last))
  }

  lemma SpendLeaf(
    lv: seq<nat>, lv': seq<nat>, v: Tree<LeafInfo>, w: Tree<LeafInfo>, level: nat, va: nat, first: nat, last: nat)
    requires Walkable(v) && Walkable(w) && KeepsTables(v, w) && 1 <= level <= 3 && Budgeted(lv, lv', v, 1, level, va)
    requires va < VA_LIMIT && first < VA_LIMIT && last < VA_LIMIT
    requires level >= 2 ==> SameL1(va, first) || SameL1(va, last)
    requires level == 3 ==> SameL2(va, first) || SameL2(va, last)
    ensures Spent(lv, lv', v, first, last)
    ensures Reach(w, level, va).At? ==>
              forall lv'' | Spent(lv', lv'', w, first, last) :: Spent(lv, lv'', v, first, last)
  {
    hide Reach, KeepsTables, Count, Missing, Absent;
    LeafBudget(v, w, level, va, first, last, 2);
    LeafBudget(v, w, level, va, first, last, 3);
    if Reach(w, level, va).At? {
      forall lv'' | Spent(lv', lv'', w, first, last)
        ensures Spent(lv, lv'', v, first, last)
      {
        assert forall k | |lv| <= k < |lv'| :: lv''[k] == lv'[k];
        assert Count(lv'', 2) <= Count(lv', 2) + Missing(w, 2, first, last);
        assert Count(lv'', 3) <= Count(lv', 3) + Missing(w, 3, first, last);
      }
    }
  }

  lemma SpendNone(lv: seq<nat>, v: Tree<LeafInfo>, first: nat, last: nat)
    requires Walkable(v)
    ensures Spent(lv, lv, v, first, last)
  {
  }

  lemma {:induction false} MapFromBudget(
    t: Tables, lv: seq<nat>, va: nat, pa: nat, remaining: nat, attr: Attributes, first: nat, last: nat)
    returns (lv': seq<nat>)
    requires Inv(t, lv) && va % PAGE_SIZE == 0 && pa % PAGE_SIZE == 0 && remaining % PAGE_SIZE == 0
    requires va + remaining <= VA_LIMIT && pa + remaining <= PA_LIMIT && va % L1_SIZE == pa % L1_SIZE
    requires first <= last < VA_LIMIT && last + 1 == va + remaining && CursorAtEdge(va, first, last)
    ensures Inv(MapFrom(t, va, pa, remaining, attr).0, lv') && Spent(lv, lv', View(t, lv), first, last)
    decreases remaining
  {
    hide Inv, View, MapEffect, KeepsTables, MapLeaf, ChooseLevel, CursorAtEdge, Missing, Reach, Budgeted, Spent;
    if remaining == 0 {
      lv' := lv;
      SpendNone(lv, View(t, lv), first, last);
    } else {
      var level := ChooseLevel(va, pa, remaining);
      var size := LevelSize(level);
      ChunkAligned(va, pa, remaining);
      lv' := MapLeafCorrect(t, lv, level, va, pa, attr);
      var (t1, r1) := MapLeaf(t, level, va, pa, attr);
      SmallLeafAtEdge(va, pa, remaining, first, last);
      NextCursor(va, pa, remaining, first, last);
      SpendLeaf(lv, lv', View(t, lv), View(t1, lv'), level, va, first, last);
      if r1.Ok? {
        var lv1 := lv';
        lv' := MapFromBudget(t1, lv1, va + size, pa + size, remaining - size, attr, first, last);
      }
    }
  }

  lemma {:induction false} AddedPages(lv: seq<nat>, lv': seq<nat>)
    requires lv <= lv' && forall k | |lv| <= k < |lv'| :: 2 <= lv'[k] <= 3
    ensures |lv'| - |lv| == (Count(lv', 2) - Count(lv, 2)) + (Count(lv', 3) - Count(lv, 3))
    decreases |lv'|
  {
    if |lv| == |lv'| {
      assert lv == lv';
    } else {
      AddedPages(lv, lv'[..|lv'| - 1]);
    }
  }

  /** A request whose virtual and physical addresses agree below 1 GiB, such as any identity
      mapping, takes at most two level-2 and two level-3 pages, whatever its size and outcome. */
  lemma BudgetTheorem(t: Tables, lv: seq<nat>, m: Mapping) returns (lv': seq<nat>)
    requires Inv(t, lv) && Shaped(t) && m.va % L1_SIZE == m.pa % L1_SIZE
    ensures Inv(Map(t, m).0, lv') && lv <= lv' && Map(t, m).0.used <= t.used + 4
    ensures Count(lv', 2) <= Count(lv, 2) + 2 && Count(lv', 3) <= Count(lv, 3) + 2
    ensures forall k | |lv| <= k < |lv'| :: 2 <= lv'[k] <= 3
  {
    hide Inv, View, MapFrom, ValidateMapping, Shl, Missing, Count;
    lv' := lv;
    if ValidateMapping(t, m).Ok? {
      ValidatedMapping(t, m);
      PaLimit(t);
      lv' := MapFromBudget(t, lv, m.va, m.pa, m.size, m.attr, m.va, m.va + m.size - 1);
      var v := View(t, lv);
      assert Count(lv', 2) <= Count(lv, 2) + Missing(v, 2, m.va, m.va + m.size - 1);
      assert Count(lv', 3) <= Count(lv, 3) + Missing(v, 3, m.va, m.va + m.size - 1);
      AddedPages(lv, lv');
    }
  }

  // Enough pages.

  /** The tables missing on the way of `va` from below `level` down to `target`. */
  ghost function MissingOnWay(v: Tree<LeafInfo>, level: nat, target: nat, va: nat): nat
    requires Walkable(v)
  {
    (if level < 2 <= target then Absent(v, 2, va) else 0) + (if level < 3 <= target then Absent(v, 3, va) else 0)
  }

  lemma {:induction false} DescendEnough(t: Tables, lv: seq<nat>, table: nat, level: nat, target: nat, va: nat)
    requires Inv(t, lv) && 1 <= level <= target <= 3 && Reach(View(t, lv), level, va) == At(table)
    requires t.used + MissingOnWay(View(t, lv), level, target, va) <= |t.pages|
    ensures Descend(t, table, level, target, va).1 != Err(TableExhausted)
    decreases target - level
  {
    hide Inv, Extends, KeepsTables, Index, Canonical, DecodeSlot, Shl, Link, And, Or, Walkable, OnPath;
    if level < target {
      var v, i := View(t, lv), Index(level, va);
      var d, s := t.pages[table][i], v.slots[table][i];
      EntryTests(t, lv, table, i);
      if d == 0 {
        ReachStops(v, level, va);
        LinkExtends(t, lv, table, level, va);
        var t1, lv1 := Link(t, table, i), lv + [level + 1];
        LinkUses(t, table, i);
        FewerMissing(v, View(t1, lv1), level, target, va);
        DescendEnough(t1, lv1, t.used, level + 1, target, va);
      } else if s.Child? {
        assert Reach(v, level + 1, va) == At(s.page);
        DescendEnough(t, lv, s.page, level + 1, target, va);
      }
    }
  }

  lemma LinkUses(t: Tables, table: nat, i: nat)
    requires Shaped(t) && table < t.used < |t.pages| && i < ENTRIES
    ensures Link(t, table, i).used == t.used + 1 && |Link(t, table, i).pages| == |t.pages|
  {
  }

  lemma FewerMissing(v: Tree<LeafInfo>, w: Tree<LeafInfo>, level: nat, target: nat, va: nat)
    requires Extends(v, w) && 1 <= level < target <= 3 && Reach(v, level + 1, va).Nowhere?
    ensures MissingOnWay(w, level + 1, target, va) + 1 <= MissingOnWay(v, level, target, va)
  {
    hide Lookup, Reach;
    KeptReach(v, w, 2, va);
    KeptReach(v, w, 3, va);
  }

  lemma MapLeafEnough(t: Tables, lv: seq<nat>, level: nat, va: nat, pa: nat, attr: Attributes)
    requires Inv(t, lv) && 1 <= level <= 3 && t.used + MissingOnWay(View(t, lv), 1, level, va) <= |t.pages|
    ensures MapLeaf(t, level, va, pa, attr).1 != Err(TableExhausted)
  {
    hide Inv, Descend, LeafDescriptor;
    ReachRoot(View(t, lv), va);
    DescendEnough(t, lv, 0, 1, level, va);
  }

  /** The pages in use once no table on the ways to `first` and `last` is missing any more. */
  ghost function Needs(lv: seq<nat>, v: Tree<LeafInfo>, first: nat, last: nat): nat
    requires Walkable(v)
  {
    |lv| + Missing(v, 2, first, last) + Missing(v, 3, first, last)
  }

  /** What one leaf takes is no longer missing. */
  lemma LeafSpends(
    lv: seq<nat>, lv': seq<nat>, v: Tree<LeafInfo>, w: Tree<LeafInfo>, level: nat, va: nat, first: nat, last: nat)
    requires Walkable(v) && Walkable(w) && KeepsTables(v, w) && 1 <= level <= 3 && Budgeted(lv, lv', v, 1, level, va)
    requires va < VA_LIMIT && first < VA_LIMIT && last < VA_LIMIT
    requires level >= 2 ==> SameL1(va, first) || SameL1(va, last)
    requires level == 3 ==> SameL2(va, first) || SameL2(va, last)
    ensures MissingOnWay(v, 1, level, va) <= Missing(v, 2, first, last) + Missing(v, 3, first, last)
    ensures Reach(w, level, va).At? ==> Needs(lv', w, first, last) <= Needs(lv, v, first, last)
  {
    hide Reach, KeepsTables, Count, Missing, Absent;
    LeafBudget(v, w, level, va, first, last, 2);
    LeafBudget(v, w, level, va, first, last, 3);
    AddedPages(lv, lv');
    assert Count(lv', 2) <= Count(lv, 2) + (if 1 < 2 <= level then Absent(v, 2, va) else 0);
    assert Count(lv', 3) <= Count(lv, 3) + (if 1 < 3 <= level then Absent(v, 3, va) else 0);
  }

  lemma {:induction false} MapFromEnough(
    t: Tables, lv: seq<nat>, va: nat, pa: nat, remaining: nat, attr: Attributes, first: nat, last: nat)
    requires Inv(t, lv) && va % PAGE_SIZE == 0 && pa % PAGE_SIZE == 0 && remaining % PAGE_SIZE == 0
    requires va + remaining <= VA_LIMIT && pa + remaining <= PA_LIMIT && va % L1_SIZE == pa % L1_SIZE
    requires first <= last < VA_LIMIT && last + 1 == va + remaining && CursorAtEdge(va, first, last)
    requires Needs(lv, View(t, lv), first, last) <= |t.pages|
    ensures MapFrom(t, va, pa, remaining, attr).1 != Err(TableExhausted)
    decreases remaining
  {
    hide View, MapEffect, KeepsTables, MapLeaf, ChooseLevel, CursorAtEdge, Missing, MissingOnWay, Reach, Budgeted,
      LeafOutcome, OnPath, AllCanonical, WellFormed, Connected;
    if remaining > 0 {
      var level := ChooseLevel(va, pa, remaining);
      var size := LevelSize(level);
      ChunkAligned(va, pa, remaining);
      var lv' := MapLeafCorrect(t, lv, level, va, pa, attr);
      var (t1, r1) := MapLeaf(t, level, va, pa, attr);
      SmallLeafAtEdge(va, pa, remaining, first, last);
      NextCursor(va, pa, remaining, first, last);
      LeafSpends(lv, lv', View(t, lv), View(t1, lv'), level, va, first, last);
      MapLeafEnough(t, lv, level, va, pa, attr);
      if r1.Ok? {
        MapFromEnough(t1, lv', va + size, pa + size, remaining - size, attr, first, last);
      }
    }
  }

  // Exactly how many pages.

  /** The tables that a leaf at `va` is the first of its request to need: those missing in `v` on its
      way, except those of a block that the leaf before it lies in too. */
  ghost function LeafNeeds(v: Tree<LeafInfo>, level: nat, va: nat, first: bool): nat
    requires Walkable(v)
  {
    (if 2 <= level && (first || va % L1_SIZE == 0) then Absent(v, 2, va) else 0)
    + (if 3 <= level && (first || va % L2_SIZE == 0) then Absent(v, 3, va) else 0)
  }

  /** The number of missing tables that a request needs. */
  ghost function Needed(v: Tree<LeafInfo>, va: nat, pa: nat, remaining: nat, first: bool): nat
    requires Walkable(v) && remaining % PAGE_SIZE == 0
    decreases remaining
  {
    if remaining == 0 then 0
    else
      var level := ChooseLevel(va, pa, remaining);
      ChunkFits(va, pa, remaining);
      var size := LevelSize(level);
      LeafNeeds(v, level, va, first) + Needed(v, va + size, pa + size, remaining - size, false)
  }

  /** A successful descent takes exactly the pages that were missing. */
  lemma {:induction false} DescendUses(t: Tables, lv: seq<nat>, table: nat, level: nat, target: nat, va: nat)
    requires Inv(t, lv) && 1 <= level <= target <= 3 && Reach(View(t, lv), level, va) == At(table) && va < VA_LIMIT
    ensures var r := Descend(t, table, level, target, va);
            r.1.Ok? ==> r.0.used == t.used + MissingOnWay(View(t, lv), level, target, va)
    decreases target - level
  {
    hide Inv, Extends, KeepsTables, Index, Canonical, DecodeSlot, Shl, Link, And, Or, Walkable, OnPath;
    if level < target {
      var v, i := View(t, lv), Index(level, va);
      var d, s := t.pages[table][i], v.slots[table][i];
      EntryTests(t, lv, table, i);
      if d == 0 && t.used < |t.pages| {
        ReachStops(v, level, va);
        LinkExtends(t, lv, table, level, va);
        var t1, lv1 := Link(t, table, i), lv + [level + 1];
        LinkUses(t, table, i);
        OneFewerMissing(v, View(t1, lv1), level, target, va);
        DescendUses(t1, lv1, t.used, level + 1, target, va);
      } else if s.Child? {
        assert Reach(v, level + 1, va) == At(s.page);
        DescendUses(t, lv, s.page, level + 1, target, va);
      }
    }
  }

  lemma OneFewerMissing(v: Tree<LeafInfo>, w: Tree<LeafInfo>, level: nat, target: nat, va: nat)
    requires Extends(v, w) && 1 <= level < target <= 3 && va < VA_LIMIT && OnPath(v, w, va, level + 1)
    requires Reach(v, level + 1, va).Nowhere?
    ensures MissingOnWay(w, level + 1, target, va) + 1 == MissingOnWay(v, level, target, va)
  {
    hide Lookup, Reach;
    KeptReach(v, w, 2, va);
    KeptReach(v, w, 3, va);
  }

  lemma MapLeafUses(t: Tables, lv: seq<nat>, level: nat, va: nat, pa: nat, attr: Attributes)
    requires Inv(t, lv) && 1 <= level <= 3 && va < VA_LIMIT
    ensures var r := MapLeaf(t, level, va, pa, attr);
            r.1.Ok? ==> r.0.used == t.used + LeafNeeds(View(t, lv), level, va, true)
  {
    hide Inv, Descend, LeafDescriptor;
    ReachRoot(View(t, lv), va);
    DescendUses(t, lv, 0, 1, level, va);
  }

  /** A table below the leaf just stored is no longer missing for the address after it, and a table of
      another block is missing as before. */
  lemma TableAfter(v: Tree<LeafInfo>, w: Tree<LeafInfo>, level: nat, va: nat, l: nat, x: nat)
    requires Walkable(v) && Walkable(w) && KeepsTables(v, w) && OnPath(v, w, va, level)
    requires 1 <= level <= 3 && va % LevelSize(level) == 0 && va + LevelSize(level) <= x < VA_LIMIT && 2 <= l <= 3
    ensures x % LevelSize(l - 1) == 0 ==> Absent(w, l, x) == Absent(v, l, x)
    ensures Reach(w, level, va).At? && x == va + LevelSize(level) && x % LevelSize(l - 1) != 0 ==> Absent(w, l, x) == 0
  {
    hide Reach;
    KeptReach(v, w, l, x);
    if x % LevelSize(l - 1) == 0 {
      OtherBlock(l - 1, va, x);
    } else if Reach(w, level, va).At? && x == va + LevelSize(level) {
      StillInBlock(level, va, l);
      if l < level {
        ReachBelow(w, l, level, va);
      }
      SameBlock(l - 1, va, x);
      AgreeMeets(w, l, va, x);
    }
  }

  lemma StillInBlock(level: nat, va: nat, l: nat)
    requires 1 <= level <= 3 && 2 <= l <= 3 && va % LevelSize(level) == 0
    requires (va + LevelSize(level)) % LevelSize(l - 1) != 0
    ensures l <= level && (va + LevelSize(level)) / LevelSize(l - 1) == va / LevelSize(l - 1)
  {
    if level == 1 {
      StepBlock(va);
    } else if level == 2 {
      StepBlock2(va);
      StepIn(va, L1_SIZE, L2_SIZE);
    } else {
      StepIn(va, L1_SIZE, PAGE_SIZE);
      StepIn(va, L2_SIZE, PAGE_SIZE);
    }
  }

  lemma LeafNeedsAfter(v: Tree<LeafInfo>, w: Tree<LeafInfo>, level: nat, va: nat, l: nat, x: nat, first: bool)
    requires Walkable(v) && Walkable(w) && KeepsTables(v, w) && OnPath(v, w, va, level) && 1 <= level <= 3
    requires va % LevelSize(level) == 0 && va + LevelSize(level) <= x < VA_LIMIT
    requires first ==> Reach(w, level, va).At? && x == va + LevelSize(level)
    ensures LeafNeeds(w, l, x, first) == LeafNeeds(v, l, x, false)
  {
    hide Reach, KeepsTables, OnPath, Absent;
    TableAfter(v, w, level, va, 2, x);
    TableAfter(v, w, level, va, 3, x);
  }

  /** Once the first leaf is stored, the rest of the request needs what it needed before beside it. */
  lemma {:induction false} NeededAfter(
    v: Tree<LeafInfo>, w: Tree<LeafInfo>, level: nat, va: nat, x: nat, y: nat, remaining: nat, first: bool)
    requires Walkable(v) && Walkable(w) && KeepsTables(v, w) && OnPath(v, w, va, level) && 1 <= level <= 3
    requires va % LevelSize(level) == 0 && va + LevelSize(level) <= x && x + remaining <= VA_LIMIT
    requires x % PAGE_SIZE == 0 && y % PAGE_SIZE == 0 && remaining % PAGE_SIZE == 0
    requires first ==> Reach(w, level, va).At? && x == va + LevelSize(level)
    ensures Needed(w, x, y, remaining, first) == Needed(v, x, y, remaining, false)
    decreases remaining
  {
    hide Reach, KeepsTables, OnPath, LeafNeeds, ChooseLevel;
    if remaining > 0 {
      var l := ChooseLevel(x, y, remaining);
      ChunkAligned(x, y, remaining);
      LeafNeedsAfter(v, w, level, va, l, x, first);
      NeededAfter(v, w, level, va, x + LevelSize(l), y + LevelSize(l), remaining - LevelSize(l), false);
    }
  }

  /** With that many free pages the loop does not run out of them, and success takes exactly as many. */
  lemma {:induction false} MapFromUses(t: Tables, lv: seq<nat>, va: nat, pa: nat, remaining: nat, attr: Attributes)
    requires Inv(t, lv) && va % PAGE_SIZE == 0 && pa % PAGE_SIZE == 0 && remaining % PAGE_SIZE == 0
    requires va + remaining <= VA_LIMIT && pa + remaining <= PA_LIMIT
    ensures var r, needed := MapFrom(t, va, pa, remaining, attr), Needed(View(t, lv), va, pa, remaining, true);
            && (r.1.Ok? ==> r.0.used == t.used + needed)
            && (t.used + needed <= |t.pages| ==> r.1 != Err(TableExhausted))
    decreases remaining
  {
    hide Inv, View, MapEffect, KeepsTables, MapLeaf, ChooseLevel, LeafNeeds, MissingOnWay, Reach, Budgeted, LeafOutcome,
      OnPath;
    if remaining > 0 {
      var level := ChooseLevel(va, pa, remaining);
      var size := LevelSize(level);
      ChunkAligned(va, pa, remaining);
      var lv' := MapLeafCorrect(t, lv, level, va, pa, attr);
      var (t1, r1) := MapLeaf(t, level, va, pa, attr);
      var v, w := View(t, lv), View(t1, lv');
      MapLeafUses(t, lv, level, va, pa, attr);
      FirstNeeds(v, level, va);
      if t.used + Needed(v, va, pa, remaining, true) <= |t.pages| {
        MapLeafEnough(t, lv, level, va, pa, attr);
      }
      if r1.Ok? {
        NeededAfter(v, w, level, va, va + size, pa + size, remaining - size, true);
        MapFromUses(t1, lv', va + size, pa + size, remaining - size, attr);
      }
    }
  }

  lemma FirstNeeds(v: Tree<LeafInfo>, level: nat, va: nat)
    requires Walkable(v)
    ensures LeafNeeds(v, level, va, true) == MissingOnWay(v, 1, level, va)
  {
    hide Reach;
  }
}
