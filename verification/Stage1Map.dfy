/** What `map` does to the translation of every address, on success and on failure. */
module Stage1Map {
  import opened Wrappers
  import opened Bits
  import opened Descriptor
  import opened PageTree
  import opened Stage1
  import opened Stage1Refinement

  /** `b` answers every lookup as `a` does and keeps every table `a` reaches. */
  ghost predicate Extends(a: Tree<LeafInfo>, b: Tree<LeafInfo>) {
    && Walkable(a) && Walkable(b)
    && (forall va :: Lookup(b, va) == Lookup(a, va))
    && KeepsTables(a, b)
  }

  ghost predicate KeepsTables(a: Tree<LeafInfo>, b: Tree<LeafInfo>)
    requires Walkable(a) && Walkable(b)
  {
    forall l, va | 1 <= l <= 3 && Reach(a, l, va).At? :: Reach(b, l, va) == Reach(a, l, va)
  }

  /** Every table that `b` has and `a` has not lies on the way of `va` down to level `target`. */
  ghost predicate OnPath(a: Tree<LeafInfo>, b: Tree<LeafInfo>, va: nat, target: nat)
    requires Walkable(a) && Walkable(b)
  {
    forall l, x: nat | 2 <= l <= 3 && x < VA_LIMIT && Reach(b, l, x).At? && Reach(a, l, x).Nowhere? ::
      l <= target && x / LevelSize(l - 1) == va / LevelSize(l - 1)
  }

  lemma OnPathSelf(v: Tree<LeafInfo>, va: nat, target: nat)
    requires Walkable(v)
    ensures OnPath(v, v, va, target)
  {
  }

  lemma OnPathTransitive(a: Tree<LeafInfo>, b: Tree<LeafInfo>, c: Tree<LeafInfo>, va: nat, target: nat)
    requires Extends(a, b) && Extends(b, c) && OnPath(a, b, va, target) && OnPath(b, c, va, target)
    ensures OnPath(a, c, va, target)
  {
    hide Reach, Lookup, KeepsTables;
  }

  /** One table is missing on the way of `va` at `level`, or none. */
  ghost function Absent(t: Tree<LeafInfo>, level: nat, va: nat): nat
    requires Walkable(t) && 1 <= level <= 3
  {
    if Reach(t, level, va).At? then 0 else 1
  }

  /** The number of pages that serve level `l`. */
  function Count(lv: seq<nat>, l: nat): nat {
    if lv == [] then 0 else Count(lv[..|lv| - 1], l) + (if lv[|lv| - 1] == l then 1 else 0)
  }

  /** From `lv` to `lv'` pages were added only at levels 2 and 3, below `level` and down to `target`,
      and at each level only the one the walk of `va` was missing, if any. */
  ghost predicate Budgeted(lv: seq<nat>, lv': seq<nat>, v: Tree<LeafInfo>, level: nat, target: nat, va: nat)
    requires Walkable(v)
  {
    && lv <= lv' && (forall k | |lv| <= k < |lv'| :: 2 <= lv'[k] <= 3)
    && (forall l | 2 <= l <= 3 :: Count(lv', l) <= Count(lv, l) + (if level < l <= target then Absent(v, l, va) else 0))
  }

  lemma BudgetSelf(lv: seq<nat>, v: Tree<LeafInfo>, level: nat, target: nat, va: nat)
    requires Walkable(v)
    ensures Budgeted(lv, lv, v, level, target, va)
  {
  }

  lemma BudgetDeeper(lv: seq<nat>, lv': seq<nat>, v: Tree<LeafInfo>, level: nat, target: nat, va: nat)
    requires Walkable(v) && Budgeted(lv, lv', v, level + 1, target, va)
    ensures Budgeted(lv, lv', v, level, target, va)
  {
  }

  lemma BudgetLink(lv: seq<nat>, lv': seq<nat>, v: Tree<LeafInfo>, w: Tree<LeafInfo>, level: nat, target: nat, va: nat)
    requires Extends(v, w) && 1 <= level < target <= 3 && Reach(v, level + 1, va).Nowhere?
    requires Budgeted(lv + [level + 1], lv', w, level + 1, target, va)
    ensures Budgeted(lv, lv', v, level, target, va)
  {
    hide Lookup, Reach;
    assert (lv + [level + 1])[..|lv|] == lv;
    KeptReach(v, w, 2, va);
    KeptReach(v, w, 3, va);
  }

  lemma LinkExtends(t: Tables, lv: seq<nat>, table: nat, level: nat, va: nat)
    requires Inv(t, lv) && 1 <= level < 3 && t.used < |t.pages| && Reach(View(t, lv), level, va) == At(table)
    requires View(t, lv).slots[table][Index(level, va)].Empty?
    ensures var t', lv' := Link(t, table, Index(level, va)), lv + [level + 1];
            && Inv(t', lv')
            && Extends(View(t, lv), View(t', lv'))
            && Reach(View(t', lv'), level + 1, va) == At(t.used)
            && Reach(View(t, lv), level + 1, va).Nowhere?
            && (va < VA_LIMIT ==> OnPath(View(t, lv), View(t', lv'), va, level + 1))
  {
    hide Index, Inv, Link, Reach, Extends, Walkable, OnPath;
    var i, v := Index(level, va), View(t, lv);
    CanLink(t, lv, table, i, level);
    ViewLink(t, lv, table, i);
    AddPageExtends(v, table, i, t.used);
    AddPageLookup(v, table, i, t.used, va);
    ReachStops(v, level, va);
    if va < VA_LIMIT {
      TreeOfInv(t, lv);
      AddPageOnPath(v, table, i, t.used, va);
    }
  }

  lemma TreeOfInv(t: Tables, lv: seq<nat>)
    requires Inv(t, lv)
    ensures WellFormed(View(t, lv))
  {
  }

  /** A fresh table is reached only from the block it was made for. */
  lemma AddPageOnPath(v: Tree<LeafInfo>, p: nat, i: nat, c: nat, va: nat)
    requires WellFormed(v) && CanAdd(v, p, i, c) && va < VA_LIMIT && Visits(v, p, i, va)
    requires Walkable(AddPage(v, p, i, c))
    ensures OnPath(v, AddPage(v, p, i, c), va, v.level[p] + 1)
  {
    hide Index, Reach, AddPage, SingleParent;
    var w, level := AddPage(v, p, i, c), v.level[p];
    forall l, x: nat | 2 <= l <= 3 && x < VA_LIMIT && Reach(w, l, x).At? && Reach(v, l, x).Nowhere?
      ensures l <= level + 1 && x / LevelSize(l - 1) == va / LevelSize(l - 1)
    {
      AddPageReach(v, p, i, c, w, l, x);
      VisitorsAgree(v, p, i, va, x);
    }
  }

  lemma VisitorsAgree(v: Tree<LeafInfo>, p: nat, i: nat, va: nat, x: nat)
    requires WellFormed(v) && p in v.slots && v.level[p] < 3 && va < VA_LIMIT && x < VA_LIMIT
    requires Visits(v, p, i, va) && Visits(v, p, i, x)
    ensures 1 <= v.level[p] && x / LevelSize(v.level[p]) == va / LevelSize(v.level[p])
  {
    hide Index, Reach, SingleParent;
    var level := v.level[p];
    forall l | 1 <= l < level
      ensures Index(l, va) == Index(l, x)
    {
      MeetAgrees(v, level, va, x, l);
    }
    SameBlock(level, va, x);
  }

  lemma CanLink(t: Tables, lv: seq<nat>, table: nat, i: nat, level: nat)
    requires Inv(t, lv) && table < t.used && i < ENTRIES && lv[table] == level < 3 && View(t, lv).slots[table][i].Empty?
    ensures CanAdd(View(t, lv), table, i, t.used)
  {
    hide DecodeSlot, Canonical, SingleParent, Connected, Shl;
  }

  lemma AddPageExtends(v: Tree<LeafInfo>, p: nat, i: nat, c: nat)
    requires CanAdd(v, p, i, c)
    ensures Extends(v, AddPage(v, p, i, c))
  {
    hide Index, Reach, Lookup, AddPage;
    var w := AddPage(v, p, i, c);
    AddPageWalkable(v, p, i, c);
    forall va
      ensures Lookup(w, va) == Lookup(v, va)
    {
      AddPageLookup(v, p, i, c, va);
    }
    forall l, va | 1 <= l <= 3 && Reach(v, l, va).At?
      ensures Reach(w, l, va) == Reach(v, l, va)
    {
      AddPageReach(v, p, i, c, w, l, va);
      if l > 1 {
        ReachStops(v, l - 1, va);
      }
    }
  }

  lemma ExtendsTransitive(a: Tree<LeafInfo>, b: Tree<LeafInfo>, c: Tree<LeafInfo>)
    requires Extends(a, b) && Extends(b, c)
    ensures Extends(a, c)
  {
  }

  lemma ExtendsSelf(a: Tree<LeafInfo>)
    requires Walkable(a)
    ensures Extends(a, a)
  {
  }

  /** A leaf above `target` translates `va`. */
  ghost predicate BlockedAbove(v: Tree<LeafInfo>, va: nat, target: nat)
    requires Walkable(v)
  {
    Lookup(v, va).Hit? && Lookup(v, va).level < target
  }

  lemma LeafBlocks(v: Tree<LeafInfo>, level: nat, target: nat, va: nat)
    requires Walkable(v) && 1 <= level < target <= 3 && Reach(v, level, va).At?
    requires SlotOf(v, Reach(v, level, va).page, level, va).Leaf?
    ensures BlockedAbove(v, va, target)
  {
    hide Index, Reach;
    LookupFrom(v, level, va);
  }

  lemma BlockedSame(v: Tree<LeafInfo>, w: Tree<LeafInfo>, va: nat, target: nat)
    requires Extends(v, w)
    ensures BlockedAbove(v, va, target) <==> BlockedAbove(w, va, target)
  {
  }

  lemma OnPathDeeper(v: Tree<LeafInfo>, w: Tree<LeafInfo>, va: nat, target: nat, deeper: nat)
    requires Walkable(v) && Walkable(w) && OnPath(v, w, va, target) && target <= deeper
    ensures OnPath(v, w, va, deeper)
  {
    hide Reach;
  }

  /** Descending creates tables without changing a translation, and ends at the page `va` reaches. */
  lemma {:induction false} DescendCorrect(t: Tables, lv: seq<nat>, table: nat, level: nat, target: nat, va: nat)
    returns (lv': seq<nat>)
    requires Inv(t, lv) && 1 <= level <= target <= 3 && Reach(View(t, lv), level, va) == At(table)
    ensures table < t.used
    ensures var r := Descend(t, table, level, target, va);
            && Inv(r.0, lv')
            && Extends(View(t, lv), View(r.0, lv'))
            && (r.1.Ok? ==> Reach(View(r.0, lv'), target, va) == At(r.1.value))
            && (r.1.Err? ==> (r.1.error == ConflictingEntry && BlockedAbove(View(t, lv), va, target))
                             || (r.1.error == TableExhausted && r.0.used == |t.pages|))
            && Budgeted(lv, lv', View(t, lv), level, target, va)
            && (va < VA_LIMIT ==> OnPath(View(t, lv), View(r.0, lv'), va, target))
    decreases target - level
  {
    hide Inv, Extends, KeepsTables, Index, Canonical, DecodeSlot, Shl, Link, And, Or, Walkable, Budgeted, OnPath,
      BlockedAbove;
    lv' := lv;
    var v := View(t, lv);
    BudgetSelf(lv, v, level, target, va);
    OnPathSelf(v, va, target);
    if level == target {
      ExtendsSelf(v);
    } else {
      var i := Index(level, va);
      var d := t.pages[table][i];
      var s := v.slots[table][i];
      EntryTests(t, lv, table, i);
      if d == 0 && t.used < |t.pages| {
        LinkExtends(t, lv, table, level, va);
        var t1, lv1 := Link(t, table, i), lv + [level + 1];
        lv' := DescendCorrect(t1, lv1, t.used, level + 1, target, va);
        BudgetLink(lv, lv', v, View(t1, lv1), level, target, va);
        DescendMore(v, View(t1, lv1), View(Descend(t1, t.used, level + 1, target, va).0, lv'), va, level, target);
      } else if s.Child? {
        assert Reach(v, level + 1, va) == At(s.page);
        lv' := DescendCorrect(t, lv, s.page, level + 1, target, va);
        BudgetDeeper(lv, lv', v, level, target, va);
      } else {
        ExtendsSelf(v);
        if d != 0 {
          LeafBlocks(v, level, target, va);
        }
      }
    }
  }

  lemma DescendMore(u: Tree<LeafInfo>, v: Tree<LeafInfo>, w: Tree<LeafInfo>, va: nat, level: nat, target: nat)
    requires Extends(u, v) && Extends(v, w) && 1 <= level < target
    ensures Extends(u, w) && (BlockedAbove(v, va, target) ==> BlockedAbove(u, va, target))
    ensures va < VA_LIMIT && OnPath(u, v, va, level + 1) && OnPath(v, w, va, target) ==> OnPath(u, w, va, target)
  {
    hide Extends, OnPath, BlockedAbove;
    ExtendsTransitive(u, v, w);
    BlockedSame(u, v, va, target);
    assert Walkable(u) && Walkable(v) && Walkable(w) by { ExtendsWalkable(u, v); ExtendsWalkable(v, w); }
    if OnPath(u, v, va, level + 1) && OnPath(v, w, va, target) {
      OnPathDeeper(u, v, va, level + 1, target);
      OnPathTransitive(u, v, w, va, target);
    }
  }

  lemma ExtendsWalkable(a: Tree<LeafInfo>, b: Tree<LeafInfo>)
    requires Extends(a, b)
    ensures Walkable(a) && Walkable(b)
  {
  }

  /** The builder's tests on a word decide the kind of entry. */
  lemma EntryTests(t: Tables, lv: seq<nat>, p: nat, i: nat)
    requires Inv(t, lv) && p < t.used && i < ENTRIES
    ensures var d, s := t.pages[p][i], View(t, lv).slots[p][i];
            && (d == 0 <==> s.Empty?)
            && (s.Child? ==> TableIndex(t, And(d, ADDRESS_MASK)) == Ok(s.page))
            && d == EncodeSlot(t, lv[p], s) && SlotFits(t, lv[p], s)
            && (lv[p] < 3 ==> (s.Child? <==>
                 And(d, Or(VALID, TABLE_OR_PAGE)) == Or(VALID, TABLE_OR_PAGE)))
  {
    hide And, Or, LeafDescriptor, TableDescriptor, IsTableOrPage, IsValid, AttrField, IsReadOnly, IsExecuteNever,
      OutputMask, SingleParent, Connected, Shl;
    var d, s := t.pages[p][i], View(t, lv).slots[p][i];
    assert Canonical(t, lv[p], d);
    DecodeEncode(t, lv[p], s);
    TableTest(d);
  }

  /** The lookup hands out `pa` with the attributes `attr` for the address `va`. */
  predicate Grants(h: Hit<LeafInfo>, va: nat, pa: nat, attr: Attributes) {
    h.Hit? && 1 <= h.level <= 3 && h.leaf.attr == attr && h.leaf.pa + va % LevelSize(h.level) == pa
  }

  /** From `v` to `w` no translation changes, and all that is new was asked for. When the request
      succeeded, all of it is there. */
  ghost predicate MapEffect(
    v: Tree<LeafInfo>, w: Tree<LeafInfo>, va: nat, pa: nat, size: nat, attr: Attributes, ok: bool)
  {
    && Walkable(v) && Walkable(w)
    && forall x: nat | x < VA_LIMIT ::
         && (Lookup(v, x).Hit? ==> Lookup(w, x) == Lookup(v, x))
         && (Lookup(w, x) != Lookup(v, x) ==> va <= x < va + size && Grants(Lookup(w, x), x, pa + (x - va), attr))
         && (ok && va <= x < va + size ==> Grants(Lookup(w, x), x, pa + (x - va), attr))
  }

  /** A leaf of `level` translates every address of the block at `va`. */
  ghost predicate LeafAt(v: Tree<LeafInfo>, level: nat, va: nat)
    requires Walkable(v) && 1 <= level <= 3
  {
    forall x: nat | x < VA_LIMIT && va <= x < va + LevelSize(level) :: Lookup(v, x).Hit? && Lookup(v, x).level == level
  }

  /** Storing a leaf descriptor over nothing, or over itself. */
  lemma PutLeaf(t: Tables, lv: seq<nat>, table: nat, level: nat, va: nat, pa: nat, attr: Attributes)
    requires Inv(t, lv) && 1 <= level <= 3 && va % LevelSize(level) == 0 && pa % LevelSize(level) == 0
    requires va < VA_LIMIT && pa < PA_LIMIT && Reach(View(t, lv), level, va) == At(table)
    requires || t.pages[table][Index(level, va)] == 0
             || t.pages[table][Index(level, va)] == LeafDescriptor(level, pa, attr)
    ensures var t' := Write(t, table, Index(level, va), LeafDescriptor(level, pa, attr));
            && Inv(t', lv)
            && MapEffect(View(t, lv), View(t', lv), va, pa, LevelSize(level), attr, true)
            && KeepsTables(View(t, lv), View(t', lv)) && KeepsTables(View(t', lv), View(t, lv))
            && LeafAt(View(t', lv), level, va)
  {
    hide Index, DecodeSlot, Canonical, SingleParent, Connected, Shl, And, Or, LeafDescriptor, Reach, Write, LevelSize,
      AllCanonical, Walkable, LookupAt;
    var i, v, s := Index(level, va), View(t, lv), Leaf(LeafInfo(pa, attr));
    var d := LeafDescriptor(level, pa, attr);
    assert lv[table] == level;
    EntryTests(t, lv, table, i);
    DecodeEncode(t, level, s);
    DecodeEncode(t, level, v.slots[table][i]);
    assert v.slots[table][i] == Empty || v.slots[table][i] == s;
    ViewWrite(t, lv, table, i, s);
    var w := SetSlot(v, table, i, s);
    forall x: nat | x < VA_LIMIT
      ensures (Lookup(v, x).Hit? ==> Lookup(w, x) == Lookup(v, x))
      ensures Lookup(w, x) != Lookup(v, x) ==>
                va <= x < va + LevelSize(level) && Grants(Lookup(w, x), x, pa + (x - va), attr)
      ensures va <= x < va + LevelSize(level) ==>
                Grants(Lookup(w, x), x, pa + (x - va), attr) && Lookup(w, x).level == level
    {
      SetSlotLookup(v, table, i, s, x);
      VisitsBlock(v, level, va, table, x);
      if Visits(v, table, i, x) {
        VisitedSlot(v, table, i, x);
        BlockOffset(level, va, x);
      }
    }
    forall l, x | 1 <= l <= 3
      ensures Reach(w, l, x) == Reach(v, l, x)
    {
      SetSlotReach(v, table, i, s, w, l, x);
    }
  }

  lemma BlockOffset(level: nat, va: nat, x: nat)
    requires 1 <= level <= 3 && va % LevelSize(level) == 0 && va <= x < va + LevelSize(level)
    ensures x % LevelSize(level) == x - va
  {
    ModUnique(x, LevelSize(level), va / LevelSize(level), x - va);
  }

  /** A leaf for `va` can be stored: nothing translates `va` and no table hangs where the leaf would
      go, or the very same leaf is there already. */
  ghost predicate LeafFits(v: Tree<LeafInfo>, level: nat, va: nat, pa: nat, attr: Attributes)
    requires Walkable(v) && 1 <= level <= 3
  {
    || Lookup(v, va) == Hit(LeafInfo(pa, attr), level)
    || (Lookup(v, va) == Miss && (level < 3 ==> Reach(v, level + 1, va).Nowhere?))
  }

  /** The entry that the descent ends at decides whether the leaf fits. */
  lemma EntryDecides(v: Tree<LeafInfo>, w: Tree<LeafInfo>, level: nat, va: nat, pa: nat, attr: Attributes)
    requires Extends(v, w) && OnPath(v, w, va, level) && va < VA_LIMIT && 1 <= level <= 3 && Reach(w, level, va).At?
    ensures var s := SlotOf(w, Reach(w, level, va).page, level, va);
            LeafFits(v, level, va, pa, attr) <==> s == Empty || s == Leaf(LeafInfo(pa, attr))
  {
    hide Index;
    LookupFrom(w, level, va);
    var s := SlotOf(w, Reach(w, level, va).page, level, va);
    if s.Child? && level < 3 {
      assert Reach(w, level + 1, va).At?;
      if LookupAt(w, level + 1, va).Hit? {
        HitSlot(w, level + 1, va);
      }
    }
  }

  lemma BlockedUnfit(v: Tree<LeafInfo>, level: nat, va: nat, pa: nat, attr: Attributes)
    requires Walkable(v) && 1 <= level <= 3 && BlockedAbove(v, va, level)
    ensures !LeafFits(v, level, va, pa, attr)
  {
    hide Lookup;
  }

  lemma OnPathPut(v: Tree<LeafInfo>, w: Tree<LeafInfo>, w': Tree<LeafInfo>, va: nat, target: nat)
    requires Walkable(v) && Walkable(w) && Walkable(w') && OnPath(v, w, va, target) && KeepsTables(w', w)
    ensures OnPath(v, w', va, target)
  {
    hide Index, LevelSize;
  }

  /** What the outcome of one leaf says. */
  ghost predicate LeafOutcome(
    t: Tables, v: Tree<LeafInfo>, level: nat, va: nat, pa: nat, attr: Attributes,
    r: (Tables, Result<(), TranslationError>))
    requires Walkable(v) && 1 <= level <= 3
  {
    match r.1
    case Ok(_) => LeafFits(v, level, va, pa, attr)
    case Err(e) =>
      || (e == ConflictingEntry && !LeafFits(v, level, va, pa, attr))
      || (e == TableExhausted && r.0.used == |t.pages|)
  }

  lemma MapLeafCorrect(t: Tables, lv: seq<nat>, level: nat, va: nat, pa: nat, attr: Attributes) returns (lv': seq<nat>)
    requires Inv(t, lv) && 1 <= level <= 3 && va % LevelSize(level) == 0 && pa % LevelSize(level) == 0
    requires va < VA_LIMIT && pa < PA_LIMIT
    ensures var r := MapLeaf(t, level, va, pa, attr);
            && Inv(r.0, lv')
            && MapEffect(View(t, lv), View(r.0, lv'), va, pa, LevelSize(level), attr, r.1.Ok?)
            && KeepsTables(View(t, lv), View(r.0, lv')) && OnPath(View(t, lv), View(r.0, lv'), va, level)
            && LeafOutcome(t, View(t, lv), level, va, pa, attr, r)
            && Budgeted(lv, lv', View(t, lv), 1, level, va)
            && (r.1.Ok? ==> Reach(View(r.0, lv'), level, va).At? && LeafAt(View(r.0, lv'), level, va))
  {
    hide Index, DecodeSlot, Canonical, SingleParent, Connected, Shl, Link, And, Or, Descend, LeafDescriptor, Reach,
      AllCanonical, Walkable, Lookup, MapEffect, Extends, KeepsTables, Write, Budgeted, OnPath, LeafFits, BlockedAbove,
      LeafAt;
    var v := View(t, lv);
    ReachRoot(v, va);
    lv' := DescendCorrect(t, lv, 0, 1, level, va);
    var (t1, r1) := Descend(t, 0, 1, level, va);
    var w := View(t1, lv');
    if r1.Ok? {
      var table, i := r1.value, Index(level, va);
      var d := LeafDescriptor(level, pa, attr);
      EntryFits(t1, lv', table, i, level, pa, attr);
      EntryDecides(v, w, level, va, pa, attr);
      if t1.pages[table][i] == 0 || t1.pages[table][i] == d {
        PutLeaf(t1, lv', table, level, va, pa, attr);
        var w' := View(Write(t1, table, i, d), lv');
        EffectAfterExtends(v, w, w', va, pa, LevelSize(level), attr);
        OnPathPut(v, w, w', va, level);
        KeptReach(w, w', level, va);
      } else {
        ExtendsEffect(v, w, va, pa, LevelSize(level), attr);
      }
    } else {
      ExtendsEffect(v, w, va, pa, LevelSize(level), attr);
      if r1.error == ConflictingEntry {
        BlockedUnfit(v, level, va, pa, attr);
      }
    }
  }

  /** The comparison of words is one of slots. */
  lemma EntryFits(t: Tables, lv: seq<nat>, p: nat, i: nat, level: nat, pa: nat, attr: Attributes)
    requires Inv(t, lv) && p < t.used && i < ENTRIES && lv[p] == level && 1 <= level <= 3
    requires pa % LevelSize(level) == 0 && pa < PA_LIMIT
    ensures var d, s := t.pages[p][i], View(t, lv).slots[p][i];
            (d == 0 || d == LeafDescriptor(level, pa, attr)) <==> (s == Empty || s == Leaf(LeafInfo(pa, attr)))
  {
    hide And, Or, LeafDescriptor, TableDescriptor, SingleParent, Connected, Shl, AllCanonical, Walkable, DecodeSlot;
    EntryTests(t, lv, p, i);
    DecodeEncode(t, level, View(t, lv).slots[p][i]);
    DecodeEncode(t, level, Leaf(LeafInfo(pa, attr)));
  }

  lemma ExtendsEffect(v: Tree<LeafInfo>, w: Tree<LeafInfo>, va: nat, pa: nat, size: nat, attr: Attributes)
    requires Extends(v, w)
    ensures Walkable(v) && Walkable(w) && MapEffect(v, w, va, pa, size, attr, false) && KeepsTables(v, w)
  {
  }

  lemma EffectAfterExtends(
    v: Tree<LeafInfo>, w: Tree<LeafInfo>, w': Tree<LeafInfo>, va: nat, pa: nat, size: nat, attr: Attributes)
    requires Extends(v, w) && MapEffect(w, w', va, pa, size, attr, true) && KeepsTables(w, w')
    ensures Walkable(v) && MapEffect(v, w', va, pa, size, attr, true) && KeepsTables(v, w')
  {
  }

  lemma KeptReach(v: Tree<LeafInfo>, w: Tree<LeafInfo>, level: nat, va: nat)
    requires Walkable(v) && Walkable(w) && KeepsTables(v, w) && 1 <= level <= 3
    ensures Reach(v, level, va).At? ==> Reach(w, level, va).At?
  {
  }

  lemma EffectThen(u: Tree<LeafInfo>, v: Tree<LeafInfo>, w: Tree<LeafInfo>,
                   va: nat, pa: nat, chunk: nat, rest: nat, attr: Attributes, ok: bool)
    requires MapEffect(u, v, va, pa, chunk, attr, true) && KeepsTables(u, v)
    requires MapEffect(v, w, va + chunk, pa + chunk, rest, attr, ok) && KeepsTables(v, w)
    ensures MapEffect(u, w, va, pa, chunk + rest, attr, ok) && KeepsTables(u, w)
  {
    hide Lookup, Reach;
    forall x: nat | x < VA_LIMIT
      ensures (Lookup(u, x).Hit? ==> Lookup(w, x) == Lookup(u, x))
      ensures Lookup(w, x) != Lookup(u, x) ==>
                va <= x < va + (chunk + rest) && Grants(Lookup(w, x), x, pa + (x - va), attr)
      ensures ok && va <= x < va + (chunk + rest) ==> Grants(Lookup(w, x), x, pa + (x - va), attr)
    {
      assert Lookup(v, x).Hit? ==> Lookup(w, x) == Lookup(v, x);
    }
  }

  lemma EffectWiden(v: Tree<LeafInfo>, w: Tree<LeafInfo>, va: nat, pa: nat, chunk: nat, size: nat, attr: Attributes)
    requires MapEffect(v, w, va, pa, chunk, attr, false) && chunk <= size
    ensures MapEffect(v, w, va, pa, size, attr, false)
  {
    hide Lookup;
  }

  lemma EffectNone(v: Tree<LeafInfo>, va: nat, pa: nat, attr: Attributes, ok: bool)
    requires Walkable(v)
    ensures MapEffect(v, v, va, pa, 0, attr, ok) && KeepsTables(v, v)
  {
  }

  lemma ChunkAligned(va: nat, pa: nat, remaining: nat)
    requires va % PAGE_SIZE == 0 && pa % PAGE_SIZE == 0 && remaining % PAGE_SIZE == 0 && remaining > 0
    ensures var size := LevelSize(ChooseLevel(va, pa, remaining));
            && va % size == 0 && pa % size == 0 && 0 < size <= remaining
            && (va + size) % PAGE_SIZE == 0 && (pa + size) % PAGE_SIZE == 0 && (remaining - size) % PAGE_SIZE == 0
  {
    hide AlignedFor;
    var level := ChooseLevel(va, pa, remaining);
    ChunkFits(va, pa, remaining);
    StepAligned(va, level);
    StepAligned(pa, level);
    StepAligned(remaining, level);
  }

  /** Every leaf that the loop will choose fits, as the tables are now. */
  ghost predicate Fits(v: Tree<LeafInfo>, va: nat, pa: nat, remaining: nat, attr: Attributes)
    requires Walkable(v) && remaining % PAGE_SIZE == 0
    decreases remaining
  {
    remaining == 0 ||
    var level := ChooseLevel(va, pa, remaining);
    ChunkFits(va, pa, remaining);
    && LeafFits(v, level, va, pa, attr)
    && Fits(v, va + LevelSize(level), pa + LevelSize(level), remaining - LevelSize(level), attr)
  }

  /** What the outcome of a request says. */
  ghost predicate RangeOutcome(
    t: Tables, v: Tree<LeafInfo>, va: nat, pa: nat, size: nat, attr: Attributes,
    r: (Tables, Result<(), TranslationError>))
    requires Walkable(v) && size % PAGE_SIZE == 0
  {
    match r.1
    case Ok(_) => Fits(v, va, pa, size, attr)
    case Err(e) =>
      || (e == ConflictingEntry && !Fits(v, va, pa, size, attr))
      || (e == TableExhausted && r.0.used == |t.pages|)
  }

  /** A leaf stored at `va` makes no difference to a leaf for a later address. */
  lemma LeafFitsAfter(
    v: Tree<LeafInfo>, w: Tree<LeafInfo>, level: nat, va: nat, pa: nat, attr: Attributes, l: nat, x: nat, y: nat)
    requires 1 <= level <= 3 && 1 <= l <= 3 && va + LevelSize(level) <= x < VA_LIMIT && x % LevelSize(l) == 0
    requires MapEffect(v, w, va, pa, LevelSize(level), attr, true) && KeepsTables(v, w) && OnPath(v, w, va, level)
    ensures LeafFits(w, l, x, y, attr) <==> LeafFits(v, l, x, y, attr)
  {
    hide Lookup, Reach;
    assert Lookup(w, x) == Lookup(v, x);
    if l < 3 && Reach(w, l + 1, x).At? && Reach(v, l + 1, x).Nowhere? {
      OtherBlock(l, va, x);
    }
  }

  lemma OtherBlock(level: nat, va: nat, x: nat)
    requires 1 <= level <= 3 && x % LevelSize(level) == 0 && va < x
    ensures x / LevelSize(level) != va / LevelSize(level)
  {
  }

  lemma {:induction false} FitsAfter(
    v: Tree<LeafInfo>, w: Tree<LeafInfo>, level: nat, va: nat, pa: nat, x: nat, y: nat, remaining: nat,
    attr: Attributes)
    requires 1 <= level <= 3 && remaining % PAGE_SIZE == 0 && x % PAGE_SIZE == 0 && y % PAGE_SIZE == 0
    requires MapEffect(v, w, va, pa, LevelSize(level), attr, true) && KeepsTables(v, w) && OnPath(v, w, va, level)
    requires va + LevelSize(level) <= x && x + remaining <= VA_LIMIT
    ensures Fits(w, x, y, remaining, attr) <==> Fits(v, x, y, remaining, attr)
    decreases remaining
  {
    hide MapEffect, KeepsTables, OnPath, LeafFits, ChooseLevel;
    if remaining > 0 {
      var l := ChooseLevel(x, y, remaining);
      ChunkAligned(x, y, remaining);
      LeafFitsAfter(v, w, level, va, pa, attr, l, x, y);
      FitsAfter(v, w, level, va, pa, x + LevelSize(l), y + LevelSize(l), remaining - LevelSize(l), attr);
    }
  }

  lemma {:induction false} MapFromCorrect(t: Tables, lv: seq<nat>, va: nat, pa: nat, remaining: nat, attr: Attributes)
    returns (lv': seq<nat>)
    requires Inv(t, lv) && va % PAGE_SIZE == 0 && pa % PAGE_SIZE == 0 && remaining % PAGE_SIZE == 0
    requires va + remaining <= VA_LIMIT && pa + remaining <= PA_LIMIT
    ensures var r := MapFrom(t, va, pa, remaining, attr);
            && Inv(r.0, lv')
            && MapEffect(View(t, lv), View(r.0, lv'), va, pa, remaining, attr, r.1.Ok?)
            && KeepsTables(View(t, lv), View(r.0, lv'))
            && RangeOutcome(t, View(t, lv), va, pa, remaining, attr, r)
            && lv <= lv'
    decreases remaining
  {
    hide Inv, View, MapEffect, KeepsTables, MapLeaf, ChooseLevel, Count, OnPath, LeafFits;
    if remaining == 0 {
      lv' := lv;
      EffectNone(View(t, lv), va, pa, attr, true);
    } else {
      var level := ChooseLevel(va, pa, remaining);
      var size := LevelSize(level);
      ChunkAligned(va, pa, remaining);
      lv' := MapLeafCorrect(t, lv, level, va, pa, attr);
      var (t1, r1) := MapLeaf(t, level, va, pa, attr);
      if r1.Ok? {
        var lv1 := lv';
        lv' := MapFromCorrect(t1, lv1, va + size, pa + size, remaining - size, attr);
        var (t2, r2) := MapFrom(t1, va + size, pa + size, remaining - size, attr);
        EffectThen(View(t, lv), View(t1, lv1), View(t2, lv'), va, pa, size, remaining - size, attr, r2.Ok?);
        FitsAfter(View(t, lv), View(t1, lv1), level, va, pa, va + size, pa + size, remaining - size, attr);
      } else {
        EffectWiden(View(t, lv), View(t1, lv'), va, pa, size, remaining, attr);
      }
    }
  }
}
