/** Which leaf covers each address of a request, and what that says about its outcome. */
module Stage1Blocks {
  import opened Wrappers
  import opened Bits
  import opened Descriptor
  import opened PageTree
  import opened Stage1
  import opened Stage1Refinement
  import opened Stage1Map
  import opened Stage1Theorems
  import opened Stage1Budget

  /** The block of level `l` around `x` lies inside the request, whose addresses agree below its size. */
  predicate Whole(m: Mapping, l: nat, x: nat)
    requires 1 <= l <= 3
  {
    var size := LevelSize(l);
    m.va % size == m.pa % size && m.va <= x / size * size && x / size * size + size <= m.va + m.size
  }

  /** The level of the largest whole block around `x`. */
  function BestLevel(m: Mapping, x: nat): (level: nat)
    ensures 1 <= level <= 3
  {
    if Whole(m, 1, x) then 1 else if Whole(m, 2, x) then 2 else 3
  }

  predicate Aligned(m: Mapping) {
    m.va % PAGE_SIZE == 0 && m.pa % PAGE_SIZE == 0 && m.size % PAGE_SIZE == 0
  }

  /** A position that the loop can be at: never strictly inside a whole block. */
  predicate Cursor(m: Mapping, c: nat) {
    && Aligned(m) && m.va <= c <= m.va + m.size && c % PAGE_SIZE == 0
    && (Whole(m, 1, c) ==> c % L1_SIZE == 0) && (Whole(m, 2, c) ==> c % L2_SIZE == 0)
  }

  lemma FirstCursor(m: Mapping)
    requires Aligned(m)
    ensures Cursor(m, m.va)
  {
    Boundary(m.va, L1_SIZE);
    Boundary(m.va, L2_SIZE);
  }

  lemma Boundary(x: nat, n: nat)
    requires n > 0
    ensures x / n * n + x % n == x
  {
  }

  /** Addresses that agree below a block size come to its boundaries together. */
  lemma AlignedTogether(va: nat, pa: nat, c: nat, l: nat)
    requires 1 <= l <= 3 && va <= c && c % LevelSize(l) == 0
    ensures va % LevelSize(l) == pa % LevelSize(l) <==> (pa + (c - va)) % LevelSize(l) == 0
  {
    if va % LevelSize(l) == pa % LevelSize(l) {
      Forth(va, pa, c, l);
    }
    if (pa + (c - va)) % LevelSize(l) == 0 {
      Back(va, pa, c, l);
    }
  }

  lemma Forth(va: nat, pa: nat, c: nat, l: nat)
    requires 1 <= l <= 3 && va <= c && c % LevelSize(l) == 0 && va % LevelSize(l) == pa % LevelSize(l)
    ensures (pa + (c - va)) % LevelSize(l) == 0
  {
    var n := LevelSize(l);
    var a, b, d := va / n, pa / n, c / n;
    match l
    case 1 => ModUnique(pa + (c - va), L1_SIZE, b + d - a, 0);
    case 2 => ModUnique(pa + (c - va), L2_SIZE, b + d - a, 0);
    case _ => ModUnique(pa + (c - va), PAGE_SIZE, b + d - a, 0);
  }

  lemma Back(va: nat, pa: nat, c: nat, l: nat)
    requires 1 <= l <= 3 && va <= c && c % LevelSize(l) == 0 && (pa + (c - va)) % LevelSize(l) == 0
    ensures va % LevelSize(l) == pa % LevelSize(l)
  {
    var n := LevelSize(l);
    var a, b, d := va / n, (pa + (c - va)) / n, c / n;
    match l
    case 1 => ModUnique(pa, L1_SIZE, b + a - d, va % L1_SIZE);
    case 2 => ModUnique(pa, L2_SIZE, b + a - d, va % L2_SIZE);
    case _ => ModUnique(pa, PAGE_SIZE, b + a - d, va % PAGE_SIZE);
  }

  /** At a cursor the loop's test for a level is the question whether the block there is whole. */
  lemma WholeAtCursor(m: Mapping, c: nat, l: nat)
    requires Cursor(m, c) && 1 <= l <= 2
    ensures Whole(m, l, c) <==> AlignedFor(c, m.pa + (c - m.va), l) && m.va + m.size - c >= LevelSize(l)
  {
    hide AlignedFor;
    Boundary(c, LevelSize(l));
    if c % LevelSize(l) == 0 {
      AlignedTogether(m.va, m.pa, c, l);
    }
  }

  /** At a cursor the loop chooses the largest whole block. */
  lemma ChoiceAtCursor(m: Mapping, c: nat)
    requires Cursor(m, c) && c < m.va + m.size
    ensures ChooseLevel(c, m.pa + (c - m.va), m.va + m.size - c) == BestLevel(m, c)
    ensures c % LevelSize(BestLevel(m, c)) == 0 && c + LevelSize(BestLevel(m, c)) <= m.va + m.size
  {
    hide AlignedFor, Whole;
    WholeAtCursor(m, c, 1);
    WholeAtCursor(m, c, 2);
    PagesLeft(m, c);
  }

  lemma PagesLeft(m: Mapping, c: nat)
    requires Cursor(m, c) && c < m.va + m.size
    ensures m.va + m.size - c >= PAGE_SIZE && (m.va + m.size - c) % PAGE_SIZE == 0
    ensures (m.pa + (c - m.va)) % PAGE_SIZE == 0
  {
    hide Whole;
    var a, b, s, p := m.va / PAGE_SIZE, c / PAGE_SIZE, m.size / PAGE_SIZE, m.pa / PAGE_SIZE;
    assert m.va + m.size - c == PAGE_SIZE * (a + s - b);
    ModUnique(m.va + m.size - c, PAGE_SIZE, a + s - b, 0);
    ModUnique(m.pa + (c - m.va), PAGE_SIZE, p + b - a, 0);
  }

  /** Two addresses of one block agree on the blocks around it. */
  lemma InBlock(level: nat, c: nat, x: nat, l: nat)
    requires 1 <= l <= level <= 3 && c % LevelSize(level) == 0 && c <= x < c + LevelSize(level)
    ensures x / LevelSize(l) == c / LevelSize(l)
  {
    var q := c / LevelSize(level);
    if l == level {
      ModUnique(x, LevelSize(l), q, x - c);
    } else if level == 2 {
      ModUnique(x, L1_SIZE, q / 512, L2_SIZE * (q % 512) + (x - c));
      ModUnique(c, L1_SIZE, q / 512, L2_SIZE * (q % 512));
    } else if l == 2 {
      ModUnique(x, L2_SIZE, q / 512, PAGE_SIZE * (q % 512) + (x - c));
      ModUnique(c, L2_SIZE, q / 512, PAGE_SIZE * (q % 512));
    } else {
      ModUnique(x, L1_SIZE, q / 0x4_0000, PAGE_SIZE * (q % 0x4_0000) + (x - c));
      ModUnique(c, L1_SIZE, q / 0x4_0000, PAGE_SIZE * (q % 0x4_0000));
    }
  }

  lemma WholeInBlock(m: Mapping, l: nat, x: nat, y: nat)
    requires 1 <= l <= 3 && x / LevelSize(l) == y / LevelSize(l)
    ensures Whole(m, l, x) <==> Whole(m, l, y)
  {
  }

  /** One leaf covers its whole block. */
  lemma LevelInBlock(m: Mapping, c: nat, x: nat)
    requires c % LevelSize(BestLevel(m, c)) == 0 && c <= x < c + LevelSize(BestLevel(m, c))
    ensures BestLevel(m, x) == BestLevel(m, c)
  {
    hide Whole, LevelSize;
    var level := BestLevel(m, c);
    InBlock(level, c, x, 1);
    WholeInBlock(m, 1, x, c);
    if level > 1 {
      InBlock(level, c, x, 2);
      WholeInBlock(m, 2, x, c);
    }
  }

  lemma NextCursorAt(m: Mapping, c: nat)
    requires Cursor(m, c) && c < m.va + m.size
    ensures Cursor(m, c + LevelSize(BestLevel(m, c)))
  {
    hide Whole, ChooseLevel;
    ChoiceAtCursor(m, c);
    var level := BestLevel(m, c);
    StepAligned(c, level);
    NotInside(m, c, 1);
    NotInside(m, c, 2);
  }

  lemma NotInside(m: Mapping, c: nat, l: nat)
    requires Cursor(m, c) && c % LevelSize(BestLevel(m, c)) == 0 && 1 <= l <= 2
    ensures var next := c + LevelSize(BestLevel(m, c)); Whole(m, l, next) ==> next % LevelSize(l) == 0
  {
    hide Whole;
    var level := BestLevel(m, c);
    var next := c + LevelSize(level);
    if next % LevelSize(l) != 0 {
      StillInBlock(level, c, l + 1);
      WholeInBlock(m, l, next, c);
    }
  }

  // The leaves that are stored.

  predicate LevelIs(t: Tables, x: nat, level: nat)
    requires Shaped(t)
  {
    Walk(t, x).Ok? && Walk(t, x).value.Some? && Walk(t, x).value.value.level == level
  }

  lemma MapLeafLevel(t: Tables, lv: seq<nat>, level: nat, va: nat, pa: nat, attr: Attributes) returns (lv': seq<nat>)
    requires Inv(t, lv) && 1 <= level <= 3 && va % LevelSize(level) == 0 && pa % LevelSize(level) == 0
    requires va < VA_LIMIT && pa < PA_LIMIT
    ensures Inv(MapLeaf(t, level, va, pa, attr).0, lv')
    ensures MapLeaf(t, level, va, pa, attr).1.Ok? ==>
              forall x: nat | x < VA_LIMIT && va <= x < va + LevelSize(level) ::
                LevelIs(MapLeaf(t, level, va, pa, attr).0, x, level)
  {
    hide Inv, View, Walk, MapEffect, KeepsTables, MapLeaf, Reach, Budgeted, LeafOutcome, OnPath, Lookup;
    lv' := MapLeafCorrect(t, lv, level, va, pa, attr);
    var (t', r) := MapLeaf(t, level, va, pa, attr);
    if r.Ok? {
      forall x: nat | x < VA_LIMIT && va <= x < va + LevelSize(level)
        ensures LevelIs(t', x, level)
      {
        WalkIsLookup(t', lv', x);
      }
    }
  }

  /** What the loop does later changes no walk that finds a leaf. */
  lemma LaterKeeps(t: Tables, lv: seq<nat>, va: nat, pa: nat, remaining: nat, attr: Attributes)
    requires Inv(t, lv) && va % PAGE_SIZE == 0 && pa % PAGE_SIZE == 0 && remaining % PAGE_SIZE == 0
    requires va + remaining <= VA_LIMIT && pa + remaining <= PA_LIMIT
    ensures forall x: nat, l: nat | x < VA_LIMIT && LevelIs(t, x, l) ::
              LevelIs(MapFrom(t, va, pa, remaining, attr).0, x, l)
  {
    hide Inv, View, Walk, KeepsTables, MapFrom, RangeOutcome, Lookup;
    var lv' := MapFromCorrect(t, lv, va, pa, remaining, attr);
    var t' := MapFrom(t, va, pa, remaining, attr).0;
    forall x: nat, l: nat | x < VA_LIMIT && LevelIs(t, x, l)
      ensures LevelIs(t', x, l)
    {
      WalkIsLookup(t, lv, x);
      WalkIsLookup(t', lv', x);
    }
  }

  lemma {:induction false} MapFromLevels(t: Tables, lv: seq<nat>, m: Mapping, c: nat)
    requires Inv(t, lv) && Cursor(m, c) && m.va + m.size <= VA_LIMIT && m.pa + m.size <= PA_LIMIT
    ensures (m.va + m.size - c) % PAGE_SIZE == 0
    ensures var r := MapFrom(t, c, m.pa + (c - m.va), m.va + m.size - c, m.attr);
            r.1.Ok? ==> forall x: nat | c <= x < m.va + m.size :: LevelIs(r.0, x, BestLevel(m, x))
    decreases m.va + m.size - c
  {
    hide Inv, View, Whole, ChooseLevel, BestLevel, MapLeaf, LevelIs;
    if c < m.va + m.size {
      CursorFacts(m, c);
      var level, pc := BestLevel(m, c), m.pa + (c - m.va);
      var size := LevelSize(level);
      ChunkAligned(c, pc, m.va + m.size - c);
      var lv' := MapLeafLevel(t, lv, level, c, pc, m.attr);
      var (t1, r1) := MapLeaf(t, level, c, pc, m.attr);
      if r1.Ok? {
        assert m.pa + (c + size - m.va) == pc + size && m.va + m.size - (c + size) == m.va + m.size - c - size;
        LaterKeeps(t1, lv', c + size, pc + size, m.va + m.size - c - size, m.attr);
        MapFromLevels(t1, lv', m, c + size);
        forall x: nat | c <= x < c + size
          ensures BestLevel(m, x) == level
        {
          LevelInBlock(m, c, x);
        }
      }
    }
  }

  /** All that one step needs to know about its cursor. */
  lemma CursorFacts(m: Mapping, c: nat)
    requires Cursor(m, c) && c < m.va + m.size
    ensures ChooseLevel(c, m.pa + (c - m.va), m.va + m.size - c) == BestLevel(m, c)
    ensures Cursor(m, c + LevelSize(BestLevel(m, c))) && m.va <= c && c % PAGE_SIZE == 0
    ensures c % LevelSize(BestLevel(m, c)) == 0 && c + LevelSize(BestLevel(m, c)) <= m.va + m.size
    ensures (m.va + m.size - c) % PAGE_SIZE == 0 && (m.pa + (c - m.va)) % PAGE_SIZE == 0
  {
    hide Whole, ChooseLevel, BestLevel;
    ChoiceAtCursor(m, c);
    NextCursorAt(m, c);
    PagesLeft(m, c);
  }

  /** A request that succeeds has every address translated by the largest leaf that fits: the one of
      the least level whose block around the address lies inside the range and is equally aligned in
      both address spaces. */
  lemma LargestLeaves(t: Tables, m: Mapping)
    requires Valid(t) && Shaped(t) && Map(t, m).1.Ok?
    ensures forall x: nat | InRange(m, x) ::
              && LevelIs(Map(t, m).0, x, BestLevel(m, x))
              && Whole(m, BestLevel(m, x), x)
              && forall l | 1 <= l < BestLevel(m, x) :: !Whole(m, l, x)
  {
    hide Inv, MapFrom, ValidateMapping, Shl, LevelIs;
    var lv :| Inv(t, lv);
    ValidatedMapping(t, m);
    PaLimit(t);
    FirstCursor(m);
    MapFromLevels(t, lv, m, m.va);
    forall x: nat | InRange(m, x)
      ensures Whole(m, BestLevel(m, x), x)
    {
      PageWhole(m, x);
    }
  }

  lemma PageWhole(m: Mapping, x: nat)
    requires Aligned(m) && InRange(m, x)
    ensures Whole(m, 3, x)
  {
    Boundary(x, PAGE_SIZE);
  }

  // When a request succeeds.

  /** The first address of a leaf of the request. */
  predicate LeafStart(m: Mapping, x: nat) {
    InRange(m, x) && x % LevelSize(BestLevel(m, x)) == 0
  }

  /** Every leaf of the request from `c` on fits into the tables. */
  ghost predicate FitFrom(v: Tree<LeafInfo>, m: Mapping, c: nat)
    requires Walkable(v)
  {
    forall x: nat | c <= x && LeafStart(m, x) :: LeafFits(v, BestLevel(m, x), x, m.pa + (x - m.va), m.attr)
  }

  ghost predicate AllFit(v: Tree<LeafInfo>, m: Mapping)
    requires Walkable(v)
  {
    FitFrom(v, m, m.va)
  }

  lemma {:induction false} FitsIsFitFrom(v: Tree<LeafInfo>, m: Mapping, c: nat)
    requires Walkable(v) && Cursor(m, c)
    ensures (m.va + m.size - c) % PAGE_SIZE == 0
    ensures Fits(v, c, m.pa + (c - m.va), m.va + m.size - c, m.attr) <==> FitFrom(v, m, c)
    decreases m.va + m.size - c
  {
    hide Whole, ChooseLevel, BestLevel, LeafFits;
    if c < m.va + m.size {
      CursorFacts(m, c);
      var level, pc := BestLevel(m, c), m.pa + (c - m.va);
      var size := LevelSize(level);
      assert m.pa + (c + size - m.va) == pc + size && m.va + m.size - (c + size) == m.va + m.size - c - size;
      FitsIsFitFrom(v, m, c + size);
      forall x: nat | c <= x < c + size && LeafStart(m, x)
        ensures x == c
      {
        LevelInBlock(m, c, x);
        BlockOffset(level, c, x);
      }
      assert LeafStart(m, c);
    }
  }

  /** The blocks whose table of level `l` is missing in `v` and needed by an address of the request
      below `c`. */
  ghost function MissingBelow(v: Tree<LeafInfo>, m: Mapping, l: nat, c: nat): set<nat>
    requires Walkable(v) && 2 <= l <= 3
  {
    set x: nat | m.va <= x < c && BestLevel(m, x) >= l && Reach(v, l, x).Nowhere? :: x / LevelSize(l - 1)
  }

  /** The blocks below which the request needs a table of level `l` that `v` does not have. */
  ghost function MissingTables(v: Tree<LeafInfo>, m: Mapping, l: nat): set<nat>
    requires Walkable(v) && 2 <= l <= 3
  {
    MissingBelow(v, m, l, m.va + m.size)
  }

  lemma AbsentInBlock(v: Tree<LeafInfo>, l: nat, x: nat, y: nat)
    requires Walkable(v) && 2 <= l <= 3 && x < VA_LIMIT && y < VA_LIMIT && x / LevelSize(l - 1) == y / LevelSize(l - 1)
    ensures Reach(v, l, x).Nowhere? <==> Reach(v, l, y).Nowhere?
  {
    hide Reach;
    SameBlock(l - 1, x, y);
    AgreeMeets(v, l, x, y);
  }

  /** One leaf adds the table of its own block, or none. */
  lemma BelowNext(v: Tree<LeafInfo>, m: Mapping, l: nat, c: nat)
    requires Walkable(v) && 2 <= l <= 3 && Cursor(m, c) && c < m.va + m.size <= VA_LIMIT
    ensures var level := BestLevel(m, c);
            MissingBelow(v, m, l, c + LevelSize(level)) == MissingBelow(v, m, l, c)
              + (if level >= l && Reach(v, l, c).Nowhere? then {c / LevelSize(l - 1)} else {})
  {
    hide Cursor, ChooseLevel, BestLevel, Reach;
    CursorFacts(m, c);
    var level := BestLevel(m, c);
    forall x: nat | c <= x < c + LevelSize(level)
      ensures BestLevel(m, x) == level
      ensures level >= l ==> x / LevelSize(l - 1) == c / LevelSize(l - 1)
      ensures level >= l ==> (Reach(v, l, x).Nowhere? <==> Reach(v, l, c).Nowhere?)
    {
      LevelInBlock(m, c, x);
      if level >= l {
        InBlock(level, c, x, l - 1);
        AbsentInBlock(v, l, x, c);
      }
    }
  }

  /** The table of a block is counted at the first leaf that needs it. */
  lemma CountedBefore(v: Tree<LeafInfo>, m: Mapping, l: nat, c: nat)
    requires Walkable(v) && 2 <= l <= 3 && Cursor(m, c) && c < m.va + m.size <= VA_LIMIT
    requires BestLevel(m, c) >= l && Reach(v, l, c).Nowhere?
    ensures c / LevelSize(l - 1) in MissingBelow(v, m, l, c) <==> c != m.va && c % LevelSize(l - 1) != 0
  {
    hide Cursor, Reach, Whole, ChooseLevel;
    CursorFacts(m, c);
    if c % LevelSize(l - 1) == 0 {
      forall x: nat | m.va <= x < c && BestLevel(m, x) >= l
        ensures x / LevelSize(l - 1) != c / LevelSize(l - 1)
      {
        OtherBlock(l - 1, x, c);
      }
    } else if c != m.va {
      JustBefore(c, l - 1);
      WholeInBlock(m, 1, c - 1, c);
      if l == 3 {
        WholeInBlock(m, 2, c - 1, c);
      }
      AbsentInBlock(v, l, c - 1, c);
    }
  }

  /** Inside a block, the address before lies in the same block, and so in the same larger ones. */
  lemma JustBefore(c: nat, level: nat)
    requires 1 <= level <= 2 && c % LevelSize(level) != 0
    ensures c > 0 && (c - 1) / LevelSize(level) == c / LevelSize(level)
    ensures (c - 1) / L1_SIZE == c / L1_SIZE
  {
    if level == 1 {
      ModUnique(c - 1, L1_SIZE, c / L1_SIZE, c % L1_SIZE - 1);
    } else {
      var q, r := c / L2_SIZE, c % L2_SIZE;
      ModUnique(c - 1, L2_SIZE, q, r - 1);
      ModUnique(c - 1, L1_SIZE, q / 512, L2_SIZE * (q % 512) + r - 1);
      ModUnique(c, L1_SIZE, q / 512, L2_SIZE * (q % 512) + r);
    }
  }

  lemma OneMoreBelow(v: Tree<LeafInfo>, m: Mapping, l: nat, c: nat)
    requires Walkable(v) && 2 <= l <= 3 && Cursor(m, c) && c < m.va + m.size <= VA_LIMIT
    ensures var level := BestLevel(m, c);
            |MissingBelow(v, m, l, c + LevelSize(level))| == |MissingBelow(v, m, l, c)|
              + (if l <= level && (c == m.va || c % LevelSize(l - 1) == 0) then Absent(v, l, c) else 0)
  {
    hide Cursor, BestLevel, Reach, MissingBelow;
    BelowNext(v, m, l, c);
    if BestLevel(m, c) >= l && Reach(v, l, c).Nowhere? {
      CountedBefore(v, m, l, c);
    }
  }

  lemma {:induction false} NeededIsMissing(v: Tree<LeafInfo>, m: Mapping, c: nat)
    requires Walkable(v) && Cursor(m, c) && m.va + m.size <= VA_LIMIT
    ensures (m.va + m.size - c) % PAGE_SIZE == 0
    ensures Needed(v, c, m.pa + (c - m.va), m.va + m.size - c, c == m.va)
         == |MissingTables(v, m, 2)| - |MissingBelow(v, m, 2, c)|
            + |MissingTables(v, m, 3)| - |MissingBelow(v, m, 3, c)|
    decreases m.va + m.size - c
  {
    hide Whole, ChooseLevel, BestLevel, MissingBelow, Absent;
    if c < m.va + m.size {
      CursorFacts(m, c);
      var level, pc := BestLevel(m, c), m.pa + (c - m.va);
      var size := LevelSize(level);
      assert m.pa + (c + size - m.va) == pc + size && m.va + m.size - (c + size) == m.va + m.size - c - size;
      OneMoreBelow(v, m, 2, c);
      OneMoreBelow(v, m, 3, c);
      NeededIsMissing(v, m, c + size);
    }
  }

  lemma NeededTables(v: Tree<LeafInfo>, m: Mapping)
    requires Walkable(v) && Aligned(m) && m.va + m.size <= VA_LIMIT
    ensures Needed(v, m.va, m.pa, m.size, true) == |MissingTables(v, m, 2)| + |MissingTables(v, m, 3)|
  {
    hide Needed, Cursor, BestLevel, Reach;
    FirstCursor(m);
    NeededIsMissing(v, m, m.va);
    assert MissingBelow(v, m, 2, m.va) == {} && MissingBelow(v, m, 3, m.va) == {};
  }

  lemma FitsIsAllFit(v: Tree<LeafInfo>, m: Mapping)
    requires Walkable(v) && Aligned(m)
    ensures Fits(v, m.va, m.pa, m.size, m.attr) <==> AllFit(v, m)
  {
    hide Fits, Cursor, BestLevel, LeafFits;
    FirstCursor(m);
    FitsIsFitFrom(v, m, m.va);
  }

  /** A valid request succeeds only if every leaf it needs fits, conflicts only if one does not, and
      runs out of tables only when the arena is full. */
  lemma MapOutcome(t: Tables, lv: seq<nat>, m: Mapping)
    requires Inv(t, lv) && Shaped(t) && ValidateMapping(t, m).Ok?
    ensures match Map(t, m).1
            case Ok(_) => AllFit(View(t, lv), m)
            case Err(e) =>
              || (e == ConflictingEntry && !AllFit(View(t, lv), m))
              || (e == TableExhausted && Map(t, m).0.used == |t.pages|)
  {
    hide View, MapFrom, ValidateMapping, Shl, AllCanonical, WellFormed, Connected, Fits, AllFit;
    ValidatedMapping(t, m);
    PaLimit(t);
    var lv' := MapFromCorrect(t, lv, m.va, m.pa, m.size, m.attr);
    FitsIsAllFit(View(t, lv), m);
  }

  /** A valid request succeeds exactly when every leaf it needs fits into the tables as they are and
      the arena has as many free pages as tables are missing; then it takes exactly those. */
  lemma MapSucceedsIff(t: Tables, lv: seq<nat>, m: Mapping)
    requires Inv(t, lv) && Shaped(t) && ValidateMapping(t, m).Ok?
    ensures var v := View(t, lv);
            var missing := |MissingTables(v, m, 2)| + |MissingTables(v, m, 3)|;
            && (Map(t, m).1.Ok? <==> AllFit(v, m) && t.used + missing <= |t.pages|)
            && (Map(t, m).1.Ok? ==> Map(t, m).0.used == t.used + missing)
  {
    hide View, MapFrom, ValidateMapping, Shl, Needed, AllFit, MissingTables, AllCanonical, WellFormed, Connected;
    ValidatedMapping(t, m);
    PaLimit(t);
    MapFromUses(t, lv, m.va, m.pa, m.size, m.attr);
    NeededTables(View(t, lv), m);
    MapOutcome(t, lv, m);
  }

  /** With four free pages a valid request whose addresses agree below 1 GiB succeeds exactly when
      every leaf it needs fits into the tables as they are. */
  lemma FourPagesSuffice(t: Tables, lv: seq<nat>, m: Mapping)
    requires Inv(t, lv) && Shaped(t) && ValidateMapping(t, m).Ok? && m.va % L1_SIZE == m.pa % L1_SIZE
    requires t.used + 4 <= |t.pages|
    ensures Map(t, m).1.Ok? <==> AllFit(View(t, lv), m)
  {
    hide View, MapFrom, ValidateMapping, Shl, Missing, AllFit, AllCanonical, WellFormed, Connected;
    ValidatedMapping(t, m);
    PaLimit(t);
    MapFromEnough(t, lv, m.va, m.pa, m.size, m.attr, m.va, m.va + m.size - 1);
    MapOutcome(t, lv, m);
  }

  /** It is enough that nothing in the range is translated and no table hangs where a block would go. */
  lemma UnmappedFits(v: Tree<LeafInfo>, m: Mapping)
    requires Walkable(v) && forall x: nat | InRange(m, x) :: Lookup(v, x) == Miss
    requires forall x: nat | LeafStart(m, x) && BestLevel(m, x) < 3 :: Reach(v, BestLevel(m, x) + 1, x).Nowhere?
    ensures AllFit(v, m)
  {
    hide Lookup, Reach, BestLevel;
  }

  /** The first request into a new table set of five pages succeeds if it is valid and its addresses
      agree below 1 GiB. */
  lemma FirstMapSucceeds(pages: seq<seq<nat>>, base: nat, paBits: nat, m: Mapping)
    requires (forall p | 0 <= p < |pages| :: |pages[p]| == ENTRIES) && New(pages, base, paBits).Ok? && |pages| >= 5
    requires ValidateMapping(New(pages, base, paBits).value, m).Ok? && m.va % L1_SIZE == m.pa % L1_SIZE
    ensures Map(New(pages, base, paBits).value, m).1.Ok?
  {
    hide Inv, View, Map, ValidateMapping, Shl, Lookup, BestLevel;
    var t := New(pages, base, paBits).value;
    NewTree(pages, base, paBits);
    ValidatedMapping(t, m);
    NothingBelow(View(t, [1]), m);
    UnmappedFits(View(t, [1]), m);
    FourPagesSuffice(t, [1], m);
  }

  lemma NothingBelow(v: Tree<LeafInfo>, m: Mapping)
    requires Walkable(v) && forall x: nat :: Reach(v, 2, x).Nowhere?
    ensures forall x: nat | LeafStart(m, x) && BestLevel(m, x) < 3 :: Reach(v, BestLevel(m, x) + 1, x).Nowhere?
  {
    hide SlotOf, Whole;
  }
}
