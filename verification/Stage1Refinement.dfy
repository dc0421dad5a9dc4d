/** The word-level tables refine a translation tree. */
module Stage1Refinement {
  import opened Wrappers
  import opened Bits
  import opened Descriptor
  import opened PageTree
  import opened Stage1

  /** A leaf in decoded form. */
  datatype LeafInfo = LeafInfo(pa: nat, attr: Attributes)

  // Decoding and encoding one entry.

  function DecodeSlot(t: Tables, level: nat, d: nat): Slot<LeafInfo>
    requires 1 <= level <= 3
  {
    if !IsValid(d) then Empty
    else if level < 3 && IsTableOrPage(d) then
      match TableIndex(t, And(d, ADDRESS_MASK))
      case Ok(child) => Child(child)
      case Err(_) => Empty
    else
      var mt := if AttrField(d) == 0 then Normal else Device;
      Leaf(LeafInfo(And(d, OutputMask(level)), Attributes(mt, !IsReadOnly(d), !IsExecuteNever(d))))
  }

  function EncodeSlot(t: Tables, level: nat, s: Slot<LeafInfo>): nat
    requires 1 <= level <= 3
  {
    match s
    case Empty => 0
    case Child(c) => TableDescriptor(TablePa(t, c))
    case Leaf(l) => LeafDescriptor(level, l.pa, l.attr)
  }

  predicate SlotFits(t: Tables, level: nat, s: Slot<LeafInfo>)
    requires 1 <= level <= 3
  {
    match s
    case Empty => true
    case Child(c) => level < 3 && c < t.used
    case Leaf(l) => l.pa % LevelSize(level) == 0 && l.pa < PA_LIMIT
  }

  predicate Canonical(t: Tables, level: nat, d: nat)
    requires 1 <= level <= 3
  {
    SlotFits(t, level, DecodeSlot(t, level, d)) && d == EncodeSlot(t, level, DecodeSlot(t, level, d))
  }

  lemma PaLimit(t: Tables)
    requires Shaped(t)
    ensures Shl(1, t.paBits) <= PA_LIMIT
  {
    PowerBelow(t.paBits);
  }

  lemma PowerBelow(k: nat)
    requires k <= 48
    ensures Shl(1, k) <= PA_LIMIT
  {
    ShiftOne();
    ShlAdd(1, k, 48 - k);
  }

  lemma TableIndexOf(t: Tables, c: nat)
    requires Shaped(t) && c < t.used
    ensures TablePa(t, c) % PAGE_SIZE == 0 && TablePa(t, c) < PA_LIMIT
    ensures TableIndex(t, TablePa(t, c)) == Ok(c)
  {
    PaLimit(t);
    ModUnique(TablePa(t, c), PAGE_SIZE, t.base / PAGE_SIZE + c, 0);
    ModUnique(c * PAGE_SIZE, PAGE_SIZE, c, 0);
  }

  /** Encoded entries decode to themselves, and the builder's tests tell the three kinds apart. */
  lemma DecodeEncode(t: Tables, level: nat, s: Slot<LeafInfo>)
    requires Shaped(t) && 1 <= level <= 3 && SlotFits(t, level, s)
    ensures DecodeSlot(t, level, EncodeSlot(t, level, s)) == s
    ensures EncodeSlot(t, level, s) == 0 <==> s.Empty?
    ensures level < 3 ==> (s.Child? <==> IsValid(EncodeSlot(t, level, s)) && IsTableOrPage(EncodeSlot(t, level, s)))
  {
    hide And, Or, LeafDescriptor, TableDescriptor, IsTableOrPage, AttrField, IsReadOnly, IsExecuteNever, OutputMask,
      TableIndex;
    ZeroInvalid();
    match s
    case Empty =>
    case Child(c) =>
      TableIndexOf(t, c);
      TableRoundTrip(TablePa(t, c));
    case Leaf(l) =>
      LeafRoundTrip(level, l.pa, l.attr);
  }

  lemma ZeroInvalid()
    ensures !IsValid(0)
  {
  }

  lemma TableTest(d: nat)
    ensures And(d, Or(VALID, TABLE_OR_PAGE)) == Or(VALID, TABLE_OR_PAGE) <==> IsValid(d) && IsTableOrPage(d)
  {
    hide And, IsValid, IsTableOrPage, Low;
    assert Or(VALID, TABLE_OR_PAGE) == 3 by { AddTable(1); }
    LowMaskValue(2);
    LowSmall(1, 2);
    AndLowMask(d, 2);
    LowSmall(d, 2);
    BitTests(d);
  }

  // The tree behind a table set. `lv` records the level each arena page serves.

  ghost predicate Levelled(t: Tables, lv: seq<nat>) {
    Shaped(t) && |lv| == t.used && forall p | 0 <= p < t.used :: 1 <= lv[p] <= 3
  }

  ghost function PageView(t: Tables, lv: seq<nat>, p: nat): (s: seq<Slot<LeafInfo>>)
    requires Levelled(t, lv) && p < t.used
    ensures |s| == ENTRIES
    ensures forall i | 0 <= i < ENTRIES :: s[i] == DecodeSlot(t, lv[p], t.pages[p][i])
  {
    seq(ENTRIES, i requires 0 <= i < ENTRIES => DecodeSlot(t, lv[p], t.pages[p][i]))
  }

  ghost function View(t: Tables, lv: seq<nat>): Tree<LeafInfo>
    requires Levelled(t, lv)
  {
    Tree(map p: nat | p < t.used :: PageView(t, lv, p), map p: nat | p < t.used :: lv[p], 0)
  }

  ghost predicate AllCanonical(t: Tables, lv: seq<nat>)
    requires Levelled(t, lv)
  {
    forall p, i | 0 <= p < t.used && 0 <= i < ENTRIES :: Canonical(t, lv[p], t.pages[p][i])
  }

  /** The used pages hold canonical entries that form a connected tree. */
  ghost predicate Inv(t: Tables, lv: seq<nat>): (r: bool)
    ensures r ==> Levelled(t, lv) && Walkable(View(t, lv))
  {
    && Levelled(t, lv) && AllCanonical(t, lv)
    && WellFormed(View(t, lv)) && Connected(View(t, lv))
  }

  ghost predicate Valid(t: Tables) {
    exists lv :: Inv(t, lv)
  }

  lemma CanonicalLater(t: Tables, t': Tables, level: nat, d: nat)
    requires Shaped(t) && 1 <= level <= 3 && Canonical(t, level, d)
    requires t'.base == t.base && t.used <= t'.used
    ensures Canonical(t', level, d) && DecodeSlot(t', level, d) == DecodeSlot(t, level, d)
  {
    hide And, Or, LeafDescriptor, TableDescriptor, IsTableOrPage, IsValid, AttrField, IsReadOnly, IsExecuteNever,
      OutputMask;
    if IsValid(d) && level < 3 && IsTableOrPage(d) {
      ZeroInvalid();
      assert d != 0;
      assert DecodeSlot(t, level, d).Child?;
    }
  }

  /** Writing a leaf or zero over an entry that is not a table. */
  lemma ViewWrite(t: Tables, lv: seq<nat>, p: nat, i: nat, s: Slot<LeafInfo>)
    requires Inv(t, lv) && p < t.used && i < ENTRIES
    requires !s.Child? && SlotFits(t, lv[p], s) && !View(t, lv).slots[p][i].Child?
    ensures Inv(Write(t, p, i, EncodeSlot(t, lv[p], s)), lv)
    ensures View(Write(t, p, i, EncodeSlot(t, lv[p], s)), lv) == SetSlot(View(t, lv), p, i, s)
  {
    hide And, Or, DecodeSlot, EncodeSlot, Canonical, SlotFits, SingleParent, Connected, Shl;
    var d := EncodeSlot(t, lv[p], s);
    var t' := Write(t, p, i, d);
    WrittenSlot(t, t', lv[p], s);
    forall q, j | 0 <= q < t.used && 0 <= j < ENTRIES && (q, j) != (p, i)
      ensures t'.pages[q][j] == t.pages[q][j]
      ensures Canonical(t', lv[q], t'.pages[q][j])
      ensures DecodeSlot(t', lv[q], t'.pages[q][j]) == DecodeSlot(t, lv[q], t.pages[q][j])
    {
      CanonicalLater(t, t', lv[q], t.pages[q][j]);
    }
    SameView(View(t', lv), SetSlot(View(t, lv), p, i, s));
    SetSlotWalkable(View(t, lv), p, i, s);
    SetSlotSingleParent(View(t, lv), p, i, s);
    SetSlotConnected(View(t, lv), p, i, s);
  }

  lemma SameView(a: Tree<LeafInfo>, b: Tree<LeafInfo>)
    requires a.root == b.root && a.level == b.level && a.slots.Keys == b.slots.Keys
    requires forall p | p in a.slots :: |a.slots[p]| == |b.slots[p]|
    requires forall p, i | p in a.slots && 0 <= i < |a.slots[p]| :: a.slots[p][i] == b.slots[p][i]
    ensures a == b
  {
    assert forall p | p in a.slots :: a.slots[p] == b.slots[p];
    assert a.slots == b.slots;
  }

  lemma LinkedSlots(t: Tables, level: nat, c: nat)
    requires Shaped(t) && 1 <= level < 3 && c < t.used
    ensures var d := TableDescriptor(TablePa(t, c));
            Canonical(t, level, d) && DecodeSlot(t, level, d) == Child(c)
    ensures Canonical(t, level + 1, 0) && DecodeSlot(t, level + 1, 0) == Empty
  {
    hide DecodeSlot, Or, Shl;
    DecodeEncode(t, level, Child(c));
    DecodeEncode(t, level + 1, Empty);
  }

  lemma WrittenSlot(t: Tables, t': Tables, level: nat, s: Slot<LeafInfo>)
    requires Shaped(t) && 1 <= level <= 3 && SlotFits(t, level, s)
    requires t'.base == t.base && t'.used == t.used
    ensures var d := EncodeSlot(t, level, s);
            Canonical(t', level, d) && DecodeSlot(t', level, d) == s
  {
    hide DecodeSlot, Or, Shl, LeafDescriptor, TableDescriptor;
    DecodeEncode(t, level, s);
    CanonicalLater(t, t', level, EncodeSlot(t, level, s));
  }

  /** The entries after linking a fresh page: the new table entry, the cleared page, the rest. */
  lemma LinkSlot(t: Tables, lv: seq<nat>, p: nat, i: nat, q: nat, j: nat)
    requires Levelled(t, lv) && AllCanonical(t, lv)
    requires p < t.used < |t.pages| && i < ENTRIES && lv[p] < 3 && q <= t.used && j < ENTRIES
    ensures var t', lv' := Link(t, p, i), lv + [lv[p] + 1];
            && Levelled(t', lv')
            && Canonical(t', lv'[q], t'.pages[q][j])
            && DecodeSlot(t', lv'[q], t'.pages[q][j])
               == if q == t.used then Empty else if q == p && j == i then Child(t.used)
                  else DecodeSlot(t, lv[q], t.pages[q][j])
  {
    hide DecodeSlot, Canonical, Shl, TableDescriptor;
    var t', lv' := Link(t, p, i), lv + [lv[p] + 1];
    LinkedSlots(t', lv[p], t.used);
    if q < t.used && (q, j) != (p, i) {
      assert t'.pages[q][j] == t.pages[q][j];
      CanonicalLater(t, t', lv[q], t.pages[q][j]);
    }
  }

  lemma LinkedSlot(t: Tables, lv: seq<nat>, p: nat, i: nat, q: nat, j: nat)
    requires Levelled(t, lv) && AllCanonical(t, lv) && p < t.used < |t.pages| && i < ENTRIES && lv[p] < 3
    requires Levelled(Link(t, p, i), lv + [lv[p] + 1]) && q <= t.used && j < ENTRIES
    ensures q in AddPage(View(t, lv), p, i, t.used).slots && |AddPage(View(t, lv), p, i, t.used).slots[q]| == ENTRIES
    ensures View(Link(t, p, i), lv + [lv[p] + 1]).slots[q][j] == AddPage(View(t, lv), p, i, t.used).slots[q][j]
  {
    hide DecodeSlot, Canonical, Shl;
    LinkSlot(t, lv, p, i, q, j);
  }

  lemma LinkedCanonical(t: Tables, lv: seq<nat>, p: nat, i: nat)
    requires Levelled(t, lv) && AllCanonical(t, lv) && p < t.used < |t.pages| && i < ENTRIES && lv[p] < 3
    requires Levelled(Link(t, p, i), lv + [lv[p] + 1])
    ensures AllCanonical(Link(t, p, i), lv + [lv[p] + 1])
  {
    var t', lv' := Link(t, p, i), lv + [lv[p] + 1];
    hide DecodeSlot, Canonical, Shl, Link, View;
    forall q, j | 0 <= q < t'.used && 0 <= j < ENTRIES
      ensures Canonical(t', lv'[q], t'.pages[q][j])
    {
      LinkSlot(t, lv, p, i, q, j);
    }
  }

  lemma ViewShape(t: Tables, lv: seq<nat>)
    requires Levelled(t, lv)
    ensures var v := View(t, lv);
            && v.root == 0 && |lv| == t.used
            && (forall q :: q in v.slots <==> 0 <= q < t.used) && (forall q :: q in v.level <==> 0 <= q < t.used)
            && (forall q | q in v.level :: v.level[q] == lv[q])
            && (forall q | q in v.slots :: |v.slots[q]| == ENTRIES)
  {
    hide DecodeSlot, Shl;
  }

  lemma LinkedShape(t: Tables, lv: seq<nat>, p: nat, i: nat)
    requires Levelled(t, lv) && p < t.used < |t.pages| && i < ENTRIES && lv[p] < 3
    requires Levelled(Link(t, p, i), lv + [lv[p] + 1]) && p in View(t, lv).slots && p in View(t, lv).level
    requires |View(t, lv).slots[p]| == ENTRIES
    ensures var v, w := View(Link(t, p, i), lv + [lv[p] + 1]), AddPage(View(t, lv), p, i, t.used);
            && v.root == w.root && v.slots.Keys == w.slots.Keys && v.level == w.level
            && forall q | q in v.slots :: q <= t.used && |v.slots[q]| == ENTRIES
  {
    hide View, Link, DecodeSlot, Shl;
    ViewShape(t, lv);
    ViewShape(Link(t, p, i), lv + [lv[p] + 1]);
    var v, w := View(Link(t, p, i), lv + [lv[p] + 1]), AddPage(View(t, lv), p, i, t.used);
    assert forall q :: q in v.slots <==> q in w.slots;
    assert forall q :: q in v.level <==> q in w.level;
    assert forall q | q in v.level :: v.level[q] == w.level[q];
  }

  lemma LinkedView(t: Tables, lv: seq<nat>, p: nat, i: nat)
    requires Levelled(t, lv) && AllCanonical(t, lv) && p < t.used < |t.pages| && i < ENTRIES && lv[p] < 3
    requires Levelled(Link(t, p, i), lv + [lv[p] + 1])
    ensures View(Link(t, p, i), lv + [lv[p] + 1]) == AddPage(View(t, lv), p, i, t.used)
  {
    hide DecodeSlot, AllCanonical, Shl, Link, View, AddPage;
    ViewShape(t, lv);
    var v, w := View(Link(t, p, i), lv + [lv[p] + 1]), AddPage(View(t, lv), p, i, t.used);
    LinkedShape(t, lv, p, i);
    forall q | q in v.slots
      ensures |w.slots[q]| == ENTRIES && forall j | 0 <= j < ENTRIES :: v.slots[q][j] == w.slots[q][j]
    {
      LinkedSlot(t, lv, p, i, q, 0);
      forall j | 0 <= j < ENTRIES ensures v.slots[q][j] == w.slots[q][j] {
        LinkedSlot(t, lv, p, i, q, j);
      }
    }
    SameView(v, w);
  }

  /** Linking a fresh arena page below an empty entry. */
  lemma ViewLink(t: Tables, lv: seq<nat>, p: nat, i: nat)
    requires Inv(t, lv) && p < t.used < |t.pages| && i < ENTRIES
    requires lv[p] < 3 && View(t, lv).slots[p][i].Empty?
    ensures Inv(Link(t, p, i), lv + [lv[p] + 1])
    ensures View(Link(t, p, i), lv + [lv[p] + 1]) == AddPage(View(t, lv), p, i, t.used)
  {
    hide DecodeSlot, Canonical, SingleParent, Connected, Shl, Link, AllCanonical;
    var v := View(t, lv);
    LinkSlot(t, lv, p, i, 0, 0);
    LinkedCanonical(t, lv, p, i);
    LinkedView(t, lv, p, i);
    AddPageWalkable(v, p, i, t.used);
    AddPageSingleParent(v, p, i, t.used);
    AddPageConnected(v, p, i, t.used);
  }

  // The walker reads the tree.

  function TranslationOf(h: Hit<LeafInfo>, va: nat): Option<Translation>
    requires h.Hit? ==> 1 <= h.level <= 3
  {
    match h
    case Miss => None
    case Hit(l, level) => Some(Translation(l.pa + va % LevelSize(level), l.attr, level))
  }

  lemma OutputSum(level: nat, pa: nat, va: nat)
    requires 1 <= level <= 3 && pa % LevelSize(level) == 0
    ensures Or(pa, And(va, LevelSize(level) - 1)) == pa + va % LevelSize(level)
  {
    hide And, Or;
    match level
    case 1 => OutputSum1(pa / L1_SIZE, va);
    case 2 => OutputSum2(pa / L2_SIZE, va);
    case _ => OutputSum3(pa / PAGE_SIZE, va);
  }

  lemma OutputSum1(q: nat, va: nat)
    ensures Or(L1_SIZE * q, And(va, L1_SIZE - 1)) == L1_SIZE * q + va % L1_SIZE
  {
    hide And, Or, Low, Shl, Shr;
    ShiftOne();
    AndLowMask(va, 30);
    LowMaskValue(30);
    Shift30(va);
    Shift30(q);
    Shift30(va % L1_SIZE);
    OrDisjoint(q, va % L1_SIZE, 30);
  }

  lemma OutputSum2(q: nat, va: nat)
    ensures Or(L2_SIZE * q, And(va, L2_SIZE - 1)) == L2_SIZE * q + va % L2_SIZE
  {
    hide And, Or, Low, Shl, Shr;
    ShiftOne();
    AndLowMask(va, 21);
    LowMaskValue(21);
    Shift21(va);
    Shift21(q);
    Shift21(va % L2_SIZE);
    OrDisjoint(q, va % L2_SIZE, 21);
  }

  lemma OutputSum3(q: nat, va: nat)
    ensures Or(PAGE_SIZE * q, And(va, PAGE_SIZE - 1)) == PAGE_SIZE * q + va % PAGE_SIZE
  {
    hide And, Or, Low, Shl, Shr;
    ShiftOne();
    AndLowMask(va, 12);
    LowMaskValue(12);
    Shift12(va);
    Shift12(q);
    Shift12(va % PAGE_SIZE);
    OrDisjoint(q, va % PAGE_SIZE, 12);
  }

  /** One step of the walker does what the decoded entry says. */
  lemma WalkWord(t: Tables, table: nat, level: nat, va: nat)
    requires Shaped(t) && table < t.used && 1 <= level <= 3
    requires Canonical(t, level, t.pages[table][Index(level, va)])
    ensures WalkFrom(t, table, level, va)
         == match DecodeSlot(t, level, t.pages[table][Index(level, va)])
            case Empty => Ok(None)
            case Child(c) => WalkFrom(t, c, level + 1, va)
            case Leaf(l) => Ok(Some(Translation(l.pa + va % LevelSize(level), l.attr, level)))
  {
    hide And, Or, LeafDescriptor, TableDescriptor, IsTableOrPage, IsValid, AttrField, IsReadOnly, IsExecuteNever,
      OutputMask, Index, Shl, LevelSize;
    var d := t.pages[table][Index(level, va)];
    ZeroInvalid();
    var s := DecodeSlot(t, level, d);
    if s.Leaf? {
      LeafRoundTrip(level, s.leaf.pa, s.leaf.attr);
      OutputSum(level, s.leaf.pa, va);
    }
  }

  lemma WalkStep(t: Tables, lv: seq<nat>, table: nat, level: nat, va: nat)
    requires Inv(t, lv) && table < t.used && lv[table] == level && 1 <= level <= 3
    ensures var s := View(t, lv).slots[table][Index(level, va)];
            && (s.Child? ==> level < 3 && s.page < t.used && lv[s.page] == level + 1)
            && WalkFrom(t, table, level, va) == match s
               case Empty => Ok(None)
               case Child(c) => WalkFrom(t, c, level + 1, va)
               case Leaf(l) => Ok(Some(Translation(l.pa + va % LevelSize(level), l.attr, level)))
  {
    hide DecodeSlot, Canonical, SingleParent, Connected, Index, Shl, WalkFrom, LevelSize;
    assert Canonical(t, level, t.pages[table][Index(level, va)]);
    WalkWord(t, table, level, va);
  }

  lemma {:induction false} WalkFromIsLookup(t: Tables, lv: seq<nat>, table: nat, level: nat, va: nat)
    requires Inv(t, lv) && 1 <= level <= 3 && Reach(View(t, lv), level, va) == At(table)
    ensures table < t.used
    ensures LookupAt(View(t, lv), level, va).Hit? ==> 1 <= LookupAt(View(t, lv), level, va).level <= 3
    ensures WalkFrom(t, table, level, va) == Ok(TranslationOf(LookupAt(View(t, lv), level, va), va))
    decreases 3 - level
  {
    hide Index, WalkFrom, DecodeSlot, Canonical;
    WalkStep(t, lv, table, level, va);
    var s := View(t, lv).slots[table][Index(level, va)];
    if s.Child? {
      assert Reach(View(t, lv), level + 1, va) == At(s.page);
      WalkFromIsLookup(t, lv, s.page, level + 1, va);
    }
  }

  /** On a valid table set the walker never meets corruption and returns what the tree holds. */
  lemma WalkIsLookup(t: Tables, lv: seq<nat>, va: nat)
    requires Inv(t, lv) && va < VA_LIMIT
    ensures Lookup(View(t, lv), va).Hit? ==> 1 <= Lookup(View(t, lv), va).level <= 3
    ensures Walk(t, va) == Ok(TranslationOf(Lookup(View(t, lv), va), va))
  {
    WalkFromIsLookup(t, lv, 0, 1, va);
  }
}
