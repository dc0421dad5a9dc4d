/** A three-level translation tree, independent of descriptor encodings.

A tree maps page identifiers to 512 slots. A slot is empty, points at a child page one level
down, or is a leaf. Stage 1 identifies pages by arena index, stage 2 by physical address.
*/
module PageTree {
  import opened Bits
  import opened Descriptor

  const ENTRIES: nat := 512
  const VA_LIMIT: nat := 0x80_0000_0000

  datatype Slot<L> = Empty | Child(page: nat) | Leaf(leaf: L)

  datatype Tree<L> = Tree(slots: map<nat, seq<Slot<L>>>, level: map<nat, nat>, root: nat)

  datatype Hit<L> = Miss | Hit(leaf: L, level: nat)

  datatype Place = Nowhere | At(page: nat)

  function Index(level: nat, va: nat): (i: nat)
    requires 1 <= level <= 3
    ensures i < ENTRIES
  {
    if level == 1 then va / L1_SIZE % 512 else if level == 2 then va / L2_SIZE % 512 else va / PAGE_SIZE % 512
  }

  /** The words of a cleared table. */
  function ZeroPage(): (z: seq<nat>)
    ensures |z| == ENTRIES && forall i | 0 <= i < ENTRIES :: z[i] == 0
  {
    seq(ENTRIES, i => 0)
  }

  /** Every child exists one level below its parent. */
  ghost predicate Walkable<L>(t: Tree<L>) {
    && t.root in t.slots && t.level.Keys == t.slots.Keys && t.level[t.root] == 1
    && (forall p | p in t.slots :: |t.slots[p]| == ENTRIES && 1 <= t.level[p] <= 3)
    && (forall p, i | p in t.slots && 0 <= i < ENTRIES && t.slots[p][i].Child? ::
          && t.level[p] < 3 && t.slots[p][i].page in t.slots
          && t.level[t.slots[p][i].page] == t.level[p] + 1)
  }

  /** No page hangs off two entries. */
  ghost predicate SingleParent<L>(t: Tree<L>)
    requires Walkable(t)
  {
    forall p, i, q, j | p in t.slots && q in t.slots && 0 <= i < ENTRIES && 0 <= j < ENTRIES
      && t.slots[p][i].Child? && t.slots[q][j] == t.slots[p][i] :: p == q && i == j
  }

  ghost predicate WellFormed<L>(t: Tree<L>) {
    Walkable(t) && SingleParent(t)
  }

  ghost predicate HasParent<L>(t: Tree<L>, c: nat)
    requires Walkable(t)
  {
    exists p, i :: p in t.slots && 0 <= i < ENTRIES && t.slots[p][i] == Child(c)
  }

  /** Every page except the root hangs off some entry. */
  ghost predicate Connected<L>(t: Tree<L>)
    requires Walkable(t)
  {
    forall c | c in t.slots && c != t.root :: HasParent(t, c)
  }

  ghost function SlotOf<L>(t: Tree<L>, p: nat, level: nat, va: nat): Slot<L>
    requires Walkable(t) && p in t.slots && 1 <= level <= 3
  {
    t.slots[p][Index(level, va)]
  }

  /** The page that a walk of `va` consults at `level`. */
  ghost function Reach<L>(t: Tree<L>, level: nat, va: nat): (r: Place)
    requires Walkable(t) && 1 <= level <= 3
    ensures r.At? ==> r.page in t.slots && t.level[r.page] == level
    decreases level
  {
    if level == 1 then At(t.root)
    else
      var up := Reach(t, level - 1, va);
      if up.Nowhere? then Nowhere
      else
        var s := SlotOf(t, up.page, level - 1, va);
        if s.Child? then At(s.page) else Nowhere
  }

  ghost function LookupAt<L>(t: Tree<L>, level: nat, va: nat): Hit<L>
    requires Walkable(t) && 1 <= level <= 3
    decreases 3 - level
  {
    var r := Reach(t, level, va);
    if r.Nowhere? then Miss
    else
      match SlotOf(t, r.page, level, va)
      case Empty => Miss
      case Leaf(l) => Hit(l, level)
      case Child(_) => if level < 3 then LookupAt(t, level + 1, va) else Miss
  }

  /** The leaf that translates `va`. */
  ghost function Lookup<L>(t: Tree<L>, va: nat): Hit<L>
    requires Walkable(t)
  {
    LookupAt(t, 1, va)
  }

  function SlotHit<L>(s: Slot<L>, level: nat): Hit<L> {
    if s.Leaf? then Hit(s.leaf, level) else Miss
  }

  lemma ReachRoot<L>(t: Tree<L>, va: nat)
    requires Walkable(t)
    ensures Reach(t, 1, va) == At(t.root)
  {
  }

  /** A tree of one empty page translates nothing. */
  lemma RootOnly<L>(t: Tree<L>)
    requires t.slots.Keys == t.level.Keys == {t.root} && t.level[t.root] == 1 && |t.slots[t.root]| == ENTRIES
    requires forall i | 0 <= i < ENTRIES :: t.slots[t.root][i] == Empty
    ensures WellFormed(t) && Connected(t)
    ensures forall va: nat :: Lookup(t, va) == Miss
  {
  }

  /** Two addresses whose walks meet at a page agree on every earlier index. */
  lemma {:induction false} MeetAgrees<L>(t: Tree<L>, level: nat, va: nat, va': nat, l: nat)
    requires WellFormed(t) && 1 <= l < level <= 3
    requires Reach(t, level, va).At? && Reach(t, level, va') == Reach(t, level, va)
    ensures Index(l, va) == Index(l, va')
    decreases level
  {
    var p, p' := Reach(t, level - 1, va).page, Reach(t, level - 1, va').page;
    var i, i' := Index(level - 1, va), Index(level - 1, va');
    assert t.slots[p][i] == t.slots[p'][i'];
    if l < level - 1 {
      MeetAgrees(t, level - 1, va, va', l);
    }
  }

  /** Addresses that agree on the indices above a level reach the same page there. */
  lemma {:induction false} AgreeMeets<L>(t: Tree<L>, level: nat, va: nat, va': nat)
    requires Walkable(t) && 1 <= level <= 3
    requires forall l | 1 <= l < level :: Index(l, va) == Index(l, va')
    ensures Reach(t, level, va) == Reach(t, level, va')
    decreases level
  {
    if level > 1 {
      AgreeMeets(t, level - 1, va, va');
      assert Index(level - 1, va) == Index(level - 1, va');
    }
  }

  /** If the walk gets to `level`, the lookup is decided from `level` on. */
  lemma {:induction false} LookupFrom<L>(t: Tree<L>, level: nat, va: nat)
    requires Walkable(t) && 1 <= level <= 3 && Reach(t, level, va).At?
    ensures Lookup(t, va) == LookupAt(t, level, va)
    decreases level
  {
    if level > 1 {
      LookupFrom(t, level - 1, va);
    }
  }

  /** A hit was found in a leaf slot of the page reached at its level. */
  lemma {:induction false} HitSlot<L>(t: Tree<L>, level: nat, va: nat)
    requires Walkable(t) && 1 <= level <= 3 && LookupAt(t, level, va).Hit?
    ensures var h := LookupAt(t, level, va);
            && level <= h.level <= 3 && Reach(t, h.level, va).At?
            && SlotOf(t, Reach(t, h.level, va).page, h.level, va) == Leaf(h.leaf)
    decreases 3 - level
  {
    hide Index, Reach;
    if SlotOf(t, Reach(t, level, va).page, level, va).Child? {
      HitSlot(t, level + 1, va);
    }
  }

  // Changing a slot that is not and does not become a child.

  function SetSlot<L>(t: Tree<L>, p: nat, i: nat, s: Slot<L>): Tree<L>
    requires p in t.slots && i < |t.slots[p]|
  {
    t.(slots := t.slots[p := t.slots[p][i := s]])
  }

  ghost predicate Visits<L>(t: Tree<L>, p: nat, i: nat, va: nat)
    requires Walkable(t) && p in t.slots
  {
    Reach(t, t.level[p], va) == At(p) && Index(t.level[p], va) == i
  }

  lemma SetSlotWalkable<L>(t: Tree<L>, p: nat, i: nat, s: Slot<L>)
    requires Walkable(t) && p in t.slots && i < ENTRIES
    requires !t.slots[p][i].Child? && !s.Child?
    ensures Walkable(SetSlot(t, p, i, s))
  {
  }

  lemma SetSlotSingleParent<L>(t: Tree<L>, p: nat, i: nat, s: Slot<L>)
    requires Walkable(t) && p in t.slots && i < ENTRIES
    requires !t.slots[p][i].Child? && !s.Child? && Walkable(SetSlot(t, p, i, s)) && SingleParent(t)
    ensures SingleParent(SetSlot(t, p, i, s))
  {
    var t' := SetSlot(t, p, i, s);
    assert forall q, j | q in t'.slots && 0 <= j < ENTRIES && t'.slots[q][j].Child? ::
      t.slots[q][j] == t'.slots[q][j];
  }

  lemma SetSlotConnected<L>(t: Tree<L>, p: nat, i: nat, s: Slot<L>)
    requires Walkable(t) && p in t.slots && i < ENTRIES
    requires !t.slots[p][i].Child? && !s.Child? && Walkable(SetSlot(t, p, i, s)) && Connected(t)
    ensures Connected(SetSlot(t, p, i, s))
  {
    var t' := SetSlot(t, p, i, s);
    forall c | c in t'.slots && c != t'.root
      ensures HasParent(t', c)
    {
      assert HasParent(t, c);
      var q, j :| q in t.slots && 0 <= j < ENTRIES && t.slots[q][j] == Child(c);
      assert t'.slots[q][j] == Child(c);
    }
  }

  lemma {:induction false} SetSlotReach<L>(t: Tree<L>, p: nat, i: nat, s: Slot<L>, t': Tree<L>, level: nat, va: nat)
    requires Walkable(t) && p in t.slots && i < ENTRIES && 1 <= level <= 3
    requires !t.slots[p][i].Child? && !s.Child? && t' == SetSlot(t, p, i, s) && Walkable(t')
    ensures Reach(t', level, va) == Reach(t, level, va)
    decreases level
  {
    hide Index;
    if level > 1 {
      SetSlotReach(t, p, i, s, t', level - 1, va);
    }
  }

  /** Writing a slot changes the lookup of exactly the addresses whose walk visits it. */
  lemma {:induction false} SetSlotLookupAt<L>(t: Tree<L>, p: nat, i: nat, s: Slot<L>, t': Tree<L>, level: nat, va: nat)
    requires Walkable(t) && p in t.slots && i < ENTRIES && 1 <= level <= 3
    requires !t.slots[p][i].Child? && !s.Child? && t' == SetSlot(t, p, i, s) && Walkable(t')
    ensures LookupAt(t', level, va)
         == if level <= t.level[p] && Visits(t, p, i, va) then SlotHit(s, t.level[p]) else LookupAt(t, level, va)
    decreases 3 - level
  {
    hide Index, Reach;
    SetSlotReach(t, p, i, s, t', level, va);
    var r := Reach(t, level, va);
    if level < t.level[p] && Visits(t, p, i, va) {
      ReachBelow(t, level, t.level[p], va);
      SetSlotLookupAt(t, p, i, s, t', level + 1, va);
    } else if r.At? && SlotOf(t, r.page, level, va).Child? {
      SetSlotLookupAt(t, p, i, s, t', level + 1, va);
    }
  }

  /** A walk that gets to a deeper level passes through a child on the way. */
  lemma {:induction false} ReachBelow<L>(t: Tree<L>, level: nat, deep: nat, va: nat)
    requires Walkable(t) && 1 <= level < deep <= 3 && Reach(t, deep, va).At?
    ensures Reach(t, level, va).At? && SlotOf(t, Reach(t, level, va).page, level, va).Child?
    decreases deep
  {
    if level < deep - 1 {
      ReachBelow(t, level, deep - 1, va);
    }
  }

  lemma ReachStops<L>(t: Tree<L>, level: nat, va: nat)
    requires Walkable(t) && 1 <= level < 3
    ensures Reach(t, level, va).At? && !SlotOf(t, Reach(t, level, va).page, level, va).Child?
        ==> Reach(t, level + 1, va).Nowhere?
  {
  }

  lemma SetSlotLookup<L>(t: Tree<L>, p: nat, i: nat, s: Slot<L>, va: nat)
    requires Walkable(t) && p in t.slots && i < ENTRIES
    requires !t.slots[p][i].Child? && !s.Child?
    ensures Walkable(SetSlot(t, p, i, s))
    ensures Lookup(SetSlot(t, p, i, s), va)
         == if Visits(t, p, i, va) then SlotHit(s, t.level[p]) else Lookup(t, va)
  {
    SetSlotWalkable(t, p, i, s);
    SetSlotLookupAt(t, p, i, s, SetSlot(t, p, i, s), 1, va);
  }

  /** What an address finds in a non-child slot that its walk visits. */
  lemma VisitedSlot<L>(t: Tree<L>, p: nat, i: nat, va: nat)
    requires Walkable(t) && p in t.slots && i < ENTRIES && Visits(t, p, i, va)
    requires !t.slots[p][i].Child?
    ensures Lookup(t, va) == SlotHit(t.slots[p][i], t.level[p])
  {
    LookupFrom(t, t.level[p], va);
  }

  // Hanging a fresh, empty page below an empty slot.

  function EmptyPage<L>(): (s: seq<Slot<L>>)
    ensures |s| == ENTRIES && forall i | 0 <= i < ENTRIES :: s[i] == Empty
  {
    seq(ENTRIES, i => Empty)
  }

  function AddPage<L>(t: Tree<L>, p: nat, i: nat, c: nat): Tree<L>
    requires p in t.slots && p in t.level && i < |t.slots[p]|
  {
    Tree(t.slots[p := t.slots[p][i := Child(c)]][c := EmptyPage()], t.level[c := t.level[p] + 1], t.root)
  }

  ghost predicate CanAdd<L>(t: Tree<L>, p: nat, i: nat, c: nat) {
    Walkable(t) && p in t.slots && i < ENTRIES && t.slots[p][i].Empty? && t.level[p] < 3 && c !in t.slots
  }

  lemma AddPageWalkable<L>(t: Tree<L>, p: nat, i: nat, c: nat)
    requires CanAdd(t, p, i, c)
    ensures Walkable(AddPage(t, p, i, c))
  {
  }

  /** The children of the extended tree are the old ones and the new page. */
  lemma AddPageChildren<L>(t: Tree<L>, p: nat, i: nat, c: nat, q: nat, j: nat)
    requires CanAdd(t, p, i, c) && q in AddPage(t, p, i, c).slots && j < ENTRIES
    ensures var t' := AddPage(t, p, i, c);
            if q == p && j == i then t'.slots[q][j] == Child(c)
            else if q in t.slots then
              && t'.slots[q][j] == t.slots[q][j]
              && (t.slots[q][j].Child? ==> t.slots[q][j].page != c)
            else t'.slots[q][j] == Empty
  {
  }

  lemma AddPageSingleParent<L>(t: Tree<L>, p: nat, i: nat, c: nat)
    requires CanAdd(t, p, i, c) && SingleParent(t) && Walkable(AddPage(t, p, i, c))
    ensures SingleParent(AddPage(t, p, i, c))
  {
    var t' := AddPage(t, p, i, c);
    forall q, j, q', j' | q in t'.slots && q' in t'.slots && 0 <= j < ENTRIES && 0 <= j' < ENTRIES
      && t'.slots[q][j].Child? && t'.slots[q'][j'] == t'.slots[q][j]
      ensures q == q' && j == j'
    {
      hide AddPage, Walkable;
      AddPageChildren(t, p, i, c, q, j);
      AddPageChildren(t, p, i, c, q', j');
    }
  }

  lemma AddPageConnected<L>(t: Tree<L>, p: nat, i: nat, c: nat)
    requires CanAdd(t, p, i, c) && Connected(t) && Walkable(AddPage(t, p, i, c))
    ensures Connected(AddPage(t, p, i, c))
  {
    var t' := AddPage(t, p, i, c);
    forall d | d in t'.slots && d != t'.root
      ensures HasParent(t', d)
    {
      if d == c {
        assert t'.slots[p][i] == Child(c);
      } else {
        assert HasParent(t, d);
        var q, j :| q in t.slots && 0 <= j < ENTRIES && t.slots[q][j] == Child(d);
        assert t'.slots[q][j] == Child(d);
      }
    }
  }

  lemma {:induction false} AddPageReach<L>(t: Tree<L>, p: nat, i: nat, c: nat, t': Tree<L>, level: nat, va: nat)
    requires CanAdd(t, p, i, c) && t' == AddPage(t, p, i, c) && Walkable(t') && 1 <= level <= 3
    ensures Reach(t', level, va)
         == if level == t.level[p] + 1 && Visits(t, p, i, va) then At(c) else Reach(t, level, va)
    decreases level
  {
    hide Index;
    if level > 1 {
      AddPageReach(t, p, i, c, t', level - 1, va);
    }
  }

  lemma {:induction false} AddPageLookupAt<L>(t: Tree<L>, p: nat, i: nat, c: nat, t': Tree<L>, level: nat, va: nat)
    requires CanAdd(t, p, i, c) && t' == AddPage(t, p, i, c) && Walkable(t') && 1 <= level <= 3
    ensures LookupAt(t', level, va) == LookupAt(t, level, va)
    decreases 3 - level
  {
    hide Index, Reach;
    AddPageReach(t, p, i, c, t', level, va);
    if level < 3 {
      AddPageReach(t, p, i, c, t', level + 1, va);
      AddPageLookupAt(t, p, i, c, t', level + 1, va);
      ReachStops(t, level, va);
    }
    if level > 1 {
      ReachStops(t, level - 1, va);
    }
  }

  /** A fresh table leaves every lookup as it was and is reached through its new entry. */
  lemma AddPageLookup<L>(t: Tree<L>, p: nat, i: nat, c: nat, va: nat)
    requires CanAdd(t, p, i, c)
    ensures Walkable(AddPage(t, p, i, c))
    ensures Lookup(AddPage(t, p, i, c), va) == Lookup(t, va)
    ensures Visits(t, p, i, va) ==> Reach(AddPage(t, p, i, c), t.level[p] + 1, va) == At(c)
  {
    AddPageWalkable(t, p, i, c);
    AddPageLookupAt(t, p, i, c, AddPage(t, p, i, c), 1, va);
    AddPageReach(t, p, i, c, AddPage(t, p, i, c), t.level[p] + 1, va);
  }

  // The addresses that share a leaf.

  lemma IndexSplit(va: nat)
    ensures va / L2_SIZE == 512 * (va / L1_SIZE) + Index(2, va)
    ensures va / PAGE_SIZE == 512 * (va / L2_SIZE) + Index(3, va)
    ensures va < VA_LIMIT ==> Index(1, va) == va / L1_SIZE
  {
    ModUnique(va / L2_SIZE, 512, va / L1_SIZE, va / L2_SIZE - 512 * (va / L1_SIZE));
    ModUnique(va / PAGE_SIZE, 512, va / L2_SIZE, va / PAGE_SIZE - 512 * (va / L2_SIZE));
  }

  /** Two addresses agree on the indices down to a level exactly when they lie in one leaf of it. */
  lemma SameBlock(level: nat, va: nat, va': nat)
    requires 1 <= level <= 3 && va < VA_LIMIT && va' < VA_LIMIT
    ensures (forall l | 1 <= l <= level :: Index(l, va) == Index(l, va'))
       <==> va / LevelSize(level) == va' / LevelSize(level)
  {
    hide Index;
    IndexSplit(va);
    IndexSplit(va');
    match level
    case 1 =>
    case 2 => DivDiv(va, va');
    case _ => DivDiv(va, va');
  }

  lemma DivDiv(va: nat, va': nat)
    ensures va / PAGE_SIZE == va' / PAGE_SIZE ==> va / L2_SIZE == va' / L2_SIZE
    ensures va / L2_SIZE == va' / L2_SIZE ==> va / L1_SIZE == va' / L1_SIZE
  {
    IndexSplit(va);
    IndexSplit(va');
  }

  /** The walks that visit the entry for `va` at a level are those of the leaf-sized block at `va`. */
  lemma VisitsBlock<L>(t: Tree<L>, level: nat, va: nat, p: nat, va': nat)
    requires WellFormed(t) && 1 <= level <= 3 && Reach(t, level, va) == At(p)
    requires va % LevelSize(level) == 0 && va < VA_LIMIT && va' < VA_LIMIT
    ensures Visits(t, p, Index(level, va), va') <==> va <= va' < va + LevelSize(level)
  {
    hide Index, Reach, Walkable, SingleParent;
    SameBlock(level, va, va');
    if Visits(t, p, Index(level, va), va') {
      forall l | 1 <= l < level
        ensures Index(l, va) == Index(l, va')
      {
        MeetAgrees(t, level, va, va', l);
      }
      assert forall l | 1 <= l <= level :: Index(l, va) == Index(l, va');
    }
    if va / LevelSize(level) == va' / LevelSize(level) {
      AgreeMeets(t, level, va, va');
    }
    InBlock(level, va, va');
  }

  lemma InBlock(level: nat, va: nat, va': nat)
    requires 1 <= level <= 3 && va % LevelSize(level) == 0
    ensures va / LevelSize(level) == va' / LevelSize(level) <==> va <= va' < va + LevelSize(level)
  {
  }
}
