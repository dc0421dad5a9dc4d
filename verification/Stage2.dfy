/** Stage-2 tables in physical memory, as a tree keyed by page address. */
module Stage2 {
  import opened Bits
  import opened Descriptor
  import opened PageTree
  import opened Stage2Encoding

  /** Table pages by physical address. */
  type Memory = map<nat, seq<nat>>

  /** What an entry of a table at `level` means. Leaves are their own descriptors. */
  function Decode(level: nat, d: nat): Slot<nat> {
    if !IsValid(d) then Empty else if level < 3 && IsTableOrPage(d) then Child(And(d, ADDRESS_MASK)) else Leaf(d)
  }

  /** An entry is zero or valid. */
  predicate WordOk(d: nat) {
    d == 0 || IsValid(d)
  }

  ghost predicate Words(mem: Memory, lv: map<nat, nat>) {
    forall p | p in lv ::
      && p in mem && |mem[p]| == ENTRIES && p % PAGE_SIZE == 0 && p < PA_LIMIT
      && forall i | 0 <= i < ENTRIES :: WordOk(mem[p][i])
  }

  function Slots(level: nat, page: seq<nat>): (s: seq<Slot<nat>>)
    ensures |s| == |page| && forall i | 0 <= i < |page| :: s[i] == Decode(level, page[i])
  {
    seq(|page|, i requires 0 <= i < |page| => Decode(level, page[i]))
  }

  ghost function View(mem: Memory, lv: map<nat, nat>, root: nat): (v: Tree<nat>)
    requires Words(mem, lv)
    ensures v.root == root
  {
    Tree(map p | p in lv :: Slots(lv[p], mem[p]), lv, root)
  }

  ghost predicate Inv(mem: Memory, lv: map<nat, nat>, root: nat)
    ensures Inv(mem, lv, root) ==> Words(mem, lv) && Walkable(View(mem, lv, root))
  {
    Words(mem, lv) && WellFormed(View(mem, lv, root))
  }

  lemma ZeroDecodes(level: nat)
    ensures Decode(level, 0) == Empty && WordOk(0)
  {
    AndZero(VALID);
  }

  /** One empty root. */
  lemma FreshRoot(mem: Memory, root: nat)
    requires root in mem && mem[root] == ZeroPage() && root % PAGE_SIZE == 0 && root < PA_LIMIT
    ensures Inv(mem, map[root := 1], root)
    ensures forall ipa: nat :: Lookup(View(mem, map[root := 1], root), ipa) == Miss
  {
    ZeroDecodes(1);
    var v := View(mem, map[root := 1], root);
    assert forall i | 0 <= i < ENTRIES :: v.slots[root][i] == Empty;
    RootOnly(v);
  }

  /** Point entry `i` of page `p` at the fresh page `c`. */
  function Link(mem: Memory, p: nat, i: nat, c: nat): Memory
    requires p in mem && i < |mem[p]|
  {
    var page: seq<nat> := mem[p][i := TableEntry(c)];
    mem[c := ZeroPage()][p := page]
  }

  function Put(mem: Memory, p: nat, i: nat, d: nat): Memory
    requires p in mem && i < |mem[p]|
  {
    var page: seq<nat> := mem[p][i := d];
    mem[p := page]
  }

  lemma LinkWords(mem: Memory, lv: map<nat, nat>, p: nat, i: nat, c: nat)
    requires Words(mem, lv) && p in lv && i < ENTRIES && c !in lv && lv[p] < 3 && c % PAGE_SIZE == 0 && c < PA_LIMIT
    ensures Words(Link(mem, p, i, c), lv[c := lv[p] + 1])
  {
    hide TableEntry, IsValid, IsTableOrPage;
    TableEntryTests(c);
  }

  lemma LinkView(mem: Memory, lv: map<nat, nat>, root: nat, p: nat, i: nat, c: nat)
    requires Words(mem, lv) && p in lv && i < ENTRIES && c !in lv && lv[p] < 3 && c % PAGE_SIZE == 0 && c < PA_LIMIT
    requires Words(Link(mem, p, i, c), lv[c := lv[p] + 1])
    ensures View(Link(mem, p, i, c), lv[c := lv[p] + 1], root) == AddPage(View(mem, lv, root), p, i, c)
  {
    hide TableEntry, WordOk, Decode, Slots;
    DecodeTable(lv[p], c);
    SlotsZero(lv[p] + 1);
    SlotsUpdate(lv[p], mem[p], i, TableEntry(c));
    var v, w := AddPage(View(mem, lv, root), p, i, c), View(Link(mem, p, i, c), lv[c := lv[p] + 1], root);
    assert w.slots.Keys == v.slots.Keys;
    forall q | q in w.slots
      ensures w.slots[q] == v.slots[q]
    {
      assert q == c ==> w.slots[q] == Slots(lv[p] + 1, ZeroPage());
      assert q == p ==> w.slots[q] == Slots(lv[p], mem[p][i := TableEntry(c)]);
    }
  }

  lemma DecodeTable(level: nat, c: nat)
    requires level < 3 && c % PAGE_SIZE == 0 && c < PA_LIMIT
    ensures Decode(level, TableEntry(c)) == Child(c)
  {
    hide TableEntry, And, IsValid, IsTableOrPage;
    TableEntryTests(c);
  }

  lemma SlotsZero(level: nat)
    ensures Slots(level, ZeroPage()) == EmptyPage()
  {
    hide Decode;
    ZeroDecodes(level);
  }

  lemma SlotsUpdate(level: nat, page: seq<nat>, i: nat, d: nat)
    requires i < |page|
    ensures Slots(level, page[i := d]) == Slots(level, page)[i := Decode(level, d)]
  {
    hide Decode;
  }

  lemma PutLeaf(mem: Memory, lv: map<nat, nat>, root: nat, p: nat, i: nat, d: nat)
    requires Words(mem, lv) && p in lv && i < ENTRIES && lv[p] == 3 && IsValid(d)
    ensures Words(Put(mem, p, i, d), lv)
    ensures View(Put(mem, p, i, d), lv, root) == SetSlot(View(mem, lv, root), p, i, Leaf(d))
  {
    hide IsValid, IsTableOrPage, And, Slots;
    SlotsUpdate(3, mem[p], i, d);
    assert View(Put(mem, p, i, d), lv, root).slots == SetSlot(View(mem, lv, root), p, i, Leaf(d)).slots;
  }

  /** `b` answers every lookup as `a` does. */
  ghost predicate SameLookups(a: Tree<nat>, b: Tree<nat>) {
    Walkable(a) && Walkable(b) && forall ipa: nat :: Lookup(b, ipa) == Lookup(a, ipa)
  }

  /** Linking a table changes no translation and lets the walk of `ipa` go one level further. */
  lemma LinkCorrect(mem: Memory, lv: map<nat, nat>, root: nat, p: nat, level: nat, c: nat, ipa: nat)
    requires Inv(mem, lv, root) && 1 <= level < 3 && Reach(View(mem, lv, root), level, ipa) == At(p)
    requires !IsValid(mem[p][Index(level, ipa)]) && c !in lv && c % PAGE_SIZE == 0 && c < PA_LIMIT
    ensures p in lv && lv[p] == level
    ensures var mem', lv' := Link(mem, p, Index(level, ipa), c), lv[c := level + 1];
            && Inv(mem', lv', root)
            && SameLookups(View(mem, lv, root), View(mem', lv', root))
            && Reach(View(mem', lv', root), level + 1, ipa) == At(c)
  {
    hide Index, Reach, Words, Link, IsValid;
    var i, v := Index(level, ipa), View(mem, lv, root);
    InvPage(mem, lv, root, p);
    LinkWords(mem, lv, p, i, c);
    LinkView(mem, lv, root, p, i, c);
    assert v.slots[p][i] == Empty;
    AddPageWalkable(v, p, i, c);
    AddPageSingleParent(v, p, i, c);
    forall x: nat
      ensures Lookup(AddPage(v, p, i, c), x) == Lookup(v, x)
    {
      AddPageLookup(v, p, i, c, x);
    }
    AddPageLookup(v, p, i, c, ipa);
  }

  lemma InvPage(mem: Memory, lv: map<nat, nat>, root: nat, p: nat)
    requires Inv(mem, lv, root) && p in View(mem, lv, root).slots
    ensures p in lv && p in mem && |mem[p]| == ENTRIES && View(mem, lv, root).slots[p] == Slots(lv[p], mem[p])
    ensures p % PAGE_SIZE == 0 && p < PA_LIMIT && forall i | 0 <= i < ENTRIES :: WordOk(mem[p][i])
  {
  }

  /** Writing a page entry translates exactly the page at `ipa`, and changes nothing else. */
  lemma PutCorrect(mem: Memory, lv: map<nat, nat>, root: nat, p: nat, ipa: nat, d: nat)
    requires Inv(mem, lv, root) && Reach(View(mem, lv, root), 3, ipa) == At(p)
    requires ipa % PAGE_SIZE == 0 && ipa < VA_LIMIT && IsValid(d)
    ensures p in lv && p in mem && |mem[p]| == ENTRIES
    ensures var mem' := Put(mem, p, Index(3, ipa), d);
            && Inv(mem', lv, root)
            && forall x: nat | x < VA_LIMIT ::
                 Lookup(View(mem', lv, root), x)
                 == if ipa <= x < ipa + PAGE_SIZE then Hit(d, 3) else Lookup(View(mem, lv, root), x)
  {
    hide Index, Reach, Words, Put, IsValid, IsTableOrPage;
    var i, v := Index(3, ipa), View(mem, lv, root);
    InvPage(mem, lv, root, p);
    PutLeaf(mem, lv, root, p, i, d);
    assert !v.slots[p][i].Child?;
    SetSlotWalkable(v, p, i, Leaf(d));
    SetSlotSingleParent(v, p, i, Leaf(d));
    forall x: nat | x < VA_LIMIT
      ensures Lookup(SetSlot(v, p, i, Leaf(d)), x) == if ipa <= x < ipa + PAGE_SIZE then Hit(d, 3) else Lookup(v, x)
    {
      SetSlotLookup(v, p, i, Leaf(d), x);
      VisitsBlock(v, 3, ipa, p, x);
    }
  }

  /** A page that is no table may be overwritten. */
  lemma OtherPage(mem: Memory, lv: map<nat, nat>, root: nat, c: nat, page: seq<nat>)
    requires Inv(mem, lv, root) && c !in lv
    ensures Inv(mem[c := page], lv, root) && View(mem[c := page], lv, root) == View(mem, lv, root)
  {
    hide WellFormed, WordOk;
    assert View(mem[c := page], lv, root).slots == View(mem, lv, root).slots;
  }

  /** What the page reached at level 3 holds is what the addresses of the page translate to. */
  lemma EntryIsLookup(mem: Memory, lv: map<nat, nat>, root: nat, p: nat, ipa: nat, x: nat)
    requires Inv(mem, lv, root) && Reach(View(mem, lv, root), 3, ipa) == At(p)
    requires ipa % PAGE_SIZE == 0 && ipa < VA_LIMIT && x < VA_LIMIT && ipa <= x < ipa + PAGE_SIZE
    ensures p in lv && p in mem && |mem[p]| == ENTRIES
    ensures var d := mem[p][Index(3, ipa)];
            Lookup(View(mem, lv, root), x) == if IsValid(d) then Hit(d, 3) else Miss
  {
    hide Index, Reach, Words, IsValid;
    var i, v := Index(3, ipa), View(mem, lv, root);
    InvPage(mem, lv, root, p);
    VisitsBlock(v, 3, ipa, p, x);
    VisitedSlot(v, p, i, x);
  }
}
