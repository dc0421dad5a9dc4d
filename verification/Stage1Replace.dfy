/** Runtime replacement of one data page, and the boot gate around it. */
module Stage1Replace {
  import opened Wrappers
  import opened Bits
  import opened Descriptor
  import opened PageTree
  import opened Stage1
  import opened Stage1Refinement
  import opened Stage1Map
  import opened Stage1Theorems
  import opened Stage1Blocks

  lemma {:induction false} FindTableCorrect(t: Tables, lv: seq<nat>, table: nat, level: nat, va: nat)
    requires Inv(t, lv) && 1 <= level <= 3 && Reach(View(t, lv), level, va) == At(table)
    ensures table < t.used
    ensures FindTable(t, table, level, va)
         == if Reach(View(t, lv), 3, va).At? then Ok(Reach(View(t, lv), 3, va).page) else Err(ConflictingEntry)
    decreases 3 - level
  {
    hide Inv, Index, Canonical, DecodeSlot, Shl, And, Or, Walkable, Reach;
    var v := View(t, lv);
    if level < 3 {
      var i := Index(level, va);
      EntryTests(t, lv, table, i);
      if v.slots[table][i].Child? {
        ReachNext(v, level, va);
        FindTableCorrect(t, lv, v.slots[table][i].page, level + 1, va);
      } else {
        ReachStops(v, level, va);
        if Reach(v, 3, va).At? {
          ReachBelow(v, level, 3, va);
        }
      }
    }
  }

  lemma ReachNext(v: Tree<LeafInfo>, level: nat, va: nat)
    requires Walkable(v) && 1 <= level < 3 && Reach(v, level, va).At?
    requires SlotOf(v, Reach(v, level, va).page, level, va).Child?
    ensures Reach(v, level + 1, va) == At(SlotOf(v, Reach(v, level, va).page, level, va).page)
  {
  }

  /** The page at `va` is a 4 KiB Normal, writable, non-executable page at `pa`. */
  predicate IsDataPage(t: Tables, va: nat, pa: nat)
    requires Shaped(t)
  {
    Walk(t, va) == Ok(Some(Translation(pa, Attributes(Normal, true, false), 3)))
  }

  predicate ReplaceAllowed(t: Tables, va: nat, oldPa: nat, newPa: nat)
    requires Shaped(t)
  {
    && ValidateMapping(t, Mapping(va, newPa, PAGE_SIZE, DATA)).Ok?
    && ValidateMapping(t, Mapping(va, oldPa, PAGE_SIZE, DATA)).Ok?
    && oldPa != newPa && IsDataPage(t, va, oldPa)
  }

  lemma DataSlot(t: Tables, lv: seq<nat>, va: nat, pa: nat)
    requires Inv(t, lv) && va < VA_LIMIT && va % PAGE_SIZE == 0
    ensures IsDataPage(t, va, pa)
       <==> && Reach(View(t, lv), 3, va).At?
            && SlotOf(View(t, lv), Reach(View(t, lv), 3, va).page, 3, va) == Leaf(LeafInfo(pa, DATA))
  {
    hide Inv, Walk, Index, Reach, View;
    var v := View(t, lv);
    WalkIsLookup(t, lv, va);
    if Lookup(v, va).Hit? {
      HitSlot(v, 1, va);
    }
    if Reach(v, 3, va).At? {
      LookupFrom(v, 3, va);
    }
  }

  /** The checks pass exactly on an allowed request, and then name the entry to be replaced. */
  lemma LocateCorrect(t: Tables, lv: seq<nat>, va: nat, oldPa: nat, newPa: nat)
    requires Inv(t, lv)
    ensures LocateDataPage(t, va, oldPa, newPa).Ok? <==> ReplaceAllowed(t, va, oldPa, newPa)
    ensures LocateDataPage(t, va, oldPa, newPa).Ok? ==>
              && Reach(View(t, lv), 3, va) == At(LocateDataPage(t, va, oldPa, newPa).value)
              && SlotOf(View(t, lv), LocateDataPage(t, va, oldPa, newPa).value, 3, va) == Leaf(LeafInfo(oldPa, DATA))
  {
    hide Inv, Walk, Index, Reach, ValidateMapping, IsDataPage, FindTable, Shl, LeafDescriptor, Canonical, DecodeSlot;
    ValidatedMapping(t, Mapping(va, oldPa, PAGE_SIZE, DATA));
    ValidatedMapping(t, Mapping(va, newPa, PAGE_SIZE, DATA));
    if ValidateMapping(t, Mapping(va, oldPa, PAGE_SIZE, DATA)).Ok? {
      PaLimit(t);
      var v := View(t, lv);
      ReachRoot(v, va);
      FindTableCorrect(t, lv, 0, 1, va);
      DataSlot(t, lv, va, oldPa);
      if Reach(v, 3, va).At? {
        var table, i := Reach(v, 3, va).page, Index(3, va);
        EntryTests(t, lv, table, i);
        DecodeEncode(t, 3, v.slots[table][i]);
        DecodeEncode(t, 3, Leaf(LeafInfo(oldPa, DATA)));
      }
    }
  }

  predicate InPage(va: nat, x: nat) {
    va <= x < va + PAGE_SIZE
  }

  /** Overwriting a level-3 leaf by nothing or by another leaf. */
  lemma OverwriteLeaf(t: Tables, lv: seq<nat>, table: nat, va: nat, s: Slot<LeafInfo>)
    requires Inv(t, lv) && va % PAGE_SIZE == 0 && va < VA_LIMIT && Reach(View(t, lv), 3, va) == At(table)
    requires !s.Child? && SlotFits(t, 3, s)
    ensures var t' := Write(t, table, Index(3, va), EncodeSlot(t, 3, s));
            && Inv(t', lv) && Reach(View(t', lv), 3, va) == At(table)
            && forall x: nat | x < VA_LIMIT ::
                 Walk(t', x) == if InPage(va, x) then Ok(TranslationOf(SlotHit(s, 3), x)) else Walk(t, x)
  {
    hide Inv, Walk, Index, Reach, Canonical, DecodeSlot, EncodeSlot, Lookup, Write, Shl;
    var v, i := View(t, lv), Index(3, va);
    assert lv[table] == 3;
    ChildBelowThree(v, table, i);
    ViewWrite(t, lv, table, i, s);
    var t' := Write(t, table, i, EncodeSlot(t, 3, s));
    SetSlotReach(v, table, i, s, View(t', lv), 3, va);
    forall x: nat | x < VA_LIMIT
      ensures Walk(t', x) == if InPage(va, x) then Ok(TranslationOf(SlotHit(s, 3), x)) else Walk(t, x)
    {
      InvWellFormed(t, lv);
      SetSlotLookup(v, table, i, s, x);
      VisitsBlock(v, 3, va, table, x);
      WalkIsLookup(t, lv, x);
      WalkIsLookup(t', lv, x);
    }
  }

  lemma InvWellFormed(t: Tables, lv: seq<nat>)
    requires Inv(t, lv)
    ensures WellFormed(View(t, lv))
  {
  }

  lemma ChildBelowThree(v: Tree<LeafInfo>, p: nat, i: nat)
    requires Walkable(v) && p in v.slots && i < ENTRIES && v.level[p] == 3
    ensures |v.slots[p]| == ENTRIES && !v.slots[p][i].Child?
  {
  }

  /** `replace_data_page`: a request that is not allowed changes nothing. An allowed one leaves
      every other address alone and its own page unmapped when the first synchronization fails,
      or translated to the new backing; no table is allocated. */
  lemma ReplaceTheorem(
    t: Tables, va: nat, oldPa: nat, newPa: nat,
    first: Result<(), TranslationError>, second: Result<(), TranslationError>)
    requires Valid(t) && Shaped(t)
    ensures var (t', r) := ReplaceDataPage(t, va, oldPa, newPa, first, second);
            && Valid(t') && t'.used == t.used
            && (!ReplaceAllowed(t, va, oldPa, newPa) ==> t' == t && r.Err?)
            && (ReplaceAllowed(t, va, oldPa, newPa) ==>
                  && r == (if first.Err? then first else second)
                  && forall x: nat | x < VA_LIMIT ::
                       if !InPage(va, x) then Walk(t', x) == Walk(t, x)
                       else if first.Err? then Unmapped(t', x)
                       else Walk(t', x) == Ok(Some(Translation(newPa + (x - va), Attributes(Normal, true, false), 3))))
  {
    hide Walk, Inv, LocateDataPage, Index, Shl, Reach, ValidateMapping, View, LeafDescriptor, ReplaceAllowed;
    var lv :| Inv(t, lv);
    LocateCorrect(t, lv, va, oldPa, newPa);
    var located := LocateDataPage(t, va, oldPa, newPa);
    if located.Ok? {
      ReplaceAllowedBounds(t, va, oldPa, newPa);
      BreakThenMake(t, lv, located.value, va, newPa);
    }
  }

  lemma ReplaceAllowedBounds(t: Tables, va: nat, oldPa: nat, newPa: nat)
    requires Shaped(t) && ReplaceAllowed(t, va, oldPa, newPa)
    ensures va % PAGE_SIZE == 0 && va < VA_LIMIT && newPa % PAGE_SIZE == 0 && newPa < PA_LIMIT
  {
    hide ValidateMapping, Walk, Shl;
    ValidatedMapping(t, Mapping(va, newPa, PAGE_SIZE, DATA));
    PaLimit(t);
  }

  lemma BreakThenMake(t: Tables, lv: seq<nat>, table: nat, va: nat, newPa: nat)
    requires Inv(t, lv) && va % PAGE_SIZE == 0 && va < VA_LIMIT && newPa % PAGE_SIZE == 0 && newPa < PA_LIMIT
    requires Reach(View(t, lv), 3, va) == At(table)
    ensures var broken := Write(t, table, Index(3, va), 0);
            var made := Write(broken, table, Index(3, va), LeafDescriptor(3, newPa, DATA));
            && Valid(broken) && Valid(made) && broken.used == made.used == t.used
            && (forall x: nat | x < VA_LIMIT ::
                  if InPage(va, x) then Unmapped(broken, x) else Walk(broken, x) == Walk(t, x))
            && (forall x: nat | x < VA_LIMIT ::
                  if InPage(va, x) then Walk(made, x) == Ok(Some(Translation(newPa + (x - va), DATA, 3)))
                  else Walk(made, x) == Walk(t, x))
  {
    hide Walk, Inv, EncodeSlot, Index, Shl, Reach, LeafDescriptor;
    EncodeCases(t, newPa);
    OverwriteLeaf(t, lv, table, va, Empty);
    var broken := Write(t, table, Index(3, va), 0);
    EncodeCases(broken, newPa);
    OverwriteLeaf(broken, lv, table, va, Leaf(LeafInfo(newPa, DATA)));
    var made := Write(broken, table, Index(3, va), LeafDescriptor(3, newPa, DATA));
    assert Inv(broken, lv) && Inv(made, lv);
    forall x: nat | x < VA_LIMIT && InPage(va, x)
      ensures Walk(made, x) == Ok(Some(Translation(newPa + (x - va), DATA, 3)))
    {
      BlockOffset(3, va, x);
    }
  }

  lemma EncodeCases(t: Tables, pa: nat)
    ensures EncodeSlot(t, 3, Empty) == 0
    ensures EncodeSlot(t, 3, Leaf(LeafInfo(pa, DATA))) == LeafDescriptor(3, pa, DATA)
  {
  }

  /** What `map` has put in place can be replaced: after a data page was mapped, the replacement by any
      other valid backing is allowed, and with both synchronizations done the page translates to it. */
  lemma MapThenReplace(t: Tables, va: nat, oldPa: nat, newPa: nat)
    requires Valid(t) && Shaped(t) && oldPa != newPa
    requires Map(t, Mapping(va, oldPa, PAGE_SIZE, Attributes(Normal, true, false))).1.Ok?
    requires ValidateMapping(t, Mapping(va, newPa, PAGE_SIZE, Attributes(Normal, true, false))).Ok?
    ensures var mapped := Map(t, Mapping(va, oldPa, PAGE_SIZE, Attributes(Normal, true, false))).0;
            var (t', r) := ReplaceDataPage(mapped, va, oldPa, newPa, Ok(()), Ok(()));
            && ReplaceAllowed(mapped, va, oldPa, newPa) && r == Ok(())
            && Walk(t', va) == Ok(Some(Translation(newPa, Attributes(Normal, true, false), 3)))
  {
    hide Walk, Valid, Shl, MapFrom, ReplaceDataPage, ValidateMapping;
    var m := Mapping(va, oldPa, PAGE_SIZE, Attributes(Normal, true, false));
    var mapped := Map(t, m).0;
    MapTheorem(t, m);
    LargestLeaves(t, m);
    ValidatedMapping(t, m);
    ValidatedMapping(t, m.(pa := newPa));
    ValidatedMapping(mapped, m);
    ValidatedMapping(mapped, m.(pa := newPa));
    assert InRange(m, va) && BestLevel(m, va) == 3;
    assert Translates(mapped, va, oldPa, m.attr) && LevelIs(mapped, va, 3);
    ReplaceTheorem(mapped, va, oldPa, newPa, Ok(()), Ok(()));
    assert InPage(va, va);
  }

  // The boot gate.

  const SCRATCH_VA: nat := 0x1_0000_0000

  /** `BootTables`: editable until frozen, afterwards only the scratch leaf may change. */
  datatype Boot = Boot(tables: Tables, frozen: bool)

  datatype BootOp =
    | Edit(m: Mapping)
    | ValidateAndFreeze(accepted: bool)
    | ReplaceScratch(oldPa: nat, newPa: nat, first: Result<(), TranslationError>, second: Result<(), TranslationError>)

  function BootStep(b: Boot, op: BootOp): (b': Boot)
    requires Shaped(b.tables)
    ensures Shaped(b'.tables)
  {
    match op
    case Edit(m) => if b.frozen then b else b.(tables := Map(b.tables, m).0)
    case ValidateAndFreeze(accepted) => if b.frozen then b else b.(frozen := accepted)
    case ReplaceScratch(o, n, first, second) =>
      if !b.frozen then b else b.(tables := ReplaceDataPage(b.tables, SCRATCH_VA, o, n, first, second).0)
  }

  function BootRun(b: Boot, ops: seq<BootOp>): (b': Boot)
    requires Shaped(b.tables)
    ensures Shaped(b'.tables)
    decreases |ops|
  {
    if ops == [] then b else BootRun(BootStep(b, ops[0]), ops[1..])
  }

  /** Once frozen, always frozen: for the rest of any run no table page is taken, every address
      outside the scratch page keeps its translation, and a scratch page left broken stays broken. */
  lemma {:induction false} FreezeTheorem(b: Boot, ops: seq<BootOp>)
    requires Shaped(b.tables) && Valid(b.tables) && b.frozen
    ensures var b' := BootRun(b, ops);
            && b'.frozen && Valid(b'.tables) && b'.tables.used == b.tables.used
            && (Unmapped(b.tables, SCRATCH_VA) ==> b'.tables == b.tables)
            && forall x: nat | x < VA_LIMIT && !InPage(SCRATCH_VA, x) :: Walk(b'.tables, x) == Walk(b.tables, x)
    decreases |ops|
  {
    hide Walk, Valid, Map, ReplaceDataPage;
    if ops != [] {
      if ops[0].ReplaceScratch? {
        ReplaceTheorem(b.tables, SCRATCH_VA, ops[0].oldPa, ops[0].newPa, ops[0].first, ops[0].second);
      }
      FreezeTheorem(BootStep(b, ops[0]), ops[1..]);
    }
  }

  /** The mappings that a run asks for. */
  function Edits(ops: seq<BootOp>): seq<Mapping> {
    if ops == [] then [] else (if ops[0].Edit? then [ops[0].m] else []) + Edits(ops[1..])
  }

  /** Until a freeze is accepted exactly the edits take effect: a scratch replacement is refused, and so
      is every freeze that is not accepted. The first that is accepted freezes. */
  lemma {:induction false} BeforeFreeze(b: Boot, ops: seq<BootOp>)
    requires Shaped(b.tables) && !b.frozen && ValidateAndFreeze(true) !in ops
    ensures BootRun(b, ops) == Boot(MapAll(b.tables, Edits(ops)), false)
    ensures BootStep(BootRun(b, ops), ValidateAndFreeze(true)) == Boot(MapAll(b.tables, Edits(ops)), true)
    decreases |ops|
  {
    hide Map, ReplaceDataPage;
    if ops != [] {
      var b1, rest := BootStep(b, ops[0]), ops[1..];
      assert ValidateAndFreeze(true) !in rest && !b1.frozen;
      BeforeFreeze(b1, rest);
      if ops[0].Edit? {
        assert ([ops[0].m] + Edits(rest))[1..] == Edits(rest);
      } else {
        assert [] + Edits(rest) == Edits(rest);
      }
    }
  }

  /** Once frozen, a scratch replacement that is allowed takes effect. */
  lemma ScratchTheorem(b: Boot, oldPa: nat, newPa: nat)
    requires Shaped(b.tables) && Valid(b.tables) && b.frozen && ReplaceAllowed(b.tables, SCRATCH_VA, oldPa, newPa)
    ensures var b' := BootStep(b, ReplaceScratch(oldPa, newPa, Ok(()), Ok(())));
            && b'.frozen && ReplaceAllowed(b'.tables, SCRATCH_VA, newPa, oldPa)
            && Walk(b'.tables, SCRATCH_VA) == Ok(Some(Translation(newPa, Attributes(Normal, true, false), 3)))
  {
    hide Walk, Valid, ReplaceDataPage, ValidateMapping, Shl;
    var t := b.tables;
    var t' := ReplaceDataPage(t, SCRATCH_VA, oldPa, newPa, Ok(()), Ok(())).0;
    ReplaceTheorem(t, SCRATCH_VA, oldPa, newPa, Ok(()), Ok(()));
    assert InPage(SCRATCH_VA, SCRATCH_VA);
    SameSpace(t, oldPa, newPa);
    ValidatedMapping(t, Mapping(SCRATCH_VA, oldPa, PAGE_SIZE, DATA));
    ValidatedMapping(t, Mapping(SCRATCH_VA, newPa, PAGE_SIZE, DATA));
    ValidatedMapping(t', Mapping(SCRATCH_VA, oldPa, PAGE_SIZE, DATA));
    ValidatedMapping(t', Mapping(SCRATCH_VA, newPa, PAGE_SIZE, DATA));
  }

  lemma SameSpace(t: Tables, oldPa: nat, newPa: nat)
    requires Shaped(t)
    ensures ReplaceDataPage(t, SCRATCH_VA, oldPa, newPa, Ok(()), Ok(())).0.paBits == t.paBits
  {
    hide LocateDataPage;
  }
}
