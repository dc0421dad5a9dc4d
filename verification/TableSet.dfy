/** The table set as an object that edits its arena in place. */
module TableSets {
  import opened Wrappers
  import opened Bits
  import opened Descriptor
  import opened PageTree
  import S = Stage1
  import opened Stage1

  /** The rows of an arena. */
  ghost function Rows(a: array2<nat>): (s: seq<seq<nat>>)
    reads a
    ensures |s| == a.Length0
    ensures forall p | 0 <= p < a.Length0 :: |s[p]| == a.Length1
    ensures forall p, i | 0 <= p < a.Length0 && 0 <= i < a.Length1 :: s[p][i] == a[p, i]
  {
    seq(a.Length0, p requires 0 <= p < a.Length0 reads a =>
          seq(a.Length1, i requires 0 <= i < a.Length1 reads a => a[p, i]))
  }

  class TableSet {
    const storage: array2<nat>
    var used: nat
    const base: nat
    const paBits: nat

    ghost function State(): Tables
      reads this, storage
    {
      Tables(Rows(storage), used, base, paBits)
    }

    ghost predicate WellShaped()
      reads this, storage
    {
      storage.Length1 == ENTRIES && Shaped(State())
    }

    /** Wraps an arena that has been validated and given its root page. */
    constructor (storage: array2<nat>, base: nat, paBits: nat, used: nat)
      requires storage.Length1 == ENTRIES && Shaped(Tables(Rows(storage), used, base, paBits))
      ensures WellShaped()
      ensures this.storage == storage && State() == Tables(Rows(storage), used, base, paBits)
    {
      this.storage, this.used, this.base, this.paBits := storage, used, base, paBits;
    }

    /** Validates the arena, clears its first page and hands out the table set. */
    static method Create(storage: array2<nat>, base: nat, paBits: nat) returns (r: Result<TableSet, TranslationError>)
      requires storage.Length1 == ENTRIES
      modifies storage
      ensures r.Ok? <==> S.New(old(Rows(storage)), base, paBits).Ok?
      ensures r.Ok? ==> fresh(r.value) && r.value.storage == storage && r.value.WellShaped()
      ensures r.Ok? ==> r.value.State() == S.New(old(Rows(storage)), base, paBits).value
      ensures r.Err? ==> Rows(storage) == old(Rows(storage)) && Err(r.error) == S.New(old(Rows(storage)), base, paBits)
    {
      if !(32 <= paBits <= 48) {
        return Err(InvalidPaBits);
      }
      if !IsPageAligned(base) || base >= Shl(1, paBits) {
        return Err(InvalidTableBase);
      }
      if storage.Length0 == 0 {
        return Err(TableExhausted);
      }
      if storage.Length0 * PAGE_SIZE >= U64_LIMIT || base + storage.Length0 * PAGE_SIZE >= U64_LIMIT {
        return Err(AddressOverflow);
      }
      if base + storage.Length0 * PAGE_SIZE > Shl(1, paBits) {
        return Err(PhysicalAddressOutOfRange);
      }
      ClearPage(storage, 0);
      var t := new TableSet(storage, base, paBits, 1);
      return Ok(t);
    }

    static method ClearPage(storage: array2<nat>, page: nat)
      requires storage.Length1 == ENTRIES && page < storage.Length0
      modifies storage
      ensures Rows(storage) == old(Rows(storage))[page := ZeroPage()]
    {
      for i := 0 to ENTRIES
        invariant forall p, j | 0 <= p < storage.Length0 && 0 <= j < ENTRIES ::
          storage[p, j] == if p == page && j < i then 0 else old(storage[p, j])
      {
        storage[page, i] := 0;
      }
      SameRows(Rows(storage), old(Rows(storage))[page := ZeroPage()]);
    }

    static lemma SameRows(a: seq<seq<nat>>, b: seq<seq<nat>>)
      requires |a| == |b|
      requires forall p | 0 <= p < |a| :: |a[p]| == |b[p]|
      requires forall p, i | 0 <= p < |a| && 0 <= i < |a[p]| :: a[p][i] == b[p][i]
      ensures a == b
    {
      assert forall p | 0 <= p < |a| :: a[p] == b[p];
    }

    method Store(page: nat, index: nat, d: nat)
      requires WellShaped() && page < storage.Length0 && index < ENTRIES
      modifies storage
      ensures State() == Write(old(State()), page, index, d)
    {
      storage[page, index] := d;
      SameRows(Rows(storage), Write(old(State()), page, index, d).pages);
    }

    method AllocatePage() returns (r: Result<nat, TranslationError>)
      requires WellShaped()
      modifies this, storage
      ensures if old(used) == storage.Length0 then r == Err(TableExhausted) && State() == old(State())
              else r == Ok(old(used)) && State() == S.AllocatePage(old(State()))
    {
      if used == storage.Length0 {
        return Err(TableExhausted);
      }
      var index := used;
      ClearPage(storage, index);
      used := used + 1;
      return Ok(index);
    }

    method MapLeaf(level: nat, va: nat, pa: nat, attr: Attributes) returns (r: Result<(), TranslationError>)
      requires WellShaped() && 1 <= level <= 3
      modifies this, storage
      ensures (State(), r) == S.MapLeaf(old(State()), level, va, pa, attr)
    {
      hide And, Or, Shl, LeafDescriptor, TableDescriptor;
      var table: nat, current: nat := 0, 1;
      while current < level
        invariant 1 <= current <= level && WellShaped() && table < used
        invariant Descend(State(), table, current, level, va) == Descend(old(State()), 0, 1, level, va)
      {
        var index := IndexFor(current, va);
        var d := storage[table, index];
        if d == 0 {
          var child := AllocatePage();
          if child.Err? {
            return Err(child.error);
          }
          Store(table, index, TableDescriptor(base + child.value * PAGE_SIZE));
          table := child.value;
        } else if And(d, Or(VALID, TABLE_OR_PAGE)) == Or(VALID, TABLE_OR_PAGE) {
          var child := TableIndexOf(And(d, ADDRESS_MASK));
          if child.Err? {
            return Err(child.error);
          }
          table := child.value;
        } else {
          return Err(ConflictingEntry);
        }
        current := current + 1;
      }
      var index := IndexFor(level, va);
      var d := LeafDescriptor(level, pa, attr);
      if storage[table, index] != 0 && storage[table, index] != d {
        return Err(ConflictingEntry);
      }
      Store(table, index, d);
      return Ok(());
    }

    method TableIndexOf(pa: nat) returns (r: Result<nat, TranslationError>)
      requires WellShaped()
      ensures r == TableIndex(State(), pa)
    {
      if pa < base || !IsPageAligned(pa - base) || (pa - base) / PAGE_SIZE >= used {
        return Err(CorruptTable);
      }
      return Ok((pa - base) / PAGE_SIZE);
    }

    method Validate(m: Mapping) returns (r: Result<(), TranslationError>)
      requires WellShaped()
      ensures r == ValidateMapping(State(), m)
    {
      r := ValidateMapping(Tables([], used, base, paBits), m);
    }

    method Map(m: Mapping) returns (r: Result<(), TranslationError>)
      requires WellShaped()
      modifies this, storage
      ensures (State(), r) == S.Map(old(State()), m)
    {
      hide S.MapLeaf, AlignedFor, ValidateMapping, Shl;
      r := Validate(m);
      if r.Err? {
        return;
      }
      ValidatedMapping(old(State()), m);
      var va: nat, pa: nat, remaining: nat := m.va, m.pa, m.size;
      while remaining != 0
        invariant WellShaped() && remaining % PAGE_SIZE == 0
        invariant MapFrom(State(), va, pa, remaining, m.attr) == MapFrom(old(State()), m.va, m.pa, m.size, m.attr)
        decreases remaining
      {
        var level := ChooseLevel(va, pa, remaining);
        var chunk := LevelSize(level);
        ChunkFits(va, pa, remaining);
        r := MapLeaf(level, va, pa, m.attr);
        if r.Err? {
          return;
        }
        va, pa, remaining := va + chunk, pa + chunk, remaining - chunk;
      }
      return Ok(());
    }

    method Walk(va: nat) returns (r: Result<Option<Translation>, TranslationError>)
      requires WellShaped()
      ensures r == S.Walk(State(), va)
    {
      hide And, Or, Shl, OutputMask, AttrField, IsValid, IsTableOrPage, IsReadOnly, IsExecuteNever;
      if va >= VA_LIMIT {
        return Err(VirtualAddressOutOfRange);
      }
      var table: nat, level: nat := 0, 1;
      while true
        invariant 1 <= level <= 3 && table < used
        invariant WalkFrom(State(), table, level, va) == S.Walk(State(), va)
        decreases 3 - level
      {
        var d := storage[table, IndexFor(level, va)];
        if !IsValid(d) {
          return Ok(None);
        }
        if level < 3 && IsTableOrPage(d) {
          var child := TableIndexOf(And(d, ADDRESS_MASK));
          if child.Err? {
            return Err(child.error);
          }
          table, level := child.value, level + 1;
        } else {
          if level == 3 && !IsTableOrPage(d) {
            return Err(CorruptTable);
          }
          var mt := MemoryTypeOf(AttrField(d));
          if mt.Err? {
            return Err(mt.error);
          }
          return Ok(Some(Translation(
                           Or(And(d, OutputMask(level)), And(va, LevelSize(level) - 1)),
                           Attributes(mt.value, !IsReadOnly(d), !IsExecuteNever(d)),
                           level)));
        }
      }
    }

    /** Break, synchronize, make, synchronize; the two synchronizations' outcomes are inputs. */
    method ReplaceDataPage(
      va: nat, oldPa: nat, newPa: nat, first: Result<(), TranslationError>, second: Result<(), TranslationError>)
      returns (r: Result<(), TranslationError>)
      requires WellShaped()
      modifies storage
      ensures (State(), r) == S.ReplaceDataPage(old(State()), va, oldPa, newPa, first, second)
    {
      hide And, Or, Shl, LeafDescriptor, ValidateMapping;
      r := Validate(Mapping(va, newPa, PAGE_SIZE, DATA));
      if r.Err? {
        return;
      }
      r := Validate(Mapping(va, oldPa, PAGE_SIZE, DATA));
      if r.Err? {
        return;
      }
      if !IsPageAligned(oldPa) || oldPa == newPa {
        return Err(InvalidateParameter);
      }
      var table: nat, level: nat := 0, 1;
      while level < 3
        invariant 1 <= level <= 3 && table < used && State() == old(State())
        invariant FindTable(State(), table, level, va) == FindTable(State(), 0, 1, va)
      {
        var d := storage[table, IndexFor(level, va)];
        if And(d, Or(VALID, TABLE_OR_PAGE)) != Or(VALID, TABLE_OR_PAGE) {
          return Err(ConflictingEntry);
        }
        var child := TableIndexOf(And(d, ADDRESS_MASK));
        if child.Err? {
          return Err(child.error);
        }
        table, level := child.value, level + 1;
      }
      var index := IndexFor(3, va);
      if storage[table, index] != LeafDescriptor(3, oldPa, DATA) {
        return Err(ConflictingEntry);
      }
      Store(table, index, 0);
      if first.Err? {
        return first;
      }
      Store(table, index, LeafDescriptor(3, newPa, DATA));
      return second;
    }
  }
}
