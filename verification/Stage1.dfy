/** EL2 stage-1 translation tables: the word-level builder and walker.

A table set is a fixed arena of 512-entry pages, of which the first `used` are in use. The
operations are functions from table set to table set and result; `TableSet` runs them in
place on an array.
*/
module Stage1 {
  import opened Wrappers
  import opened Bits
  import opened Descriptor
  import opened PageTree

  datatype TranslationError =
    | InvalidTableBase | InvalidPaBits | EmptyMapping | UnalignedMapping | AddressOverflow
    | VirtualAddressOutOfRange | PhysicalAddressOutOfRange | TableExhausted | ConflictingEntry
    | CorruptTable | InvalidateParameter | Unexpected

  datatype Mapping = Mapping(va: nat, pa: nat, size: nat, attr: Attributes)

  datatype Translation = Translation(pa: nat, attr: Attributes, level: nat)

  datatype Tables = Tables(pages: seq<seq<nat>>, used: nat, base: nat, paBits: nat)

  // Address arithmetic, as the source computes it.

  function IsPageAligned(x: nat): (r: bool)
    ensures r <==> x % PAGE_SIZE == 0
  {
    Shift12(x);
    AndLowMask(x, 12);
    LowMaskValue(12);
    ShiftOne();
    And(x, PAGE_SIZE - 1) == 0
  }

  function Shift(level: nat): nat
    requires 1 <= level <= 3
  {
    if level == 1 then 30 else if level == 2 then 21 else 12
  }

  function IndexFor(level: nat, va: nat): (i: nat)
    requires 1 <= level <= 3
    ensures i == Index(level, va)
  {
    IndexBits(level, va);
    And(Shr(va, Shift(level)), 0x1ff)
  }

  lemma IndexBits(level: nat, va: nat)
    requires 1 <= level <= 3
    ensures And(Shr(va, Shift(level)), 0x1ff) == Index(level, va)
  {
    hide And, Shr, Low, Shl;
    Shift12(va);
    Shift21(va);
    Shift30(va);
    var x := Shr(va, Shift(level));
    AndLowMask(x, 9);
    LowMaskValue(9);
    LowSmall(x, 9);
  }

  function AlignedFor(va: nat, pa: nat, level: nat): (r: bool)
    requires 1 <= level <= 3
    ensures r <==> va % LevelSize(level) == 0 && pa % LevelSize(level) == 0
  {
    AlignedBits(va, pa, level);
    And(Or(va, pa), LevelSize(level) - 1) == 0
  }

  lemma AlignedBits(va: nat, pa: nat, level: nat)
    requires 1 <= level <= 3
    ensures And(Or(va, pa), LevelSize(level) - 1) == 0
       <==> va % LevelSize(level) == 0 && pa % LevelSize(level) == 0
  {
    hide And, Or, Low, Shl;
    var k := Shift(level);
    ShiftOne();
    AndLowMask(Or(va, pa), k);
    LowMaskValue(k);
    OrLow(va, pa, k);
    match level
    case 1 => Shift30(va); Shift30(pa);
    case 2 => Shift21(va); Shift21(pa);
    case _ => Shift12(va); Shift12(pa);
  }

  // The table set.

  predicate Shaped(t: Tables) {
    && 1 <= t.used <= |t.pages|
    && (forall p | 0 <= p < |t.pages| :: |t.pages[p]| == ENTRIES)
    && t.base % PAGE_SIZE == 0
    && 32 <= t.paBits <= 48
    && t.base + |t.pages| * PAGE_SIZE <= Shl(1, t.paBits)
  }

  function TablePa(t: Tables, index: nat): nat {
    t.base + index * PAGE_SIZE
  }

  function TableIndex(t: Tables, pa: nat): Result<nat, TranslationError> {
    if pa < t.base then Err(CorruptTable)
    else if !IsPageAligned(pa - t.base) then Err(CorruptTable)
    else if (pa - t.base) / PAGE_SIZE >= t.used then Err(CorruptTable)
    else Ok((pa - t.base) / PAGE_SIZE)
  }

  function Write(t: Tables, p: nat, i: nat, d: nat): (t': Tables)
    requires Shaped(t) && p < |t.pages| && i < ENTRIES
    ensures Shaped(t')
  {
    var page: seq<nat> := t.pages[p][i := d];
    t.(pages := t.pages[p := page])
  }

  /** Take the next arena page and clear it. */
  function AllocatePage(t: Tables): (t': Tables)
    requires Shaped(t) && t.used < |t.pages|
    ensures Shaped(t')
  {
    t.(pages := t.pages[t.used := ZeroPage()], used := t.used + 1)
  }

  function MemoryTypeOf(attrIndex: nat): Result<MemoryType, TranslationError> {
    if attrIndex == 0 then Ok(Normal) else if attrIndex == 1 then Ok(Device) else Err(CorruptTable)
  }

  function WalkFrom(t: Tables, table: nat, level: nat, va: nat): Result<Option<Translation>, TranslationError>
    requires Shaped(t) && table < t.used && 1 <= level <= 3
    decreases 3 - level
  {
    var d := t.pages[table][IndexFor(level, va)];
    if !IsValid(d) then Ok(None)
    else if level < 3 && IsTableOrPage(d) then
      match TableIndex(t, And(d, ADDRESS_MASK))
      case Err(e) => Err(e)
      case Ok(child) => WalkFrom(t, child, level + 1, va)
    else if level == 3 && !IsTableOrPage(d) then Err(CorruptTable)
    else
      match MemoryTypeOf(AttrField(d))
      case Err(e) => Err(e)
      case Ok(mt) =>
        Ok(Some(Translation(
          Or(And(d, OutputMask(level)), And(va, LevelSize(level) - 1)),
          Attributes(mt, !IsReadOnly(d), !IsExecuteNever(d)),
          level)))
  }

  function Walk(t: Tables, va: nat): Result<Option<Translation>, TranslationError>
    requires Shaped(t)
  {
    if va >= VA_LIMIT then Err(VirtualAddressOutOfRange) else WalkFrom(t, 0, 1, va)
  }

  function ValidateMapping(t: Tables, m: Mapping): Result<(), TranslationError> {
    if m.size == 0 then Err(EmptyMapping)
    else if !IsPageAligned(Or(Or(m.va, m.pa), m.size)) then Err(UnalignedMapping)
    else if m.va + m.size >= U64_LIMIT then Err(AddressOverflow)
    else if m.pa + m.size >= U64_LIMIT then Err(AddressOverflow)
    else if m.va + m.size > VA_LIMIT then Err(VirtualAddressOutOfRange)
    else if m.pa + m.size > Shl(1, t.paBits) then Err(PhysicalAddressOutOfRange)
    else Ok(())
  }

  /** Follow, and where absent create, the tables from `level` down to `target`. */
  function Descend(t: Tables, table: nat, level: nat, target: nat, va: nat)
    : (r: (Tables, Result<nat, TranslationError>))
    requires Shaped(t) && table < t.used && 1 <= level <= target <= 3
    ensures Shaped(r.0) && (r.1.Ok? ==> r.1.value < r.0.used)
    ensures |r.0.pages| == |t.pages| && r.0.base == t.base && r.0.paBits == t.paBits
    decreases target - level
  {
    if level == target then (t, Ok(table))
    else
      var i := IndexFor(level, va);
      var d := t.pages[table][i];
      if d == 0 then
        if t.used == |t.pages| then (t, Err(TableExhausted))
        else Descend(Link(t, table, i), t.used, level + 1, target, va)
      else if And(d, Or(VALID, TABLE_OR_PAGE)) == Or(VALID, TABLE_OR_PAGE) then
        match TableIndex(t, And(d, ADDRESS_MASK))
        case Err(e) => (t, Err(e))
        case Ok(child) => Descend(t, child, level + 1, target, va)
      else (t, Err(ConflictingEntry))
  }

  /** Allocate a page and point the entry at it. */
  function Link(t: Tables, table: nat, i: nat): (t': Tables)
    requires Shaped(t) && table < t.used < |t.pages| && i < ENTRIES
    ensures Shaped(t')
  {
    Write(AllocatePage(t), table, i, TableDescriptor(TablePa(t, t.used)))
  }

  function MapLeaf(t: Tables, level: nat, va: nat, pa: nat, attr: Attributes)
    : (r: (Tables, Result<(), TranslationError>))
    requires Shaped(t) && 1 <= level <= 3
    ensures Shaped(r.0)
    ensures |r.0.pages| == |t.pages| && r.0.base == t.base && r.0.paBits == t.paBits
  {
    match Descend(t, 0, 1, level, va)
    case (t', Err(e)) => (t', Err(e))
    case (t', Ok(table)) =>
      var i := IndexFor(level, va);
      var d := LeafDescriptor(level, pa, attr);
      if t'.pages[table][i] != 0 && t'.pages[table][i] != d then (t', Err(ConflictingEntry))
      else (Write(t', table, i, d), Ok(()))
  }

  /** The largest leaf that fits the alignment and the remaining size. */
  function ChooseLevel(va: nat, pa: nat, remaining: nat): (level: nat)
    ensures 1 <= level <= 3
  {
    if AlignedFor(va, pa, 1) && remaining >= L1_SIZE then 1
    else if AlignedFor(va, pa, 2) && remaining >= L2_SIZE then 2
    else 3
  }

  function MapFrom(t: Tables, va: nat, pa: nat, remaining: nat, attr: Attributes)
    : (r: (Tables, Result<(), TranslationError>))
    requires Shaped(t) && remaining % PAGE_SIZE == 0
    ensures Shaped(r.0)
    ensures |r.0.pages| == |t.pages| && r.0.base == t.base && r.0.paBits == t.paBits
    decreases remaining
  {
    if remaining == 0 then (t, Ok(()))
    else
      var level := ChooseLevel(va, pa, remaining);
      match MapLeaf(t, level, va, pa, attr)
      case (t', Err(e)) => (t', Err(e))
      case (t', Ok(_)) =>
        ChunkFits(va, pa, remaining);
        MapFrom(t', va + LevelSize(level), pa + LevelSize(level), remaining - LevelSize(level), attr)
  }

  lemma ChunkFits(va: nat, pa: nat, remaining: nat)
    requires remaining % PAGE_SIZE == 0 && remaining > 0
    ensures LevelSize(ChooseLevel(va, pa, remaining)) <= remaining
    ensures (remaining - LevelSize(ChooseLevel(va, pa, remaining))) % PAGE_SIZE == 0
  {
    hide AlignedFor;
    StepAligned(remaining, ChooseLevel(va, pa, remaining));
  }

  lemma StepAligned(x: nat, level: nat)
    requires x % PAGE_SIZE == 0 && 1 <= level <= 3
    ensures (x + LevelSize(level)) % PAGE_SIZE == 0
    ensures x >= LevelSize(level) ==> (x - LevelSize(level)) % PAGE_SIZE == 0
  {
    match level
    case 1 =>
    case 2 =>
    case _ =>
  }

  function Map(t: Tables, m: Mapping): (r: (Tables, Result<(), TranslationError>))
    requires Shaped(t)
    ensures Shaped(r.0)
    ensures |r.0.pages| == |t.pages| && r.0.base == t.base && r.0.paBits == t.paBits
  {
    match ValidateMapping(t, m)
    case Err(e) => (t, Err(e))
    case Ok(_) =>
      ValidatedMapping(t, m);
      MapFrom(t, m.va, m.pa, m.size, m.attr)
  }

  /** What validation establishes. */
  lemma ValidatedMapping(t: Tables, m: Mapping)
    ensures ValidateMapping(t, m).Ok?
       <==> && m.size > 0 && m.va % PAGE_SIZE == 0 && m.pa % PAGE_SIZE == 0 && m.size % PAGE_SIZE == 0
            && m.va + m.size <= VA_LIMIT && m.pa + m.size < U64_LIMIT && m.pa + m.size <= Shl(1, t.paBits)
  {
    hide Or, Low, Shl;
    OrLow(Or(m.va, m.pa), m.size, 12);
    OrLow(m.va, m.pa, 12);
    Shift12(m.va);
    Shift12(m.pa);
    Shift12(m.size);
    Shift12(Or(Or(m.va, m.pa), m.size));
  }

  /** `TableSet::new`: validate the arena, then take page 0 as the root. */
  function New(pages: seq<seq<nat>>, base: nat, paBits: nat): (r: Result<Tables, TranslationError>)
    requires forall p | 0 <= p < |pages| :: |pages[p]| == ENTRIES
    ensures r.Ok? ==> Shaped(r.value)
  {
    if !(32 <= paBits <= 48) then Err(InvalidPaBits)
    else if !IsPageAligned(base) then Err(InvalidTableBase)
    else if base >= Shl(1, paBits) then Err(InvalidTableBase)
    else if |pages| == 0 then Err(TableExhausted)
    else if |pages| * PAGE_SIZE >= U64_LIMIT then Err(AddressOverflow)
    else if base + |pages| * PAGE_SIZE >= U64_LIMIT then Err(AddressOverflow)
    else if base + |pages| * PAGE_SIZE > Shl(1, paBits) then Err(PhysicalAddressOutOfRange)
    else Ok(Tables(pages[0 := ZeroPage()], 1, base, paBits))
  }

  /** Follow existing tables only. */
  function FindTable(t: Tables, table: nat, level: nat, va: nat): (r: Result<nat, TranslationError>)
    requires Shaped(t) && table < t.used && 1 <= level <= 3
    ensures r.Ok? ==> r.value < t.used
    decreases 3 - level
  {
    if level == 3 then Ok(table)
    else
      var d := t.pages[table][IndexFor(level, va)];
      if And(d, Or(VALID, TABLE_OR_PAGE)) != Or(VALID, TABLE_OR_PAGE) then Err(ConflictingEntry)
      else
        match TableIndex(t, And(d, ADDRESS_MASK))
        case Err(e) => Err(e)
        case Ok(child) => FindTable(t, child, level + 1, va)
  }

  const DATA: Attributes := Attributes(Normal, true, false)

  /** The checks of `replace_data_page`: the page holding the expected leaf, or an error. */
  function LocateDataPage(t: Tables, va: nat, oldPa: nat, newPa: nat): (r: Result<nat, TranslationError>)
    requires Shaped(t)
    ensures r.Ok? ==> r.value < t.used
  {
    match ValidateMapping(t, Mapping(va, newPa, PAGE_SIZE, DATA))
    case Err(e) => Err(e)
    case Ok(_) =>
      match ValidateMapping(t, Mapping(va, oldPa, PAGE_SIZE, DATA))
      case Err(e) => Err(e)
      case Ok(_) =>
        if !IsPageAligned(oldPa) || oldPa == newPa then Err(InvalidateParameter)
        else
          match FindTable(t, 0, 1, va)
          case Err(e) => Err(e)
          case Ok(table) =>
            if t.pages[table][IndexFor(3, va)] != LeafDescriptor(3, oldPa, DATA) then Err(ConflictingEntry)
            else Ok(table)
  }

  /** Break, synchronize, make, synchronize. The outcomes of the two synchronizations are inputs. */
  function ReplaceDataPage(
    t: Tables, va: nat, oldPa: nat, newPa: nat,
    first: Result<(), TranslationError>, second: Result<(), TranslationError>)
    : (r: (Tables, Result<(), TranslationError>))
    requires Shaped(t)
    ensures Shaped(r.0)
  {
    match LocateDataPage(t, va, oldPa, newPa)
    case Err(e) => (t, Err(e))
    case Ok(table) =>
      var broken := Write(t, table, IndexFor(3, va), 0);
      if first.Err? then (broken, first)
      else (Write(broken, table, IndexFor(3, va), LeafDescriptor(3, newPa, DATA)), second)
  }
}
