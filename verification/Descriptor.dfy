/** EL2 stage-1 descriptors: the VMSAv8-64 subset written by the table builder. */
module Descriptor {
  import opened Bits

  const PAGE_SIZE: nat := 0x1000
  const L1_SIZE: nat := 0x4000_0000
  const L2_SIZE: nat := 0x20_0000
  const ADDRESS_MASK: nat := 0x0000_ffff_ffff_f000
  const PA_LIMIT: nat := 0x1_0000_0000_0000
  const VALID: nat := 1
  const TABLE_OR_PAGE: nat := 2
  const AP_READ_ONLY: nat := 0x80
  const SH_INNER: nat := 0x300
  const ACCESS_FLAG: nat := 0x400
  const XN: nat := 0x40_0000_0000_0000

  datatype MemoryType = Normal | Device {
    function AttrIndex(): nat {
      match this
      case Normal => 0
      case Device => 1
    }
  }

  /** What a leaf grants, apart from its output address. */
  datatype Attributes = Attributes(memoryType: MemoryType, writable: bool, executable: bool)

  function LevelSize(level: nat): nat
    requires 1 <= level <= 3
  {
    if level == 1 then L1_SIZE else if level == 2 then L2_SIZE else PAGE_SIZE
  }

  function OutputMask(level: nat): nat
    requires 1 <= level <= 3
  {
    And(ADDRESS_MASK, U64_LIMIT - 1 - (LevelSize(level) - 1))
  }

  function LeafDescriptor(level: nat, pa: nat, a: Attributes): nat
    requires 1 <= level <= 3
  {
    WithAttributes(And(pa, OutputMask(level)), level, a)
  }

  function WithAttributes(address: nat, level: nat, a: Attributes): nat {
    var d := Or(Or(Or(address, VALID), ACCESS_FLAG), Shl(a.memoryType.AttrIndex(), 2));
    var d := if level == 3 then Or(d, TABLE_OR_PAGE) else d;
    var d := if a.memoryType == Normal then Or(d, SH_INNER) else d;
    var d := if !a.writable then Or(d, AP_READ_ONLY) else d;
    if !a.executable then Or(d, XN) else d
  }

  function TableDescriptor(pa: nat): nat {
    Or(Or(pa, VALID), TABLE_OR_PAGE)
  }

  predicate IsValid(d: nat) {
    And(d, VALID) != 0
  }

  predicate IsTableOrPage(d: nat) {
    And(d, TABLE_OR_PAGE) != 0
  }

  function AttrField(d: nat): nat {
    And(Shr(d, 2), 7)
  }

  predicate IsReadOnly(d: nat) {
    And(d, AP_READ_ONLY) != 0
  }

  predicate IsExecuteNever(d: nat) {
    And(d, XN) != 0
  }

  /** The attribute bits below the address field, as a number. */
  function LowBits(level: nat, a: Attributes): (low: nat)
    ensures low < 0x800
  {
    1 + (if level == 3 then 2 else 0)
    + (if a.memoryType.Device? then 4 else 0x300)
    + (if a.writable then 0 else 0x80)
    + 0x400
  }

  lemma OutputMaskValue(level: nat)
    requires 1 <= level <= 3
    ensures OutputMask(level) == PA_LIMIT - LevelSize(level)
  {
    hide And, Low, Shl;
    ShiftOne();
    Shift64(ADDRESS_MASK);
    match level
    case 1 =>
      Shift30(ADDRESS_MASK);
      AndField(ADDRESS_MASK, 30, 64);
    case 2 =>
      Shift21(ADDRESS_MASK);
      AndField(ADDRESS_MASK, 21, 64);
    case _ =>
      Shift12(ADDRESS_MASK);
      AndField(ADDRESS_MASK, 12, 64);
  }

  /** An output mask keeps the bits from the leaf size up to bit 47. */
  lemma AndOutputMask(x: nat, level: nat)
    requires 1 <= level <= 3
    ensures And(x, OutputMask(level)) == x % PA_LIMIT - x % LevelSize(level)
  {
    hide And, Low, Shl;
    OutputMaskValue(level);
    ShiftOne();
    Shift48(x);
    match level
    case 1 =>
      Shift30(x);
      AndField(x, 30, 48);
    case 2 =>
      Shift21(x);
      AndField(x, 21, 48);
    case _ =>
      Shift12(x);
      AndField(x, 12, 48);
  }

  lemma ShiftOne()
    ensures Shl(1, 12) == 0x1000 && Shl(1, 21) == 0x20_0000 && Shl(1, 30) == 0x4000_0000
    ensures Shl(1, 48) == PA_LIMIT && Shl(1, 54) == XN && Shl(1, 64) == U64_LIMIT
  {
    Shift12(1);
    Shift21(1);
    Shift30(1);
    Shift48(1);
    Shift54(1);
    Shift64(1);
  }

  // Setting one attribute field of a word in which it is clear.

  lemma AddValid(d: nat)
    requires d % 0x2 == d % 0x1
    ensures Or(d, 0x1) == d + 0x1
  {
    hide Or, Low, Shl;
    LowSmall(d, 0);
    LowSmall(d, 1);
    assert SmallPower(0) == 0x1 && SmallPower(1) == 0x2;
    SetField(d, 0, 1);
  }

  lemma AddTable(d: nat)
    requires d % 0x4 == d % 0x2
    ensures Or(d, 0x2) == d + 0x2
  {
    hide Or, Low, Shl;
    LowSmall(d, 1);
    LowSmall(d, 2);
    assert SmallPower(1) == 0x2 && SmallPower(2) == 0x4;
    SetField(d, 1, 2);
  }

  lemma AddAttr(d: nat)
    requires d % 0x8 == d % 0x4
    ensures Or(d, 0x4) == d + 0x4
  {
    hide Or, Low, Shl;
    LowSmall(d, 2);
    LowSmall(d, 3);
    assert SmallPower(2) == 0x4 && SmallPower(3) == 0x8;
    SetField(d, 2, 3);
  }

  lemma AddReadOnly(d: nat)
    requires d % 0x100 == d % 0x80
    ensures Or(d, 0x80) == d + 0x80
  {
    hide Or, Low, Shl;
    LowSmall(d, 7);
    LowSmall(d, 8);
    assert SmallPower(7) == 0x80 && SmallPower(8) == 0x100;
    SetField(d, 7, 8);
  }

  lemma AddShareable(d: nat)
    requires d % 0x400 == d % 0x100
    ensures Or(d, 0x300) == d + 0x300
  {
    hide Or, Low, Shl;
    LowSmall(d, 8);
    LowSmall(d, 10);
    assert SmallPower(8) == 0x100 && SmallPower(10) == 0x400;
    SetField(d, 8, 10);
  }

  lemma AddAccess(d: nat)
    requires d % 0x800 == d % 0x400
    ensures Or(d, 0x400) == d + 0x400
  {
    hide Or, Low, Shl;
    LowSmall(d, 10);
    LowSmall(d, 11);
    assert SmallPower(10) == 0x400 && SmallPower(11) == 0x800;
    SetField(d, 10, 11);
  }

  lemma AddExecuteNever(d: nat)
    requires d < XN
    ensures Or(d, XN) == d + XN
  {
    ShiftOne();
    Shift54(d);
    OrDisjoint(1, d, 54);
  }

  lemma ValidAccessBits(addr: nat)
    requires addr % PAGE_SIZE == 0
    ensures Or(Or(addr, VALID), ACCESS_FLAG) == addr + 0x401
  {
    hide Or;
    PageOffset(addr, 0);
    PageOffset(addr, 1);
    AddValid(addr);
    AddAccess(addr + 1);
  }

  lemma BaseBits(addr: nat, mt: MemoryType)
    requires addr % PAGE_SIZE == 0
    ensures Or(Or(Or(addr, VALID), ACCESS_FLAG), Shl(mt.AttrIndex(), 2)) == addr + 0x401 + 4 * mt.AttrIndex()
  {
    hide Or, Shl;
    ValidAccessBits(addr);
    PageOffset(addr, 0x401);
    LowSmall(1, 2);
    ShlZero(2);
    AddAttr(addr + 0x401);
    OrZero(addr + 0x401);
  }

  lemma TypeAndShareBits(addr: nat, mt: MemoryType)
    requires addr % PAGE_SIZE == 0
    ensures var d := addr + 0x401 + 4 * mt.AttrIndex();
            && Or(d, TABLE_OR_PAGE) == d + 2
            && (mt.Normal? ==> Or(d, SH_INNER) == d + 0x300 && Or(d + 2, SH_INNER) == d + 0x302)
  {
    hide Or;
    var d := addr + 0x401 + 4 * mt.AttrIndex();
    PageOffset(addr, 0x401 + 4 * mt.AttrIndex());
    PageOffset(addr, 0x403 + 4 * mt.AttrIndex());
    AddTable(d);
    if mt.Normal? {
      AddShareable(d);
      AddShareable(d + 2);
    }
  }

  lemma AccessBits(address: nat, c: nat)
    requires address % PAGE_SIZE == 0 && c < PAGE_SIZE && c % 0x100 < 0x80
    ensures Or(address + c, AP_READ_ONLY) == address + c + 0x80
  {
    hide Or;
    PageOffset(address, c);
    AddReadOnly(address + c);
  }

  /** The attribute fields are disjoint from each other and from the address. */
  lemma AttributeSum(address: nat, level: nat, a: Attributes)
    requires address % PAGE_SIZE == 0 && address < PA_LIMIT
    ensures WithAttributes(address, level, a)
         == address + LowBits(level, a) + (if a.executable then 0 else XN)
  {
    hide Or, Shl;
    BaseBits(address, a.memoryType);
    TypeAndShareBits(address, a.memoryType);
    var c := LowBits(level, a.(writable := true));
    assert c % 0x100 < 0x80;
    AccessBits(address, c);
    AddExecuteNever(address + LowBits(level, a));
  }

  lemma TableWord(pa: nat)
    requires pa % PAGE_SIZE == 0
    ensures TableDescriptor(pa) == pa + 3
  {
    hide Or;
    PageOffset(pa, 0);
    PageOffset(pa, 1);
    AddValid(pa);
    AddTable(pa + 1);
  }

  /** The bit tests of the walker, as arithmetic on the word. */
  lemma BitTests(d: nat)
    ensures IsValid(d) <==> d % 2 == 1
    ensures IsTableOrPage(d) <==> d / 2 % 2 == 1
    ensures AttrField(d) == d / 4 % 8
    ensures IsReadOnly(d) <==> d / 0x80 % 2 == 1
    ensures IsExecuteNever(d) <==> d / XN % 2 == 1
  {
    hide And, Shl, Shr, Low;
    ShiftOne();
    Shift0(d);
    Shift1(d);
    Shift2(d);
    Shift7(d);
    Shift54(d);
    Shift0(1);
    Shift1(1);
    Shift7(1);
    AndBit(d, 0);
    AndBit(d, 1);
    AndBit(d, 7);
    AndBit(d, 54);
    AndLowMask(Shr(d, 2), 3);
    LowSmall(Shr(d, 2), 3);
    LowMaskValue(3);
    Shift3(1);
  }

  /** The fields below the address, as the architecture defines them: the type in bits 1:0, the
      attribute index in 4:2 with a clear bit above it, AP in 7:6, SH in 9:8 and AF in 10. */
  predicate LeafBitsAre(d: nat, level: nat, a: Attributes) {
    && d % 4 == (if level == 3 then 3 else 1)
    && d / 4 % 16 == (if a.memoryType == Normal then 0 else 1)
    && d / 64 % 4 == (if a.writable then 0 else 2)
    && d / 256 % 4 == (if a.memoryType == Normal then 3 else 0)
    && d / 0x400 % 2 == 1 && d / 0x800 % 2 == 0
  }

  /** Every field of a leaf descriptor reads back as it was written; no other bit is set. */
  lemma LeafRoundTrip(level: nat, pa: nat, a: Attributes)
    requires 1 <= level <= 3 && pa % LevelSize(level) == 0 && pa < PA_LIMIT
    ensures var d := LeafDescriptor(level, pa, a);
            && d < U64_LIMIT
            && IsValid(d)
            && (IsTableOrPage(d) <==> level == 3)
            && And(d, OutputMask(level)) == pa
            && AttrField(d) == a.memoryType.AttrIndex()
            && (IsReadOnly(d) <==> !a.writable)
            && (IsExecuteNever(d) <==> !a.executable)
            && LeafBitsAre(d, level, a)
            && d / PA_LIMIT == (if a.executable then 0 else 0x40)
  {
    hide And, WithAttributes, OutputMask, IsValid, IsTableOrPage, AttrField, IsReadOnly, IsExecuteNever, LeafBitsAre,
      LowBits;
    var d := LeafDescriptor(level, pa, a);
    AndOutputMask(pa, level);
    AttributeSum(pa, level, a);
    SizeAligned(pa, level, 0);
    LeafTests(d, pa, level, a);
    LeafAddress(d, pa, level, a);
    LeafFields(d, pa, level, a);
    AndOutputMask(d, level);
  }

  lemma LeafFields(d: nat, pa: nat, level: nat, a: Attributes)
    requires pa % PAGE_SIZE == 0 && pa < PA_LIMIT
    requires d == pa + LowBits(level, a) + (if a.executable then 0 else XN)
    ensures LeafBitsAre(d, level, a) && d / PA_LIMIT == (if a.executable then 0 else 0x40)
  {
    hide LowBits, LeafBitsAre;
    var low, high := LowBits(level, a), if a.executable then 0 else 1;
    SizeAligned(pa, 3, high);
    LowBitsAre(level, a);
    SameLeafBits(pa + high * XN, low, level, a);
    HighBits(pa, low, high);
  }

  lemma HighBits(pa: nat, low: nat, high: nat)
    requires pa % PAGE_SIZE == 0 && pa < PA_LIMIT && low < PAGE_SIZE && high <= 1
    ensures (pa + high * XN + low) / PA_LIMIT == 0x40 * high
  {
    assert pa + PAGE_SIZE <= PA_LIMIT;
    if high == 0 {
      ModUnique(pa + low, PA_LIMIT, 0, pa + low);
    } else {
      ModUnique(pa + XN + low, PA_LIMIT, 0x40, pa + low);
    }
  }

  lemma SameLeafBits(p: nat, low: nat, level: nat, a: Attributes)
    requires p % PAGE_SIZE == 0 && low < PAGE_SIZE && LeafBitsAre(low, level, a)
    ensures LeafBitsAre(p + low, level, a)
  {
    LowFields(p, low);
    UpperFlags(p, low);
  }

  lemma LowBitsAre(level: nat, a: Attributes)
    ensures LeafBitsAre(LowBits(level, a), level, a)
  {
  }

  /** The fields inside the page offset do not depend on the bits above it. */
  lemma LowFields(p: nat, low: nat)
    requires p % PAGE_SIZE == 0 && low < PAGE_SIZE
    ensures (p + low) / 4 % 16 == low / 4 % 16 && (p + low) / 64 % 4 == low / 64 % 4
    ensures (p + low) / 256 % 4 == low / 256 % 4
  {
    var f := p / PAGE_SIZE;
    ModUnique(p + low, 4, 0x400 * f + low / 4, low % 4);
    ModUnique(p + low, 64, 0x40 * f + low / 64, low % 64);
    ModUnique(p + low, 256, 0x10 * f + low / 256, low % 256);
    ModUnique((p + low) / 4, 16, 0x40 * f + low / 4 / 16, low / 4 % 16);
    ModUnique((p + low) / 64, 4, 0x10 * f + low / 64 / 4, low / 64 % 4);
    ModUnique((p + low) / 256, 4, 4 * f + low / 256 / 4, low / 256 % 4);
  }

  lemma UpperFlags(p: nat, low: nat)
    requires p % PAGE_SIZE == 0 && low < PAGE_SIZE
    ensures (p + low) % 4 == low % 4
    ensures (p + low) / 0x400 % 2 == low / 0x400 % 2 && (p + low) / 0x800 % 2 == low / 0x800 % 2
  {
    var f := p / PAGE_SIZE;
    ModUnique(p + low, 4, 0x400 * f + low / 4, low % 4);
    ModUnique(p + low, 0x400, 4 * f + low / 0x400, low % 0x400);
    ModUnique(p + low, 0x800, 2 * f + low / 0x800, low % 0x800);
    ModUnique((p + low) / 0x400, 2, 2 * f + low / 0x400 / 2, low / 0x400 % 2);
    ModUnique((p + low) / 0x800, 2, f + low / 0x800 / 2, low / 0x800 % 2);
  }

  lemma LeafTests(d: nat, pa: nat, level: nat, a: Attributes)
    requires pa % PAGE_SIZE == 0 && pa < PA_LIMIT
    requires d == pa + LowBits(level, a) + (if a.executable then 0 else XN)
    ensures IsValid(d)
    ensures IsTableOrPage(d) <==> level == 3
    ensures AttrField(d) == a.memoryType.AttrIndex()
    ensures IsReadOnly(d) <==> !a.writable
    ensures IsExecuteNever(d) <==> !a.executable
  {
    hide And, Shr, IsValid, IsTableOrPage, AttrField, IsReadOnly, IsExecuteNever, LowBits;
    var low := LowBits(level, a);
    var high := if a.executable then 0 else 1;
    var p := pa + high * XN;
    assert p % PAGE_SIZE == 0 by { SizeAligned(pa, 3, high); }
    assert d / XN == high by { ModUnique(d, XN, high, pa + low); }
    BitTests(d);
    PageOffset(p, low);
    PageFields(p, low);
    LowBitFields(level, a);
  }

  lemma LeafAddress(d: nat, pa: nat, level: nat, a: Attributes)
    requires 1 <= level <= 3 && pa % LevelSize(level) == 0 && pa < PA_LIMIT
    requires d == pa + LowBits(level, a) + (if a.executable then 0 else XN)
    ensures d % PA_LIMIT - d % LevelSize(level) == pa
  {
    hide LowBits;
    var low := LowBits(level, a);
    var high := if a.executable then 0 else 1;
    var size := LevelSize(level);
    var p := pa + high * XN;
    assert p % size == 0 by { SizeAligned(pa, level, high); }
    assert d % size == low by { ModUnique(d, size, p / size, low); }
    assert d % PA_LIMIT == pa + low by { ModUnique(d, PA_LIMIT, 64 * high, pa + low); }
  }

  lemma LowBitFields(level: nat, a: Attributes)
    ensures var low := LowBits(level, a);
            && low % 2 == 1
            && (low / 2 % 2 == 1 <==> level == 3)
            && low / 4 % 8 == a.memoryType.AttrIndex()
            && (low / 0x80 % 2 == 1 <==> !a.writable)
  {
  }

  lemma SizeAligned(pa: nat, level: nat, high: nat)
    requires 1 <= level <= 3 && pa % LevelSize(level) == 0
    ensures (pa + high * XN) % LevelSize(level) == 0 && (pa + high * XN) % PAGE_SIZE == 0
    ensures pa % PAGE_SIZE == 0
  {
    var q := pa / LevelSize(level);
    match level
    case 1 =>
      ModUnique(pa + high * XN, L1_SIZE, q + 0x100_0000 * high, 0);
      ModUnique(pa + high * XN, PAGE_SIZE, 0x4_0000 * (q + 0x100_0000 * high), 0);
      ModUnique(pa, PAGE_SIZE, 0x4_0000 * q, 0);
    case 2 =>
      ModUnique(pa + high * XN, L2_SIZE, q + 0x2_0000_0000 * high, 0);
      ModUnique(pa + high * XN, PAGE_SIZE, 0x200 * (q + 0x2_0000_0000 * high), 0);
      ModUnique(pa, PAGE_SIZE, 0x200 * q, 0);
    case _ =>
      ModUnique(pa + high * XN, PAGE_SIZE, q + 0x400_0000_0000 * high, 0);
  }

  /** A table descriptor reads back as a valid table pointing at `pa`. */
  lemma TableRoundTrip(pa: nat)
    requires pa % PAGE_SIZE == 0 && pa < PA_LIMIT
    ensures var d := TableDescriptor(pa);
            && d < U64_LIMIT
            && IsValid(d)
            && IsTableOrPage(d)
            && And(d, ADDRESS_MASK) == pa
            && d == pa + 3
  {
    hide And, Or, IsValid, IsTableOrPage, OutputMask;
    var d := TableDescriptor(pa);
    TableWord(pa);
    BitTests(d);
    PageOffset(pa, 3);
    PageFields(pa, 3);
    ModUnique(d, PA_LIMIT, 0, d);
    OutputMaskValue(3);
    AndOutputMask(d, 3);
  }

  /** No leaf descriptor is also a table descriptor. */
  lemma LeafIsNotTable(level: nat, pa: nat, a: Attributes, table: nat)
    requires 1 <= level <= 3 && pa % LevelSize(level) == 0 && pa < PA_LIMIT
    requires table % PAGE_SIZE == 0
    ensures LeafDescriptor(level, pa, a) != TableDescriptor(table)
  {
    hide And, Or, WithAttributes, OutputMask, TableDescriptor;
    var low, high := LowBits(level, a), if a.executable then 0 else 1;
    assert LeafDescriptor(level, pa, a) == pa + high * XN + low by {
      AndOutputMask(pa, level);
      ModUnique(pa, PA_LIMIT, 0, pa);
      SizeAligned(pa, level, 0);
      AttributeSum(pa, level, a);
    }
    SizeAligned(pa, level, high);
    PageOffset(pa + high * XN, low);
    TableWord(table);
    PageOffset(table, 3);
  }
}
