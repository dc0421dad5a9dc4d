/** Stage-2 page and table descriptors. */
module Stage2Encoding {
  import opened Bits
  import D = Descriptor
  import opened Descriptor

  datatype Kind = NormalWbWa | DeviceNgNre
  datatype Access = NoAccess | ReadOnly | WriteOnly | ReadWrite
  datatype Exec = Executable | ExecuteNever

  /** What a stage-2 leaf grants, apart from its output address. */
  datatype Grant = Grant(kind: Kind, access: Access, exec: Exec)

  function MemAttr(kind: Kind): nat { if kind == NormalWbWa then 0xf else 0x1 }

  function AccessCode(access: Access): nat {
    match access
    case NoAccess => 0
    case ReadOnly => 1
    case WriteOnly => 2
    case ReadWrite => 3
  }

  function ShareCode(kind: Kind): nat { if kind == NormalWbWa then 3 else 0 }

  function EncodeL3(pa: nat, g: Grant): nat {
    Or(LowWord(g), And(pa, ADDRESS_MASK))
  }

  /** Everything but the address, in the order the source combines it. */
  function LowWord(g: Grant): nat {
    var attrs := Or(Or(Or(VALID, TABLE_OR_PAGE), 4 * MemAttr(g.kind)), 64 * AccessCode(g.access));
    Or(Or(Or(attrs, 256 * ShareCode(g.kind)), ACCESS_FLAG),
       if g.exec == ExecuteNever then XN else 0)
  }

  function TableEntry(pa: nat): nat {
    Or(Or(VALID, TABLE_OR_PAGE), And(pa, ADDRESS_MASK))
  }

  /** The attribute bits as a number. */
  function LowSum(g: Grant): (c: nat)
    ensures c < 0x800 && c % 4 == 3
  {
    3 + 4 * MemAttr(g.kind) + 64 * AccessCode(g.access) + 256 * ShareCode(g.kind) + 0x400
  }

  function High(g: Grant): nat { if g.exec == ExecuteNever then 1 else 0 }

  lemma LowWordSum(g: Grant)
    ensures LowWord(g) == LowSum(g) + High(g) * XN
  {
    hide Or;
    var a := 3 + 4 * MemAttr(g.kind);
    var b := a + 64 * AccessCode(g.access);
    var c := b + 256 * ShareCode(g.kind);
    TypeBits();
    AddAttrs(g.kind);
    AddAccessCode(a, g.access);
    if g.kind == NormalWbWa {
      AddShareable(b);
    } else {
      OrZero(b);
    }
    D.AddAccess(c);
    AddExecuteNever(LowSum(g));
    OrZero(LowSum(g));
  }

  lemma TypeBits()
    ensures Or(VALID, TABLE_OR_PAGE) == 3
  {
    TableWord(0);
    D.AddValid(0);
  }

  lemma AddAttrs(kind: Kind)
    ensures Or(3, 4 * MemAttr(kind)) == 3 + 4 * MemAttr(kind)
  {
  }

  lemma AddAccessCode(a: nat, access: Access)
    requires a < 64
    ensures Or(a, 64 * AccessCode(access)) == a + 64 * AccessCode(access)
  {
    hide Shl, Shr;
    Shift6(a);
    Shift6(AccessCode(access));
    OrDisjoint(AccessCode(access), a, 6);
  }

  lemma Shift6(x: nat)
    ensures Shr(x, 6) == x / 64 && Shl(x, 6) == 64 * x
  {
    hide Shr, Shl;
    ShrAdd(x, 3, 3);
    ShlAdd(x, 3, 3);
    Shift3(x);
    Shift3(x / 8);
    Shift3(8 * x);
  }

  /** The lowest bit of a conjunction, and the rest of it. */
  lemma AndStep(x: nat, y: nat)
    ensures And(x, y) % 2 == 1 <==> x % 2 == 1 && y % 2 == 1
    ensures And(x, y) / 2 == And(x / 2, y / 2)
  {
  }

  lemma {:induction false} AndSwap(x: nat, y: nat, m: nat)
    ensures And(x, And(y, m)) == And(And(x, m), y)
    decreases x
  {
    hide And;
    if x == 0 {
      AndZero(And(y, m));
      AndZero(m);
      AndZero(y);
    } else {
      AndSwap(x / 2, y / 2, m / 2);
      AndStep(y, m);
      AndStep(x, And(y, m));
      AndStep(x, m);
      AndStep(And(x, m), y);
    }
  }

  /** The address field, whatever the address. */
  function Frame(pa: nat): (f: nat)
    ensures f == pa % PA_LIMIT - pa % PAGE_SIZE && f < PA_LIMIT && f % PAGE_SIZE == 0
  {
    FrameBits(pa);
    And(pa, ADDRESS_MASK)
  }

  lemma FrameBits(pa: nat)
    ensures And(pa, ADDRESS_MASK) == pa % PA_LIMIT - pa % PAGE_SIZE
    ensures (pa % PA_LIMIT - pa % PAGE_SIZE) % PAGE_SIZE == 0
  {
    hide And, OutputMask;
    OutputMaskValue(3);
    AndOutputMask(pa, 3);
    var q := pa % PA_LIMIT / PAGE_SIZE;
    assert pa == PAGE_SIZE * (0x10_0000_0000 * (pa / PA_LIMIT) + q) + pa % PA_LIMIT % PAGE_SIZE;
    ModUnique(pa, PAGE_SIZE, 0x10_0000_0000 * (pa / PA_LIMIT) + q, pa % PA_LIMIT % PAGE_SIZE);
  }

  /** A word without address bits and an address field do not overlap. */
  lemma AddFrame(low: nat, high: nat, pa: nat)
    requires low < PAGE_SIZE && high <= 1
    ensures Or(low + high * XN, Frame(pa)) == low + high * XN + Frame(pa)
  {
    hide And, Or, OutputMask;
    var x := low + high * XN;
    FrameBits(x);
    ModUnique(x, PA_LIMIT, 64 * high, low);
    ModUnique(x, PAGE_SIZE, 0x400_0000_0000 * high, low);
    AndSwap(x, pa, ADDRESS_MASK);
    AndZero(pa);
    OrAdd(x, Frame(pa));
  }

  lemma AndZero(x: nat)
    ensures And(0, x) == 0
  {
  }

  /** A page descriptor is the sum of its parts. */
  lemma PageWord(pa: nat, g: Grant)
    ensures EncodeL3(pa, g) == Frame(pa) + High(g) * XN + LowSum(g)
  {
    hide And, Or, LowWord, LowSum;
    LowWordSum(g);
    AddFrame(LowSum(g), High(g), pa);
  }

  /** The address field of such a sum, and its size. */
  lemma SumAddress(f: nat, high: nat, low: nat)
    requires f < PA_LIMIT && f % PAGE_SIZE == 0 && high <= 1 && low < PAGE_SIZE
    ensures var d := f + high * XN + low;
            d < U64_LIMIT && And(d, ADDRESS_MASK) == f && d / XN % 2 == high
  {
    hide And;
    var d := f + high * XN + low;
    FrameBits(d);
    assert f + low < PA_LIMIT;
    ModUnique(d, PA_LIMIT, 64 * high, f + low);
    SizeAligned(f, 3, high);
    ModUnique(d, PAGE_SIZE, (f + high * XN) / PAGE_SIZE, low);
    ModUnique(d, XN, high, f + low);
  }

  /** Every field of a page descriptor reads back as it was written: the type in bits 1:0, the memory
      type in 5:2, the access in 7:6, the shareability in 9:8, the access flag in 10, the frame in
      47:12, execute-never in 54, and nothing in any other bit. */
  lemma PageRoundTrip(pa: nat, g: Grant)
    ensures var d := EncodeL3(pa, g);
            && d < U64_LIMIT && d != 0 && IsValid(d) && IsTableOrPage(d) && d % 4 == 3
            && And(d, ADDRESS_MASK) == Frame(pa)
            && PageBitsAre(d, g)
            && d / PA_LIMIT == (if g.exec == ExecuteNever then 0x40 else 0)
            && (IsExecuteNever(d) <==> g.exec == ExecuteNever)
  {
    hide And, Or, Shr, IsValid, IsTableOrPage, IsExecuteNever, OutputMask, EncodeL3, LowSum, MemAttr, AccessCode,
      ShareCode;
    var d, low, high := EncodeL3(pa, g), LowSum(g), High(g);
    PageWord(pa, g);
    SumAddress(Frame(pa), high, low);
    SizeAligned(Frame(pa), 3, high);
    var p := Frame(pa) + high * XN;
    BitTests(d);
    PageOffset(p, low);
    PageFields(p, low);
    LowFields(p, low);
    UpperFlags(p, low);
    LowSumFields(g);
    ModUnique(d, PA_LIMIT, 0x40 * high, Frame(pa) + low);
  }

  /** The fields below the frame, as the architecture defines them. */
  predicate PageBitsAre(d: nat, g: Grant) {
    && d / 4 % 16 == (if g.kind == NormalWbWa then 15 else 1)
    && d / 64 % 4 == (match g.access case NoAccess => 0 case ReadOnly => 1 case WriteOnly => 2 case ReadWrite => 3)
    && d / 256 % 4 == (if g.kind == NormalWbWa then 3 else 0)
    && d / 0x400 % 2 == 1 && d / 0x800 % 2 == 0
  }

  lemma LowSumFields(g: Grant)
    ensures PageBitsAre(LowSum(g), g) && LowSum(g) % 4 == 3 && LowSum(g) % 2 == 1 && LowSum(g) / 2 % 2 == 1
  {
  }

  lemma PageValid(pa: nat, g: Grant)
    ensures IsValid(EncodeL3(pa, g))
  {
    hide IsValid, EncodeL3;
    PageRoundTrip(pa, g);
  }

  /** Descriptors are equal only if they grant the same and have the same frame. */
  lemma PageInjective(pa: nat, g: Grant, pa': nat, g': Grant)
    requires EncodeL3(pa, g) == EncodeL3(pa', g')
    ensures Frame(pa) == Frame(pa') && g == g'
  {
    hide EncodeL3, Frame, IsValid, IsTableOrPage, IsExecuteNever, And;
    PageRoundTrip(pa, g);
    PageRoundTrip(pa', g');
  }

  lemma TableEntryTests(pa: nat)
    requires pa % PAGE_SIZE == 0 && pa < PA_LIMIT
    ensures var d := TableEntry(pa);
            d < U64_LIMIT && d != 0 && IsValid(d) && IsTableOrPage(d) && And(d, ADDRESS_MASK) == pa
  {
    hide And, Or, IsValid, IsTableOrPage, TableDescriptor;
    FrameBits(pa);
    ModUnique(pa, PA_LIMIT, 0, pa);
    TypeBits();
    AddFrame(3, 0, pa);
    TableWord(pa);
    TableRoundTrip(pa);
  }
}
