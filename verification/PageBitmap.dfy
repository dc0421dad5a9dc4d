/** A packed page bitmap with its cached count of set bits. */
module PageBitmaps {

  // Bits of a byte.

  /** `1 << k`. */
  function Mask(k: nat): bv8
    requires k < 8
  {
    if k == 0 then 0x01 else if k == 1 then 0x02 else if k == 2 then 0x04 else if k == 3 then 0x08
    else if k == 4 then 0x10 else if k == 5 then 0x20 else if k == 6 then 0x40 else 0x80
  }

  lemma MaskIsShift(k: nat)
    requires k < 8
    ensures Mask(k) == (1 as bv8) << k
  {
  }

  predicate Bit(b: bv8, k: nat)
    requires k < 8
  {
    b & Mask(k) != 0
  }

  function WriteBit(b: bv8, k: nat, value: bool): bv8
    requires k < 8
  {
    if value then b | Mask(k) else b & !Mask(k)
  }

  /** Writing a bit sets that bit and no other. */
  lemma BitWritten(b: bv8, k: nat, j: nat, value: bool)
    requires k < 8 && j < 8
    ensures Bit(WriteBit(b, k, value), j) <==> if j == k then value else Bit(b, j)
  {
    hide Mask;
    MaskBits(b, Mask(k), Mask(j));
    MaskValues(k, j);
  }

  lemma MaskValues(k: nat, j: nat)
    requires k < 8 && j < 8
    ensures k == j ==> Mask(k) == Mask(j) && Mask(k) != 0
    ensures k != j ==> Mask(k) & Mask(j) == 0
  {
  }

  lemma MaskBits(b: bv8, m: bv8, n: bv8)
    ensures m & n == 0 ==> (b | m) & n == b & n && (b & !m) & n == b & n
    ensures (b | m) & m == m && (b & !m) & m == 0
  {
  }

  // Bytes as a set of indices.

  predicate IsSet(bytes: seq<bv8>, index: nat)
    requires index < |bytes| * 8
  {
    Bit(bytes[index / 8], index % 8)
  }

  ghost function Indices(bytes: seq<bv8>): set<nat> {
    set index: nat | 0 <= index < |bytes| * 8 && IsSet(bytes, index)
  }

  lemma IndexWritten(bytes: seq<bv8>, index: nat, value: bool)
    requires index < |bytes| * 8
    ensures var byte: bv8 := WriteBit(bytes[index / 8], index % 8, value);
            Indices(bytes[index / 8 := byte]) == if value then Indices(bytes) + {index} else Indices(bytes) - {index}
  {
    var byte: bv8 := WriteBit(bytes[index / 8], index % 8, value);
    var bytes' := bytes[index / 8 := byte];
    forall j: nat | j < |bytes| * 8
      ensures IsSet(bytes', j) <==> if j == index then value else IsSet(bytes, j)
    {
      if j / 8 == index / 8 {
        BitWritten(bytes[index / 8], index % 8, j % 8, value);
      }
    }
  }

  class PageBitmap {
    const bits: array<bv8>
    var setPages: nat

    /** The cached count is the number of set bits. */
    ghost predicate Valid()
      reads this, bits
    {
      setPages == |Indices(bits[..])|
    }

    ghost function Set(): set<nat>
      reads bits
    {
      Indices(bits[..])
    }

    constructor (bytes: nat)
      ensures Valid() && fresh(bits) && bits.Length == bytes && Set() == {}
    {
      bits := new bv8[bytes](_ => 0);
      setPages := 0;
      new;
      assert Indices(bits[..]) == {};
    }

    predicate IsSet(index: nat)
      requires index < bits.Length * 8
      reads this, bits
      ensures IsSet(index) <==> index in Set()
    {
      Bit(bits[index / 8], index % 8)
    }

    method Clear()
      modifies this, bits
      ensures Valid() && Set() == {}
    {
      for i := 0 to bits.Length
        invariant forall k | 0 <= k < i :: bits[k] == 0
      {
        bits[i] := 0;
      }
      setPages := 0;
      assert Indices(bits[..]) == {};
    }

    method SetBit(index: nat, value: bool)
      requires Valid() && index < bits.Length * 8
      modifies this, bits
      ensures Valid()
      ensures Set() == if value then old(Set()) + {index} else old(Set()) - {index}
    {
      var before := IsSet(index);
      if before == value {
        return;
      }
      IndexWritten(bits[..], index, value);
      ghost var s := bits[..];
      bits[index / 8] := WriteBit(bits[index / 8], index % 8, value);
      assert bits[..] == s[index / 8 := bits[index / 8]];
      setPages := if value then setPages + 1 else setPages - 1;
    }
  }
}
