/** Physical regions, their address sets, and lists of them in normal form. */
module Regions {
  import opened Bits
  import opened Descriptor
  import opened Wrappers

  datatype Region = Region(start: nat, size: nat) {
    function End(): nat { start + size }
    predicate Contains(a: nat) { start <= a < End() }
  }

  /** A region is never empty and its end is a 64-bit address. */
  type PhysRegion = r: Region | r.size > 0 && r.End() < U64_LIMIT
    witness Region(0, 1)

  function FromBounds(start: nat, end: nat): (r: Option<PhysRegion>)
    requires end < U64_LIMIT
    ensures r.Some? <==> start < end
    ensures r.Some? ==> forall a: nat :: r.value.Contains(a) <==> start <= a < end
  {
    if end <= start then None else Some(Region(start, end - start))
  }

  predicate Overlaps(a: PhysRegion, b: PhysRegion) {
    a.start < b.End() && b.start < a.End()
  }

  predicate IsAdjacent(a: PhysRegion, b: PhysRegion) {
    a.End() == b.start || b.End() == a.start
  }

  lemma OverlapIsShared(a: PhysRegion, b: PhysRegion)
    ensures Overlaps(a, b) <==> exists x: nat :: a.Contains(x) && b.Contains(x)
  {
    if Overlaps(a, b) {
      assert a.Contains(if a.start < b.start then b.start else a.start);
    }
  }

  // Page rounding, with the source's masks.

  const PAGE_BITS: nat := U64_LIMIT - PAGE_SIZE

  function PageAddress(x: nat): (r: nat)
    requires x < U64_LIMIT
    ensures r == x - x % PAGE_SIZE
  {
    ClearLowBits(x);
    And(x, PAGE_BITS)
  }

  function AlignUp(x: nat): (r: Option<nat>)
    requires x < U64_LIMIT
    ensures r.Some? <==> x <= U64_LIMIT - PAGE_SIZE
    ensures r.Some? ==> r.value % PAGE_SIZE == 0 && x <= r.value < x + PAGE_SIZE && r.value < U64_LIMIT
  {
    if x + PAGE_SIZE - 1 >= U64_LIMIT then None
    else
      ClearLowBits(x + PAGE_SIZE - 1);
      Some(And(x + PAGE_SIZE - 1, PAGE_BITS))
  }

  lemma ClearLowBits(x: nat)
    requires x < U64_LIMIT
    ensures And(x, PAGE_BITS) == x - x % PAGE_SIZE
  {
    hide And, Low, Shl;
    ShiftOne();
    Shift12(x);
    Shift64(x);
    AndField(x, 12, 64);
  }

  // Lists.

  predicate Covers(s: seq<PhysRegion>, a: nat) {
    exists k :: 0 <= k < |s| && s[k].Contains(a)
  }

  /** Sorted, with at least one uncovered address between neighbours. */
  predicate Normalized(s: seq<PhysRegion>) {
    forall i, j | 0 <= i < j < |s| :: s[i].End() < s[j].start
  }

  ghost predicate SameCover(s: seq<PhysRegion>, t: seq<PhysRegion>) {
    forall a: nat :: Covers(s, a) <==> Covers(t, a)
  }

  lemma CoversAt(s: seq<PhysRegion>, k: nat, a: nat)
    requires k < |s| && s[k].Contains(a)
    ensures Covers(s, a)
  {
  }

  /** The normal form is unique: lists that cover the same addresses are equal. */
  lemma {:induction false} NormalFormUnique(s: seq<PhysRegion>, t: seq<PhysRegion>)
    requires Normalized(s) && Normalized(t) && SameCover(s, t)
    ensures s == t
    decreases |s|
  {
    if s == [] {
      if t != [] {
        CoversAt(t, 0, t[0].start);
      }
    } else {
      CoversAt(s, 0, s[0].start);
      FirstAgrees(s, t);
      FirstAgrees(t, s);
      assert s[0] == t[0];
      TailCover(s, t);
      NormalFormUnique(s[1..], t[1..]);
      assert s == [s[0]] + s[1..];
      assert t == [t[0]] + t[1..];
    }
  }

  /** The first region of one list starts and ends no later than that of the other. */
  lemma FirstAgrees(s: seq<PhysRegion>, t: seq<PhysRegion>)
    requires Normalized(s) && Normalized(t) && SameCover(s, t) && s != [] && t != []
    ensures s[0].start <= t[0].start
    ensures s[0].start == t[0].start ==> s[0].End() <= t[0].End()
  {
    CoversAt(t, 0, t[0].start);
    if s[0].start == t[0].start && s[0].End() > t[0].End() {
      CoversAt(s, 0, t[0].End());
    }
  }

  lemma TailCover(s: seq<PhysRegion>, t: seq<PhysRegion>)
    requires Normalized(s) && Normalized(t) && SameCover(s, t) && s != [] && t != [] && s[0] == t[0]
    ensures SameCover(s[1..], t[1..])
  {
    forall a: nat
      ensures Covers(s[1..], a) <==> Covers(t[1..], a)
    {
      TailCovers(s, a);
      TailCovers(t, a);
    }
  }

  lemma TailCovers(s: seq<PhysRegion>, a: nat)
    requires Normalized(s) && s != []
    ensures Covers(s[1..], a) <==> Covers(s, a) && !s[0].Contains(a)
  {
    if Covers(s[1..], a) {
      var k :| 0 <= k < |s[1..]| && s[1..][k].Contains(a);
      assert s[k + 1].Contains(a);
    }
    if Covers(s, a) && !s[0].Contains(a) {
      var k :| 0 <= k < |s| && s[k].Contains(a);
      assert s[1..][k - 1].Contains(a);
    }
  }
}
