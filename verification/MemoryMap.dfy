/** The physical memory map: normalized region lists and the usable RAM derived from them. */
module MemoryMaps {
  import opened Wrappers
  import opened Regions
  import opened FixedLists

  datatype MemoryMapError = Capacity(capacity: nat) | RamMmioConflict(ram: PhysRegion, mmio: PhysRegion)

  predicate Touches(a: PhysRegion, b: PhysRegion) {
    Overlaps(a, b) || IsAdjacent(a, b)
  }

  function MergeRegions(a: PhysRegion, b: PhysRegion): (r: PhysRegion)
    ensures Touches(a, b) ==> forall x: nat :: r.Contains(x) <==> a.Contains(x) || b.Contains(x)
    ensures r.start == if a.start < b.start then a.start else b.start
    ensures r.End() == if a.End() > b.End() then a.End() else b.End()
  {
    var start := if a.start < b.start then a.start else b.start;
    var end := if a.End() > b.End() then a.End() else b.End();
    FromBounds(start, end).value
  }

  /** `t` covers what `s` covers and `region` besides. */
  ghost predicate Adds(s: seq<PhysRegion>, region: PhysRegion, t: seq<PhysRegion>) {
    forall a: nat :: Covers(t, a) <==> Covers(s, a) || region.Contains(a)
  }

  /** `t` is the normal form of `s` with `region` added. */
  ghost predicate Inserted(s: seq<PhysRegion>, region: PhysRegion, t: seq<PhysRegion>) {
    Normalized(t) && Adds(s, region, t)
  }

  // Merging a region into a list, on values.

  /** Normal form, except that entry `at` may reach into its successors. */
  predicate Almost(s: seq<PhysRegion>, at: nat) {
    && at < |s|
    && (forall i, j | 0 <= i < j < |s| && i != at :: s[i].End() < s[j].start)
    && (forall j | at < j < |s| :: s[at].start <= s[j].start)
  }

  /** Growing the entry that `region` touches. */
  lemma GrowEntry(s: seq<PhysRegion>, at: nat, region: PhysRegion)
    requires Normalized(s) && at < |s| && Touches(s[at], region)
    requires forall i | 0 <= i < at :: s[i].End() < region.start
    ensures Almost(s[at := MergeRegions(s[at], region)], at)
    ensures Adds(s, region, s[at := MergeRegions(s[at], region)])
  {
    var t := s[at := MergeRegions(s[at], region)];
    forall a: nat
      ensures Covers(t, a) <==> Covers(s, a) || region.Contains(a)
    {
      if Covers(s, a) {
        var k :| 0 <= k < |s| && s[k].Contains(a);
        assert t[k].Contains(a);
      }
      if region.Contains(a) {
        assert t[at].Contains(a);
      }
      if Covers(t, a) {
        var k :| 0 <= k < |t| && t[k].Contains(a);
        assert k != at ==> s[k].Contains(a);
        assert k == at ==> s[at].Contains(a) || region.Contains(a);
      }
    }
  }

  /** The list with the successor of entry `at` folded into it. */
  function Fold(s: seq<PhysRegion>, at: nat): (u: seq<PhysRegion>)
    requires at + 1 < |s|
    ensures |u| == |s| - 1
    ensures forall k | 0 <= k < |u| ::
              u[k] == if k < at then s[k] else if k == at then MergeRegions(s[at], s[at + 1]) else s[k + 1]
  {
    var t := s[at := MergeRegions(s[at], s[at + 1])];
    t[..at + 1] + t[at + 2..]
  }

  lemma FoldShape(s: seq<PhysRegion>, at: nat)
    requires Almost(s, at) && at + 1 < |s|
    ensures Almost(Fold(s, at), at)
  {
    hide MergeRegions;
  }

  lemma FoldCover(s: seq<PhysRegion>, at: nat)
    requires at + 1 < |s| && Touches(s[at], s[at + 1])
    ensures SameCover(s, Fold(s, at))
  {
    hide MergeRegions, Touches;
    var u := Fold(s, at);
    forall a: nat
      ensures Covers(s, a) <==> Covers(u, a)
    {
      if Covers(s, a) {
        var k :| 0 <= k < |s| && s[k].Contains(a);
        assert u[if k <= at then k else k - 1].Contains(a);
      }
      if Covers(u, a) {
        var k :| 0 <= k < |u| && u[k].Contains(a);
        assert k < at ==> s[k].Contains(a);
        assert k == at ==> s[at].Contains(a) || s[at + 1].Contains(a);
        assert k > at ==> s[k + 1].Contains(a);
      }
    }
  }

  lemma FoldDone(s: seq<PhysRegion>, at: nat)
    requires Almost(s, at) && (at + 1 < |s| ==> !Touches(s[at], s[at + 1]))
    ensures Normalized(s)
  {
  }

  lemma AddsThen(s: seq<PhysRegion>, region: PhysRegion, t: seq<PhysRegion>, u: seq<PhysRegion>)
    requires Adds(s, region, t) && SameCover(t, u)
    ensures Adds(s, region, u)
  {
  }

  lemma SameCoverSelf(s: seq<PhysRegion>)
    ensures SameCover(s, s)
  {
  }

  lemma SameCoverTrans(s: seq<PhysRegion>, t: seq<PhysRegion>, u: seq<PhysRegion>)
    requires SameCover(s, t) && SameCover(t, u)
    ensures SameCover(s, u)
  {
  }

  /** `index` is where `region` belongs in the order of starts. */
  predicate Position(s: seq<PhysRegion>, region: PhysRegion, index: nat) {
    && index <= |s|
    && (forall k | 0 <= k < index :: s[k].start < region.start)
    && (index < |s| ==> region.start <= s[index].start)
  }

  /** Only the two neighbours of its position need looking at. */
  lemma Neighbours(s: seq<PhysRegion>, region: PhysRegion, index: nat)
    requires Normalized(s) && Position(s, region, index)
    ensures forall i | 0 <= i < index - 1 :: s[i].End() < region.start
    ensures index > 0 && !Touches(s[index - 1], region) ==> forall i | 0 <= i < index :: s[i].End() < region.start
    ensures index < |s| && !Touches(s[index], region) ==> forall i | index <= i < |s| :: region.End() < s[i].start
    ensures (forall i | 0 <= i < index :: s[i].End() < region.start)
            && (forall i | index <= i < |s| :: region.End() < s[i].start)
            ==> forall k | 0 <= k < |s| :: !Touches(s[k], region)
  {
    assert index > 1 ==> forall i | 0 <= i < index - 1 :: s[i].End() < s[index - 1].start;
    assert index < |s| ==> forall i | index < i < |s| :: s[index].End() < s[i].start;
  }

  lemma NewEntry(s: seq<PhysRegion>, at: nat, region: PhysRegion)
    requires Normalized(s) && at <= |s|
    requires forall i | 0 <= i < at :: s[i].End() < region.start
    requires forall i | at <= i < |s| :: region.End() < s[i].start
    ensures Inserted(s, region, s[..at] + [region] + s[at..])
  {
    hide Covers;
    var t := s[..at] + [region] + s[at..];
    forall i, j | 0 <= i < j < |t|
      ensures t[i].End() < t[j].start
    {
      assert t[i] == if i < at then s[i] else if i == at then region else s[i - 1];
      assert t[j] == if j < at then s[j] else if j == at then region else s[j - 1];
    }
    forall a: nat
      ensures Covers(t, a) <==> Covers(s, a) || region.Contains(a)
    {
      NewEntryCovers(s, at, region, t, a);
    }
  }

  lemma NewEntryCovers(s: seq<PhysRegion>, at: nat, region: PhysRegion, t: seq<PhysRegion>, a: nat)
    requires at <= |s| && t == s[..at] + [region] + s[at..]
    ensures Covers(t, a) <==> Covers(s, a) || region.Contains(a)
  {
    if Covers(s, a) {
      var k :| 0 <= k < |s| && s[k].Contains(a);
      assert t[if k < at then k else k + 1].Contains(a);
    }
    if region.Contains(a) {
      assert t[at].Contains(a);
    }
    if Covers(t, a) {
      var k :| 0 <= k < |t| && t[k].Contains(a);
      assert k < at ==> s[k].Contains(a);
      assert k > at ==> s[k - 1].Contains(a);
    }
  }

  // The in-place forms.

  /** Fold successors into entry `at` until the next one stands clear. */
  method Absorb(list: FixedList<PhysRegion>, at: nat)
    requires list.Valid() && at < list.len && Almost(list.Contents(), at)
    modifies list, list.entries
    ensures list.Valid() && Normalized(list.Contents()) && SameCover(old(list.Contents()), list.Contents())
  {
    hide SameCover, Covers, MergeRegions, Almost, Normalized, Touches;
    SameCoverSelf(list.Contents());
    var next := at + 1;
    while next < list.len
      invariant list.Valid() && at < list.len && Almost(list.Contents(), at)
      invariant SameCover(old(list.Contents()), list.Contents())
      decreases list.len
    {
      var previous := list.Get(next - 1);
      var current := list.Get(next);
      if !Touches(previous.value, current.value) {
        FoldDone(list.Contents(), at);
        return;
      }
      ghost var s := list.Contents();
      FoldShape(s, at);
      FoldCover(s, at);
      SameCoverTrans(old(list.Contents()), s, Fold(s, at));
      list.Set(next - 1, MergeRegions(previous.value, current.value));
      var _ := list.Remove(next);
    }
    FoldDone(list.Contents(), at);
  }

  method GrowAndAbsorb(list: FixedList<PhysRegion>, at: nat, region: PhysRegion) returns (r: Result<(), MemoryMapError>)
    requires list.Valid() && Normalized(list.Contents()) && at < list.len && Touches(list.Contents()[at], region)
    requires forall i | 0 <= i < at :: list.Contents()[i].End() < region.start
    modifies list, list.entries
    ensures list.Valid() && r == Ok(()) && Inserted(old(list.Contents()), region, list.Contents())
  {
    hide Covers, Normalized, Adds, SameCover, MergeRegions, Touches, Almost;
    ghost var s := list.Contents();
    GrowEntry(s, at, region);
    var entry := list.Get(at);
    list.Set(at, MergeRegions(entry.value, region));
    ghost var t := list.Contents();
    Absorb(list, at);
    AddsThen(s, region, t, list.Contents());
    return Ok(());
  }

  /** The list is full and no entry can absorb the region. */
  predicate NoRoom(s: seq<PhysRegion>, capacity: nat, region: PhysRegion) {
    |s| == capacity && forall k | 0 <= k < |s| :: !Touches(s[k], region)
  }

  method InsertSortedMerged(list: FixedList<PhysRegion>, region: PhysRegion) returns (r: Result<(), MemoryMapError>)
    requires list.Valid() && Normalized(list.Contents())
    modifies list, list.entries
    ensures list.Valid() && Normalized(list.Contents())
    ensures r == if NoRoom(old(list.Contents()), list.entries.Length, region) then Err(Capacity(list.entries.Length))
                 else Ok(())
    ensures r.Ok? ==> Inserted(old(list.Contents()), region, list.Contents())
    ensures r.Err? ==> list.Contents() == old(list.Contents())
  {
    hide Covers, Normalized, Adds, SameCover, MergeRegions, Touches, Almost;
    ghost var s := list.Contents();
    var index := 0;
    while index < list.len && list.entries[index].value.start < region.start
      invariant 0 <= index <= list.len
      invariant forall k | 0 <= k < index :: s[k].start < region.start
    {
      index := index + 1;
    }
    Neighbours(s, region, index);
    if index > 0 {
      var prev := list.Get(index - 1);
      if Touches(prev.value, region) {
        r := GrowAndAbsorb(list, index - 1, region);
        return;
      }
    }
    if index < list.len {
      var current := list.Get(index);
      if Touches(current.value, region) {
        r := GrowAndAbsorb(list, index, region);
        return;
      }
    }
    NewEntry(s, index, region);
    var ok := list.Insert(index, region);
    return if ok then Ok(()) else Err(Capacity(list.entries.Length));
  }

  // Runs of insertions.

  /** `states` are the lists met while inserting `regions` one after another into an empty list. */
  ghost predicate InsertionRun(states: seq<seq<PhysRegion>>, regions: seq<PhysRegion>) {
    && |states| == |regions| + 1 && states[0] == []
    && forall k | 0 <= k < |regions| :: Inserted(states[k], regions[k], states[k + 1])
  }

  lemma {:induction false} RunCovers(states: seq<seq<PhysRegion>>, regions: seq<PhysRegion>, n: nat)
    requires InsertionRun(states, regions) && n <= |regions|
    ensures Normalized(states[n])
    ensures forall a: nat :: Covers(states[n], a) <==> Covers(regions[..n], a)
  {
    if n > 0 {
      RunCovers(states, regions, n - 1);
      assert Inserted(states[n - 1], regions[n - 1], states[n]);
      forall a: nat
        ensures Covers(regions[..n], a) <==> Covers(regions[..n - 1], a) || regions[n - 1].Contains(a)
      {
        CoversSnoc(regions[..n - 1], regions[n - 1], a);
        assert regions[..n] == regions[..n - 1] + [regions[n - 1]];
      }
    }
  }

  lemma CoversSnoc(s: seq<PhysRegion>, r: PhysRegion, a: nat)
    ensures Covers(s + [r], a) <==> Covers(s, a) || r.Contains(a)
  {
    if Covers(s, a) {
      var k :| 0 <= k < |s| && s[k].Contains(a);
      assert (s + [r])[k].Contains(a);
    }
    if r.Contains(a) {
      assert (s + [r])[|s|].Contains(a);
    }
  }

  /** Any two successful insertion orders of the same regions leave the identical list. */
  lemma OrderIndependence(s: seq<seq<PhysRegion>>, rs: seq<PhysRegion>, t: seq<seq<PhysRegion>>, qs: seq<PhysRegion>)
    requires InsertionRun(s, rs) && InsertionRun(t, qs)
    requires forall r: PhysRegion :: r in rs <==> r in qs
    ensures s[|rs|] == t[|qs|]
  {
    RunCovers(s, rs, |rs|);
    RunCovers(t, qs, |qs|);
    assert rs[..|rs|] == rs && qs[..|qs|] == qs;
    forall a: nat
      ensures Covers(rs, a) <==> Covers(qs, a)
    {
      SameMembersCover(rs, qs, a);
      SameMembersCover(qs, rs, a);
    }
    NormalFormUnique(s[|rs|], t[|qs|]);
  }

  lemma SameMembersCover(rs: seq<PhysRegion>, qs: seq<PhysRegion>, a: nat)
    requires forall r: PhysRegion :: r in rs ==> r in qs
    ensures Covers(rs, a) ==> Covers(qs, a)
  {
    if Covers(rs, a) {
      var k :| 0 <= k < |rs| && rs[k].Contains(a);
      assert rs[k] in qs;
    }
  }
}
