/** RAM minus reservations: what `finalize` leaves in the usable list. */
module UsableRam {
  import opened Wrappers
  import opened Regions
  import opened FixedLists
  import opened MemoryMaps

  const MAX_RAM_REGIONS: nat := 8
  const MAX_MMIO_REGIONS: nat := 64
  const MAX_RESERVED_REGIONS: nat := 192
  const MAX_USABLE_RAM_REGIONS: nat := MAX_RAM_REGIONS + MAX_RESERVED_REGIONS

  /** The pieces of `ram` at or above `cursor` that the reservations from `j` on leave. */
  function PiecesFrom(ram: PhysRegion, reserved: seq<PhysRegion>, j: nat, cursor: nat): seq<PhysRegion>
    requires j <= |reserved| && cursor < ram.End()
    decreases |reserved| - j
  {
    if j == |reserved| then [FromBounds(cursor, ram.End()).value]
    else if reserved[j].End() <= cursor || reserved[j].start >= ram.End() then PiecesFrom(ram, reserved, j + 1, cursor)
    else
      (if reserved[j].start > cursor then [FromBounds(cursor, reserved[j].start).value] else [])
      + (if reserved[j].End() >= ram.End() then [] else PiecesFrom(ram, reserved, j + 1, reserved[j].End()))
  }

  /** How the pieces unfold at reservation `j`. */
  lemma PiecesStep(ram: PhysRegion, reserved: seq<PhysRegion>, j: nat, cursor: nat, out: seq<PhysRegion>)
    requires j < |reserved| && cursor < ram.End()
    ensures reserved[j].End() <= cursor || reserved[j].start >= ram.End() ==>
              PiecesFrom(ram, reserved, j, cursor) == PiecesFrom(ram, reserved, j + 1, cursor)
    ensures cursor < reserved[j].End() && reserved[j].start < ram.End() ==>
              var out' := if reserved[j].start > cursor then out + [Region(cursor, reserved[j].start - cursor)]
                else out;
              out + PiecesFrom(ram, reserved, j, cursor)
                == if reserved[j].End() >= ram.End() then out'
                  else out' + PiecesFrom(ram, reserved, j + 1, reserved[j].End())
  {
  }

  function Pieces(ram: PhysRegion, reserved: seq<PhysRegion>): seq<PhysRegion> {
    PiecesFrom(ram, reserved, 0, ram.start)
  }

  /** All pieces lie within `[lo, hi]`. */
  predicate Within(s: seq<PhysRegion>, lo: nat, hi: nat) {
    forall k | 0 <= k < |s| :: lo <= s[k].start && s[k].End() <= hi
  }

  lemma {:induction false} PiecesFromCorrect(ram: PhysRegion, reserved: seq<PhysRegion>, j: nat, cursor: nat)
    requires Normalized(reserved) && j <= |reserved| && cursor < ram.End()
    requires forall k | 0 <= k < j :: reserved[k].End() <= cursor || reserved[k].start >= ram.End()
    ensures Normalized(PiecesFrom(ram, reserved, j, cursor))
    ensures Within(PiecesFrom(ram, reserved, j, cursor), cursor, ram.End())
    ensures forall a: nat :: Covers(PiecesFrom(ram, reserved, j, cursor), a)
                        <==> cursor <= a < ram.End() && !Covers(reserved, a)
    decreases |reserved| - j
  {
    if j == |reserved| {
      var p := [FromBounds(cursor, ram.End()).value];
      forall a: nat
        ensures Covers(p, a) <==> cursor <= a < ram.End() && !Covers(reserved, a)
      {
        assert p[0].Contains(a) <==> cursor <= a < ram.End();
      }
    } else if reserved[j].End() <= cursor || reserved[j].start >= ram.End() {
      PiecesFromCorrect(ram, reserved, j + 1, cursor);
    } else {
      var head := if reserved[j].start > cursor then [FromBounds(cursor, reserved[j].start).value] else [];
      var tail: seq<PhysRegion> := [];
      if reserved[j].End() < ram.End() {
        PiecesFromCorrect(ram, reserved, j + 1, reserved[j].End());
        tail := PiecesFrom(ram, reserved, j + 1, reserved[j].End());
      }
      Split(ram, reserved, j, cursor, head, tail);
    }
  }

  /** One reservation splits the rest of `ram` into what comes before it and what comes after. */
  lemma Split(
    ram: PhysRegion, reserved: seq<PhysRegion>, j: nat, cursor: nat, head: seq<PhysRegion>, tail: seq<PhysRegion>)
    requires Normalized(reserved) && j < |reserved| && cursor < ram.End()
    requires cursor < reserved[j].End() && reserved[j].start < ram.End()
    requires forall k | 0 <= k < j :: reserved[k].End() <= cursor || reserved[k].start >= ram.End()
    requires head == if reserved[j].start > cursor then [Region(cursor, reserved[j].start - cursor)] else []
    requires Normalized(tail) && Within(tail, reserved[j].End(), ram.End())
    requires forall a: nat :: Covers(tail, a) <==> reserved[j].End() <= a < ram.End() && !Covers(reserved, a)
    ensures Normalized(head + tail) && Within(head + tail, cursor, ram.End())
    ensures forall a: nat :: Covers(head + tail, a) <==> cursor <= a < ram.End() && !Covers(reserved, a)
  {
    forall a: nat
      ensures Covers(head + tail, a) <==> cursor <= a < ram.End() && !Covers(reserved, a)
    {
      CoversConcat(head, tail, a);
      if cursor <= a < ram.End() && a < reserved[j].End() {
        SplitAt(reserved, j, cursor, ram.End(), a);
      }
      assert |head| == 1 ==> (head[0].Contains(a) <==> cursor <= a < reserved[j].start);
    }
  }

  /** Below the end of reservation `j`, only that reservation matters. */
  lemma SplitAt(reserved: seq<PhysRegion>, j: nat, cursor: nat, end: nat, a: nat)
    requires Normalized(reserved) && j < |reserved|
    requires forall k | 0 <= k < j :: reserved[k].End() <= cursor || reserved[k].start >= end
    requires cursor <= a < end && a < reserved[j].End()
    ensures Covers(reserved, a) <==> reserved[j].start <= a
  {
    if reserved[j].start <= a {
      CoversAt(reserved, j, a);
    }
  }

  lemma CoversConcat(s: seq<PhysRegion>, t: seq<PhysRegion>, a: nat)
    ensures Covers(s + t, a) <==> Covers(s, a) || Covers(t, a)
  {
    if Covers(s, a) {
      var k :| 0 <= k < |s| && s[k].Contains(a);
      CoversAt(s + t, k, a);
    }
    if Covers(t, a) {
      var k :| 0 <= k < |t| && t[k].Contains(a);
      CoversAt(s + t, |s| + k, a);
    }
    if Covers(s + t, a) {
      var k :| 0 <= k < |s + t| && (s + t)[k].Contains(a);
      assert k < |s| ==> s[k].Contains(a);
      assert k >= |s| ==> t[k - |s|].Contains(a);
    }
  }

  // How many pieces there are.

  /** The number of regions that start below `x`. */
  function Below(s: seq<PhysRegion>, x: nat): (n: nat)
    ensures n <= |s|
  {
    if s == [] then 0 else (if s[0].start < x then 1 else 0) + Below(s[1..], x)
  }

  lemma {:induction false} BelowMonotone(s: seq<PhysRegion>, x: nat, y: nat)
    requires x <= y
    ensures Below(s, x) <= Below(s, y)
  {
    if s != [] {
      BelowMonotone(s[1..], x, y);
    }
  }

  /** A piece more than one costs a reservation that starts inside the RAM region. */
  lemma {:induction false} PiecesCount(ram: PhysRegion, reserved: seq<PhysRegion>, j: nat, cursor: nat)
    requires j <= |reserved| && ram.start <= cursor < ram.End()
    ensures |PiecesFrom(ram, reserved, j, cursor)| + Below(reserved[j..], ram.start)
         <= 1 + Below(reserved[j..], ram.End())
    decreases |reserved| - j
  {
    BelowMonotone(reserved[j..], ram.start, ram.End());
    if j < |reserved| {
      assert reserved[j..][0] == reserved[j] && reserved[j..][1..] == reserved[j + 1..];
      BelowMonotone(reserved[j + 1..], ram.start, ram.End());
      if reserved[j].End() <= cursor || reserved[j].start >= ram.End() {
        PiecesCount(ram, reserved, j + 1, cursor);
      } else if reserved[j].End() < ram.End() {
        PiecesCount(ram, reserved, j + 1, reserved[j].End());
      }
    }
  }

  /** The pieces of every RAM region, in order. */
  function AllPieces(rams: seq<PhysRegion>, reserved: seq<PhysRegion>): seq<PhysRegion> {
    if rams == [] then [] else AllPieces(rams[..|rams| - 1], reserved) + Pieces(rams[|rams| - 1], reserved)
  }

  /** Exactly RAM minus reservations, in normal form, in at most |ram| + |reserved| pieces. */
  lemma {:induction false} AllPiecesCorrect(rams: seq<PhysRegion>, reserved: seq<PhysRegion>)
    requires Normalized(rams) && Normalized(reserved)
    ensures Normalized(AllPieces(rams, reserved))
    ensures forall a: nat :: Covers(AllPieces(rams, reserved), a) <==> Covers(rams, a) && !Covers(reserved, a)
    ensures rams != [] ==> Within(AllPieces(rams, reserved), 0, rams[|rams| - 1].End())
    ensures |AllPieces(rams, reserved)| <= |rams| + |reserved|
  {
    AllPiecesCount(rams, reserved);
    if rams != [] {
      var init, last := rams[..|rams| - 1], rams[|rams| - 1];
      AllPiecesCorrect(init, reserved);
      PiecesFromCorrect(last, reserved, 0, last.start);
      assert rams == init + [last];
      forall a: nat
        ensures Covers(AllPieces(rams, reserved), a) <==> Covers(rams, a) && !Covers(reserved, a)
      {
        CoversConcat(AllPieces(init, reserved), Pieces(last, reserved), a);
        CoversSnoc(init, last, a);
      }
      assert init != [] ==> init[|init| - 1].End() < last.start;
    }
  }

  lemma {:induction false} AllPiecesCount(rams: seq<PhysRegion>, reserved: seq<PhysRegion>)
    requires Normalized(rams)
    ensures |AllPieces(rams, reserved)| <= |rams| + |reserved|
    ensures rams != [] ==> |AllPieces(rams, reserved)| <= |rams| + Below(reserved, rams[|rams| - 1].End())
  {
    if rams != [] {
      var init, last := rams[..|rams| - 1], rams[|rams| - 1];
      AllPiecesCount(init, reserved);
      PiecesCount(last, reserved, 0, last.start);
      assert reserved[0..] == reserved;
      if init != [] {
        BelowMonotone(reserved, init[|init| - 1].End(), last.start);
      }
    }
  }

  // The in-place forms.

  /** Append the pieces of `ram`; fails exactly when they do not fit. */
  method SubtractAll(ram: PhysRegion, reserved: FixedList<PhysRegion>, output: FixedList<PhysRegion>)
    returns (r: Result<(), MemoryMapError>)
    requires reserved.Valid() && output.Valid() && reserved != output && reserved.entries != output.entries
    modifies output, output.entries
    ensures output.Valid() && reserved.Valid()
    ensures r == if old(output.len) + |Pieces(ram, reserved.Contents())| <= output.entries.Length then Ok(())
                 else Err(Capacity(output.entries.Length))
    ensures r.Ok? ==> output.Contents() == old(output.Contents()) + Pieces(ram, reserved.Contents())
  {
    hide PiecesFrom;
    ghost var res, all := reserved.Contents(), output.Contents() + Pieces(ram, reserved.Contents());
    var cursor: nat := ram.start;
    for j := 0 to reserved.len
      invariant reserved.Valid() && output.Valid() && reserved.Contents() == res && cursor < ram.End()
      invariant all == output.Contents() + PiecesFrom(ram, res, j, cursor)
    {
      PiecesStep(ram, res, j, cursor, output.Contents());
      var entry := reserved.Get(j);
      var reservation := entry.value;
      if reservation.End() <= cursor || reservation.start >= ram.End() {
        continue;
      }
      if reservation.start > cursor {
        var ok := output.Push(FromBounds(cursor, reservation.start).value);
        if !ok {
          return Err(Capacity(output.entries.Length));
        }
      }
      if reservation.End() >= ram.End() {
        return Ok(());
      }
      cursor := reservation.End();
    }
    // The cursor never reaches the end, so the last piece is never empty.
    LastPiece(ram, res, cursor);
    var ok := output.Push(FromBounds(cursor, ram.End()).value);
    return if ok then Ok(()) else Err(Capacity(output.entries.Length));
  }

  lemma LastPiece(ram: PhysRegion, reserved: seq<PhysRegion>, cursor: nat)
    requires cursor < ram.End()
    ensures PiecesFrom(ram, reserved, |reserved|, cursor) == [FromBounds(cursor, ram.End()).value]
  {
  }

  predicate Disjoint(rams: seq<PhysRegion>, mmios: seq<PhysRegion>) {
    forall i, j | 0 <= i < |rams| && 0 <= j < |mmios| :: !Overlaps(rams[i], mmios[j])
  }

  /** Lists that share no storage. */
  predicate Apart(a: FixedList<PhysRegion>, b: FixedList<PhysRegion>) {
    a != b && a.entries != b.entries
  }

  class MemoryMap {
    const ram: FixedList<PhysRegion>
    const reserved: FixedList<PhysRegion>
    const mmio: FixedList<PhysRegion>
    const usable: FixedList<PhysRegion>

    ghost predicate Valid()
      reads this, ram, reserved, mmio, usable, ram.entries, reserved.entries, mmio.entries, usable.entries
    {
      && Apart(ram, reserved) && Apart(ram, mmio) && Apart(ram, usable)
      && Apart(reserved, mmio) && Apart(reserved, usable) && Apart(mmio, usable)
      && ram.Valid() && reserved.Valid() && mmio.Valid() && usable.Valid()
      && ram.entries.Length == MAX_RAM_REGIONS && reserved.entries.Length == MAX_RESERVED_REGIONS
      && mmio.entries.Length == MAX_MMIO_REGIONS && usable.entries.Length == MAX_USABLE_RAM_REGIONS
      && Normalized(ram.Contents()) && Normalized(reserved.Contents()) && Normalized(mmio.Contents())
    }

    /** Usable RAM is exactly RAM minus reservations, in normal form, and no RAM is MMIO. */
    ghost predicate Finalized()
      reads this, ram, reserved, mmio, usable, ram.entries, reserved.entries, mmio.entries, usable.entries
    {
      && Valid() && Normalized(usable.Contents()) && Disjoint(ram.Contents(), mmio.Contents())
      && forall a: nat ::
           Covers(usable.Contents(), a) <==> Covers(ram.Contents(), a) && !Covers(reserved.Contents(), a)
    }

    constructor ()
      ensures Valid() && fresh(ram) && fresh(reserved) && fresh(mmio) && fresh(usable)
      ensures fresh(ram.entries) && fresh(reserved.entries) && fresh(mmio.entries) && fresh(usable.entries)
      ensures ram.Contents() == [] && reserved.Contents() == [] && mmio.Contents() == [] && usable.Contents() == []
    {
      ram := new FixedList(MAX_RAM_REGIONS);
      reserved := new FixedList(MAX_RESERVED_REGIONS);
      mmio := new FixedList(MAX_MMIO_REGIONS);
      usable := new FixedList(MAX_USABLE_RAM_REGIONS);
    }

    method InsertRam(region: PhysRegion) returns (r: Result<(), MemoryMapError>)
      requires Valid()
      modifies ram, ram.entries
      ensures Valid()
      ensures r == if NoRoom(old(ram.Contents()), MAX_RAM_REGIONS, region) then Err(Capacity(MAX_RAM_REGIONS))
                   else Ok(())
      ensures if r.Ok? then Inserted(old(ram.Contents()), region, ram.Contents())
              else ram.Contents() == old(ram.Contents())
    {
      r := InsertSortedMerged(ram, region);
    }

    method InsertReserved(region: PhysRegion) returns (r: Result<(), MemoryMapError>)
      requires Valid()
      modifies reserved, reserved.entries
      ensures Valid()
      ensures r == if NoRoom(old(reserved.Contents()), MAX_RESERVED_REGIONS, region)
                   then Err(Capacity(MAX_RESERVED_REGIONS)) else Ok(())
      ensures if r.Ok? then Inserted(old(reserved.Contents()), region, reserved.Contents())
              else reserved.Contents() == old(reserved.Contents())
    {
      r := InsertSortedMerged(reserved, region);
    }

    method InsertMmio(region: PhysRegion) returns (r: Result<(), MemoryMapError>)
      requires Valid()
      modifies mmio, mmio.entries
      ensures Valid()
      ensures r == if NoRoom(old(mmio.Contents()), MAX_MMIO_REGIONS, region) then Err(Capacity(MAX_MMIO_REGIONS))
                   else Ok(())
      ensures if r.Ok? then Inserted(old(mmio.Contents()), region, mmio.Contents())
              else mmio.Contents() == old(mmio.Contents())
    {
      r := InsertSortedMerged(mmio, region);
    }

    /** The first RAM region and device window that overlap, if any do. */
    method FindConflict() returns (r: Result<(), MemoryMapError>)
      requires Valid()
      ensures r.Ok? <==> Disjoint(ram.Contents(), mmio.Contents())
      ensures r.Err? ==> r.error.RamMmioConflict? && Overlaps(r.error.ram, r.error.mmio)
                         && r.error.ram in ram.Contents() && r.error.mmio in mmio.Contents()
    {
      for i := 0 to ram.len
        invariant Disjoint(ram.Contents()[..i], mmio.Contents())
      {
        for j := 0 to mmio.len
          invariant forall k | 0 <= k < j :: !Overlaps(ram.Contents()[i], mmio.Contents()[k])
        {
          var a := ram.Get(i);
          var b := mmio.Get(j);
          if Overlaps(a.value, b.value) {
            assert Overlaps(ram.Contents()[i], mmio.Contents()[j]);
            return Err(RamMmioConflict(a.value, b.value));
          }
        }
      }
      return Ok(());
    }

    /** Usable RAM becomes exactly RAM minus reservations, in normal form. The only failure is an
        overlap of RAM and MMIO, and it changes nothing: capacity is never exceeded. */
    method Finalize() returns (r: Result<(), MemoryMapError>)
      requires Valid()
      modifies usable, usable.entries
      ensures Valid()
      ensures r.Ok? <==> Disjoint(ram.Contents(), mmio.Contents())
      ensures r.Err? ==> r.error.RamMmioConflict? && usable.Contents() == old(usable.Contents())
      ensures r.Ok? ==> Finalized()
    {
      hide Normalized, Covers, Disjoint, AllPieces;
      r := FindConflict();
      if r.Err? {
        return;
      }
      r := Rebuild();
      AllPiecesCorrect(ram.Contents(), reserved.Contents());
    }

    method Rebuild() returns (r: Result<(), MemoryMapError>)
      requires Valid()
      modifies usable, usable.entries
      ensures Valid() && r.Ok? && usable.Contents() == AllPieces(ram.Contents(), reserved.Contents())
    {
      hide Normalized, Pieces, AllPieces;
      usable.Clear();
      r := Ok(());
      ghost var rams, res := ram.Contents(), reserved.Contents();
      AllPiecesNone(res);
      for i := 0 to ram.len
        invariant Valid() && r.Ok? && ram.Contents() == rams && reserved.Contents() == res
        invariant usable.Contents() == AllPieces(rams[..i], res)
      {
        AllPiecesStep(rams, res, i);
        var region := ram.Get(i);
        r := SubtractAll(region.value, reserved, usable);
      }
      assert rams[..|rams|] == rams;
    }
  }

  lemma AllPiecesNone(reserved: seq<PhysRegion>)
    ensures AllPieces([], reserved) == []
  {
  }

  lemma AllPiecesStep(rams: seq<PhysRegion>, reserved: seq<PhysRegion>, i: nat)
    requires Normalized(rams) && Normalized(reserved) && i < |rams|
    ensures AllPieces(rams[..i + 1], reserved) == AllPieces(rams[..i], reserved) + Pieces(rams[i], reserved)
    ensures |AllPieces(rams[..i + 1], reserved)| <= |rams| + |reserved|
  {
    NormalizedPrefix(rams, i + 1);
    AllPiecesCount(rams[..i + 1], reserved);
    assert rams[..i + 1][..i] == rams[..i];
  }

  lemma NormalizedPrefix(s: seq<PhysRegion>, n: nat)
    requires Normalized(s) && n <= |s|
    ensures Normalized(s[..n])
  {
  }
}
