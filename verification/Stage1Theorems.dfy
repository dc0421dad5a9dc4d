/** The promises of the EL2 stage-1 builder, over every table set, request and run. */
module Stage1Theorems {
  import opened Wrappers
  import opened Bits
  import opened Descriptor
  import opened PageTree
  import opened Stage1
  import opened Stage1Refinement
  import opened Stage1Map

  /** The walker answers `va` with `pa` and `attr`, at whatever level. */
  predicate Translates(t: Tables, va: nat, pa: nat, attr: Attributes)
    requires Shaped(t)
  {
    Walk(t, va).Ok? && Walk(t, va).value.Some?
    && Walk(t, va).value.value.pa == pa && Walk(t, va).value.value.attr == attr
  }

  predicate Unmapped(t: Tables, va: nat)
    requires Shaped(t)
  {
    Walk(t, va) == Ok(None)
  }

  predicate InRange(m: Mapping, va: nat) {
    m.va <= va < m.va + m.size
  }

  /** Every address below the limit is translated or unmapped; the walker finds no corruption. */
  lemma WalkTotal(t: Tables, va: nat)
    requires Valid(t) && Shaped(t) && va < VA_LIMIT
    ensures Walk(t, va).Ok?
  {
    hide Walk;
    var lv :| Inv(t, lv);
    WalkIsLookup(t, lv, va);
  }

  /** Two lookups that grant the same thing, or miss, as walks. */
  lemma WalkGrants(t: Tables, lv: seq<nat>, va: nat, pa: nat, attr: Attributes)
    requires Inv(t, lv) && va < VA_LIMIT
    ensures Walk(t, va).Ok?
    ensures Translates(t, va, pa, attr) <==> Grants(Lookup(View(t, lv), va), va, pa, attr)
    ensures Unmapped(t, va) <==> Lookup(View(t, lv), va).Miss?
  {
    hide Walk, Inv, View, Lookup;
    WalkIsLookup(t, lv, va);
  }

  /** `map`, whatever its outcome: the result is a valid table set; no translation changes; every
      new translation is one that was asked for; on success the whole range translates as asked. */
  lemma MapTheorem(t: Tables, m: Mapping)
    requires Valid(t) && Shaped(t)
    ensures Valid(Map(t, m).0)
    ensures forall va: nat | va < VA_LIMIT && !Unmapped(t, va) :: Walk(Map(t, m).0, va) == Walk(t, va)
    ensures forall va: nat | va < VA_LIMIT && Walk(Map(t, m).0, va) != Walk(t, va) ::
              InRange(m, va) && Translates(Map(t, m).0, va, m.pa + (va - m.va), m.attr)
    ensures Map(t, m).1.Ok? ==> forall va: nat | va < VA_LIMIT && InRange(m, va) ::
              Translates(Map(t, m).0, va, m.pa + (va - m.va), m.attr)
  {
    hide Walk, Inv, View, MapFrom, MapEffect, ValidateMapping, Shl;
    var lv :| Inv(t, lv);
    if ValidateMapping(t, m).Ok? {
      ValidatedMapping(t, m);
      PaLimit(t);
      var lv' := MapFromCorrect(t, lv, m.va, m.pa, m.size, m.attr);
      var (t', r) := MapFrom(t, m.va, m.pa, m.size, m.attr);
      forall va: nat | va < VA_LIMIT
        ensures !Unmapped(t, va) ==> Walk(t', va) == Walk(t, va)
        ensures Walk(t', va) != Walk(t, va) ==> InRange(m, va) && Translates(t', va, m.pa + (va - m.va), m.attr)
        ensures r.Ok? && InRange(m, va) ==> Translates(t', va, m.pa + (va - m.va), m.attr)
      {
        EffectAt(View(t, lv), View(t', lv'), m, va, r.Ok?);
        WalkIsLookup(t, lv, va);
        WalkIsLookup(t', lv', va);
        if InRange(m, va) {
          WalkGrants(t', lv', va, m.pa + (va - m.va), m.attr);
        }
      }
    }
  }

  lemma EffectAt(v: Tree<LeafInfo>, w: Tree<LeafInfo>, m: Mapping, va: nat, ok: bool)
    requires MapEffect(v, w, m.va, m.pa, m.size, m.attr, ok) && va < VA_LIMIT
    ensures Walkable(v) && Walkable(w)
    ensures Lookup(v, va).Hit? ==> Lookup(w, va) == Lookup(v, va)
    ensures Lookup(w, va) != Lookup(v, va) ==> InRange(m, va) && Grants(Lookup(w, va), va, m.pa + (va - m.va), m.attr)
    ensures ok && InRange(m, va) ==> Grants(Lookup(w, va), va, m.pa + (va - m.va), m.attr)
  {
  }

  /** An address already translated to something else makes the request fail. */
  lemma MapRejectsConflict(t: Tables, m: Mapping, va: nat)
    requires Valid(t) && Shaped(t) && va < VA_LIMIT && InRange(m, va)
    requires !Unmapped(t, va) && !Translates(t, va, m.pa + (va - m.va), m.attr)
    ensures Map(t, m).1.Err?
  {
    MapTheorem(t, m);
  }

  // Runs of requests.

  function MapAll(t: Tables, ms: seq<Mapping>): (t': Tables)
    requires Shaped(t)
    ensures Shaped(t')
    decreases |ms|
  {
    if ms == [] then t else MapAll(Map(t, ms[0]).0, ms[1..])
  }

  ghost predicate Requested(ms: seq<Mapping>, t: Tables, va: nat)
    requires Shaped(t)
  {
    exists k :: 0 <= k < |ms| && InRange(ms[k], va) && Translates(t, va, ms[k].pa + (va - ms[k].va), ms[k].attr)
  }

  /** Over any run of requests, failed ones included, the tables stay valid, translations are
      never altered, and each translation that appears was asked for by some request. */
  lemma {:induction false} RunTheorem(t: Tables, ms: seq<Mapping>)
    requires Valid(t) && Shaped(t)
    ensures Valid(MapAll(t, ms))
    ensures forall va: nat | va < VA_LIMIT && !Unmapped(t, va) :: Walk(MapAll(t, ms), va) == Walk(t, va)
    ensures forall va: nat | va < VA_LIMIT && Walk(MapAll(t, ms), va) != Walk(t, va) ::
              Requested(ms, MapAll(t, ms), va)
    decreases |ms|
  {
    hide Walk, Map, Valid;
    if ms != [] {
      var t1, t2 := Map(t, ms[0]).0, MapAll(t, ms);
      MapTheorem(t, ms[0]);
      RunTheorem(t1, ms[1..]);
      forall va: nat | va < VA_LIMIT && Walk(t2, va) != Walk(t, va)
        ensures Requested(ms, t2, va)
      {
        if Walk(t1, va) != Walk(t, va) {
          assert Walk(t2, va) == Walk(t1, va);
          assert Translates(t2, va, ms[0].pa + (va - ms[0].va), ms[0].attr);
        } else {
          var k :| 0 <= k < |ms[1..]| && InRange(ms[1..][k], va)
            && Translates(t2, va, ms[1..][k].pa + (va - ms[1..][k].va), ms[1..][k].attr);
          assert ms[k + 1] == ms[1..][k];
        }
      }
    }
  }

  /** The tree of a new table set is an empty root. */
  lemma NewTree(pages: seq<seq<nat>>, base: nat, paBits: nat)
    requires (forall p | 0 <= p < |pages| :: |pages[p]| == ENTRIES) && New(pages, base, paBits).Ok?
    ensures var t := New(pages, base, paBits).value;
            && Inv(t, [1]) && t.used == 1 && |t.pages| == |pages|
            && (forall va: nat :: Lookup(View(t, [1]), va) == Miss)
            && (forall va: nat :: Reach(View(t, [1]), 2, va).Nowhere?)
  {
    hide Shl, Connected;
    var t := New(pages, base, paBits).value;
    DecodeEncode(t, 1, Empty);
    assert forall i | 0 <= i < ENTRIES :: View(t, [1]).slots[0][i] == Empty;
    RootOnly(View(t, [1]));
  }

  lemma NewAccepts(pages: seq<seq<nat>>, base: nat, paBits: nat)
    requires forall p | 0 <= p < |pages| :: |pages[p]| == ENTRIES
    ensures New(pages, base, paBits).Ok?
       <==> && 32 <= paBits <= 48 && base % PAGE_SIZE == 0 && |pages| > 0
            && base + |pages| * PAGE_SIZE <= Shl(1, paBits)
  {
    hide Shl;
    if paBits <= 48 {
      PowerBelow(paBits);
    }
  }

  /** A table set is made exactly of a nonempty, aligned arena inside a supported address space. It is
      valid and translates nothing, whatever the arena held before. */
  lemma NewTheorem(pages: seq<seq<nat>>, base: nat, paBits: nat)
    requires forall p | 0 <= p < |pages| :: |pages[p]| == ENTRIES
    ensures New(pages, base, paBits).Ok?
       <==> && 32 <= paBits <= 48 && base % PAGE_SIZE == 0 && |pages| > 0
            && base + |pages| * PAGE_SIZE <= Shl(1, paBits)
    ensures New(pages, base, paBits).Ok? ==>
              && Valid(New(pages, base, paBits).value)
              && forall va: nat | va < VA_LIMIT :: Unmapped(New(pages, base, paBits).value, va)
  {
    hide Shl, Walk, Inv, New, Lookup;
    NewAccepts(pages, base, paBits);
    if New(pages, base, paBits).Ok? {
      var t := New(pages, base, paBits).value;
      var lv := [1];
      NewTree(pages, base, paBits);
      forall va: nat | va < VA_LIMIT
        ensures Unmapped(t, va)
      {
        WalkIsLookup(t, lv, va);
      }
    }
  }

  // The shape of the arena.

  /** Entry `i` of page `p` is a table descriptor for arena page `c`. */
  predicate PointsAt(t: Tables, p: nat, i: nat, c: nat)
    requires Shaped(t)
  {
    p < t.used && i < ENTRIES && t.pages[p][i] == TableDescriptor(TablePa(t, c))
  }

  lemma PointsAtChild(t: Tables, lv: seq<nat>, p: nat, i: nat, c: nat)
    requires Inv(t, lv) && p < t.used && i < ENTRIES && c < t.used
    ensures PointsAt(t, p, i, c) <==> View(t, lv).slots[p][i] == Child(c)
  {
    hide Shl, SingleParent, Connected, DecodeSlot, TableDescriptor, LeafDescriptor, Or, And, IsValid, IsTableOrPage;
    EntryTests(t, lv, p, i);
    TableIndexOf(t, c);
    TableRoundTrip(TablePa(t, c));
    ZeroInvalid();
    var s := View(t, lv).slots[p][i];
    if s.Leaf? {
      LeafIsNotTable(lv[p], s.leaf.pa, s.leaf.attr, TablePa(t, c));
    }
  }

  ghost predicate Referenced(t: Tables, c: nat)
    requires Shaped(t)
  {
    exists p, i :: PointsAt(t, p, i, c)
  }

  /** Every used page but the root hangs off exactly one entry, and nothing points at the root. */
  lemma TablesFormTree(t: Tables)
    requires Valid(t) && Shaped(t)
    ensures forall c | 0 < c < t.used :: Referenced(t, c)
    ensures forall c, p, i, q, j | 0 <= c < t.used && PointsAt(t, p, i, c) && PointsAt(t, q, j, c) :: p == q && i == j
    ensures forall p, i :: !PointsAt(t, p, i, 0)
  {
    hide PointsAt, DecodeSlot, Canonical;
    var lv :| Inv(t, lv);
    var v := View(t, lv);
    forall c | 0 < c < t.used
      ensures Referenced(t, c)
    {
      assert HasParent(v, c);
      var p, i :| p in v.slots && 0 <= i < ENTRIES && v.slots[p][i] == Child(c);
      PointsAtChild(t, lv, p, i, c);
    }
    forall c, p, i, q, j | 0 <= c < t.used && PointsAt(t, p, i, c) && PointsAt(t, q, j, c)
      ensures p == q && i == j
    {
      PointsAtBounds(t, p, i, c);
      PointsAtBounds(t, q, j, c);
      PointsAtChild(t, lv, p, i, c);
      PointsAtChild(t, lv, q, j, c);
    }
    forall p, i
      ensures !PointsAt(t, p, i, 0)
    {
      if PointsAt(t, p, i, 0) {
        PointsAtBounds(t, p, i, 0);
        PointsAtChild(t, lv, p, i, 0);
      }
    }
  }

  lemma PointsAtBounds(t: Tables, p: nat, i: nat, c: nat)
    requires Shaped(t) && PointsAt(t, p, i, c)
    ensures p < t.used && i < ENTRIES
  {
  }
}
