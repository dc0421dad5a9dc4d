/** The promises of the mapping-update protocol, over every interleaving. */
module TlbTheorems {
  import opened Bits
  import opened Wrappers
  import opened TlbUpdate
  import opened TlbSafety

  // The leaf and its cached copies.

  predicate Broken(pc: Pc) {
    pc.FlushBroken? || pc.Make?
  }

  /** Only between breaking the leaf and the flush can a cached copy differ from the leaf. */
  predicate Cached(s: State)
    requires Shape(s)
  {
    var w, pc := s.w, s.pcs[0];
    && Linked(w.changes)
    && (!pc.FlushBroken? ==> forall c | 0 <= c < MAX_CPUS :: w.tlb[c] == None || w.tlb[c] == w.leaf)
    && (pc.FlushBroken? ==> forall c | 0 <= c < MAX_CPUS :: w.tlb[c] == None || w.tlb[c] == Some(pc.op.oldPa))
    && (Broken(pc) ==> w.leaf == None)
    && (Broken(pc) || pc.FlushMade? ==>
          0 < |w.changes| && w.changes[|w.changes| - 1] == Change(pc.op.e, pc.op.oldPa, pc.op.newPa))
    && (0 < |w.changes| && !Broken(pc) ==> w.leaf == Some(w.changes[|w.changes| - 1].newPa))
  }

  /** Each replacement takes away what the one before put in place. */
  predicate Linked(changes: seq<Change>) {
    forall k | 0 <= k < |changes| ::
      changes[k].oldPa != changes[k].newPa && (0 < k ==> changes[k].oldPa == changes[k - 1].newPa)
  }

  lemma CachedStep(s: State, ev: Event)
    requires Inv(s) && Cached(s) && Enabled(s, ev)
    ensures Cached(Next(s, ev))
  {
    hide Global, Alone;
    if ev.Run? {
      if ev.c == 0 {
        CachedRun(s);
      } else {
        OthersSpareLeaf(s, ev.c);
      }
    }
  }

  predicate Replaces(pc: Pc) {
    pc.Break? || pc.FlushBroken? || pc.Make? || pc.FlushMade?
  }

  lemma CachedRun(s: State)
    requires Shape(s) && Cached(s) && s.pcs[0] != Ready
    ensures Cached(Next(s, Run(0)))
  {
    hide Cached, Linked, Store, Load;
    if s.pcs[0].Break? {
      CachedBreak(s);
    } else if Replaces(s.pcs[0]) {
      CachedRest(s);
    } else {
      StoreSparesLeaf(s.w, 0, s.pcs[0]);
      LoadSparesLeaf(s.w, 0, s.pcs[0]);
      CachedAnew(s, Next(s, Run(0)));
    }
  }

  lemma CachedBreak(s: State)
    requires Shape(s) && Cached(s) && s.pcs[0].Break?
    ensures Cached(Next(s, Run(0)))
  {
    hide Load;
  }

  lemma CachedRest(s: State)
    requires Shape(s) && Cached(s) && (s.pcs[0].FlushBroken? || s.pcs[0].Make? || s.pcs[0].FlushMade?)
    ensures Cached(Next(s, Run(0)))
  {
    hide Load, Linked;
  }

  lemma StoreSparesLeaf(w: Words, c: nat, pc: Pc)
    requires SizedWords(w) && WellPc(pc) && c < MAX_CPUS && !Replaces(pc)
    ensures var w' := Store(w, c, pc).0; w'.leaf == w.leaf && w'.tlb == w.tlb && w'.changes == w.changes
    ensures !Broken(Store(w, c, pc).1) && !Store(w, c, pc).1.FlushMade?
  {
    hide GoodMask, Acks;
  }

  lemma LoadSparesLeaf(w: Words, c: nat, pc: Pc)
    requires SizedWords(w) && WellPc(pc) && c < MAX_CPUS
    ensures !Broken(Load(w, c, pc)) && !Load(w, c, pc).FlushMade?
  {
    hide GoodMask, Acks;
  }

  lemma CachedAnew(s: State, s': State)
    requires Shape(s) && Shape(s') && Cached(s) && s'.w.leaf == s.w.leaf && s'.w.tlb == s.w.tlb
    requires s'.w.changes == s.w.changes && !Broken(s.pcs[0]) && !Broken(s'.pcs[0]) && !s'.pcs[0].FlushMade?
    ensures Cached(s')
  {
    hide Linked;
  }

  /** Only CPU 0 writes the leaf. */
  lemma OthersSpareLeaf(s: State, c: nat)
    requires Inv(s) && 0 < c < MAX_CPUS && s.pcs[c] != Ready
    ensures var w' := Next(s, Run(c)).w; w'.leaf == s.w.leaf && w'.tlb == s.w.tlb && w'.changes == s.w.changes
  {
    hide Global, Alone;
    assert Local(s.w, c, s.pcs[c], s.holds[c]);
  }

  // Synchronizing implies having been quiet, unless a member announced an epoch too early.

  /** CPU `c` is a member of epoch `e`, or the one after it that is under way or being set up. */
  predicate Near(w: Words, c: nat, e: nat) {
    && 1 <= e <= |w.history| == w.epoch
    && (c in w.history[e - 1] || (if w.epoch == e then w.pending && c in w.members else c in w.history[e]))
  }

  predicate Member(w: Words, c: nat, e: nat) {
    1 <= e <= |w.history| && c in w.history[e - 1]
  }

  /** CPU `c` belongs to an update that cannot go on before `c` is quiet at it. */
  predicate Awaited(w: Words, c: nat)
    requires SizedWords(w) && c < MAX_CPUS
  {
    || (w.pending && c in w.members && w.quiet[c] <= w.epoch)
    || (0 < w.epoch == |w.history| && c in w.history[w.epoch - 1] && w.quiet[c] < w.epoch)
  }

  /** The membership that `synchronized(e)` is about to read cannot mislead it. */
  predicate OnTime(w: Words, c: nat, e: nat)
    requires SizedWords(w) && c < MAX_CPUS
  {
    e <= w.epoch || U64_LIMIT <= e || c == 0 || c !in w.members || Awaited(w, c)
  }

  /** The membership that `synchronized(e)` has read did not mislead it. */
  predicate Trusted(w: Words, c: nat, e: nat)
    requires SizedWords(w) && c < MAX_CPUS
  {
    U64_LIMIT <= e || c == 0 || Awaited(w, c) || (e <= w.epoch && (1 <= e == w.epoch ==> Near(w, c, e)))
  }

  predicate Orderly(w: Words, c: nat, pc: Pc)
    requires SizedWords(w) && c < MAX_CPUS
  {
    && w.synced[c] <= w.quiet[c]
    && (pc.SyncStore? ==> Member(w, c, pc.e))
    && (pc.CheckFailed? && pc.op.Synchronize? ==> OnTime(w, c, pc.op.e))
    && (pc.CheckMember? && pc.op.Synchronize? ==> OnTime(w, c, pc.op.e))
    && (pc.CheckEpoch? && pc.op.Synchronize? ==> Trusted(w, c, pc.op.e))
    && (pc.CheckPhase? && pc.op.Synchronize? ==> c == 0 || Awaited(w, c) || Near(w, c, pc.op.e))
    && (pc.CheckGate? && pc.op.Synchronize? ==> Member(w, c, pc.op.e))
  }

  predicate AllOrderly(s: State)
    requires Shape(s)
  {
    s.w.timely ==> forall c | 0 <= c < MAX_CPUS :: Orderly(s.w, c, s.pcs[c])
  }

  /** How the member set of the next epoch is set up. */
  predicate SetUp(w: Words, w': Words) {
    && w.history <= w'.history && |w.history| == w.epoch && |w'.history| == w'.epoch
    && (w.pending && w'.epoch == w.epoch ==> w'.pending && w'.members == w.members)
    && (w'.epoch != w.epoch ==> w'.epoch == w.epoch + 1 && w.pending && w'.history[w.epoch] == w.members)
    && (w'.members != w.members ==> w'.pending)
  }

  lemma StepSetsUp(s: State, c: nat)
    requires Inv(s) && c < MAX_CPUS && s.pcs[c] != Ready
    ensures SetUp(s.w, Next(s, Run(c)).w)
  {
    hide Acknowledged, Served, Alone, ScanOk, GoodMask, CheckOk, GateOk, Read;
    assert Local(s.w, c, s.pcs[c], s.holds[c]);
  }

  /** An update in which a busy CPU takes part stays where it is. */
  lemma AwaitedKept(w: Words, w': Words, c: nat)
    requires Global(w) && Global(w') && SetUp(w, w') && c < MAX_CPUS && w'.quiet[c] == w.quiet[c]
    requires Awaited(w, c)
    ensures Awaited(w', c)
  {
    hide GoodMask, Acknowledged;
  }

  lemma OnTimeKept(w: Words, w': Words, c: nat, e: nat)
    requires Global(w) && Global(w') && SetUp(w, w') && c < MAX_CPUS && w'.quiet[c] == w.quiet[c]
    requires OnTime(w, c, e)
    ensures OnTime(w', c, e)
  {
    hide Served, Chain;
    if Awaited(w, c) {
      AwaitedKept(w, w', c);
    }
  }

  lemma TrustedKept(w: Words, w': Words, c: nat, e: nat)
    requires Global(w) && Global(w') && SetUp(w, w') && c < MAX_CPUS && w'.quiet[c] == w.quiet[c]
    requires Trusted(w, c, e)
    ensures Trusted(w', c, e)
  {
    hide Global, Awaited;
    if Awaited(w, c) {
      AwaitedKept(w, w', c);
    }
  }

  lemma OrderlyKept(w: Words, w': Words, c: nat, pc: Pc)
    requires Global(w) && Global(w') && SetUp(w, w') && c < MAX_CPUS && Orderly(w, c, pc)
    requires w'.synced[c] == w.synced[c] && w'.quiet[c] == w.quiet[c]
    ensures Orderly(w', c, pc)
  {
    hide Global, Awaited, OnTime, Trusted;
    if Awaited(w, c) {
      AwaitedKept(w, w', c);
    }
    if (pc.CheckFailed? || pc.CheckMember?) && pc.op.Synchronize? {
      OnTimeKept(w, w', c, pc.op.e);
    } else if pc.CheckEpoch? && pc.op.Synchronize? {
      TrustedKept(w, w', c, pc.op.e);
    }
  }

  /** In Synchronizing nobody is awaited, and whoever was near the epoch is a member of it. */
  lemma SynchronizingMember(w: Words, c: nat, e: nat)
    requires Global(w) && c < MAX_CPUS && w.phase == Synchronizing && 1 <= e <= w.epoch && w.quiet[c] <= e
    requires c == 0 || Awaited(w, c) || Near(w, c, e)
    ensures Member(w, c, e)
  {
    hide Acknowledged;
    assert GoodMask(w.history[e - 1]);
    // A member of the next epoch would have been quiet at it before that epoch got this far.
  }

  lemma OrderlyCheck(w: Words, c: nat, pc: Pc, holds: bool)
    requires At(w, c, pc, holds) && Orderly(w, c, pc)
    requires Checks(pc)
    ensures Orderly(w, c, Load(w, c, pc))
  {
    hide GoodMask, Acknowledged, Served;
    if pc.CheckPhase? && pc.op.Synchronize? && w.phase == Synchronizing {
      SynchronizingMember(w, c, pc.op.e);
    }
  }

  lemma OrderlyStore(w: Words, c: nat, pc: Pc, holds: bool)
    requires At(w, c, pc, holds) && Orderly(w, c, pc) && (pc.SyncStore? || pc.QuiesceStore?)
    ensures Orderly(Store(w, c, pc).0, c, Ready)
  {
    hide GoodMask, Acknowledged;
  }

  predicate Checks(pc: Pc) {
    pc.CheckFailed? || pc.CheckMember? || pc.CheckEpoch? || pc.CheckPhase? || pc.CheckGate?
  }

  lemma OtherLoad(w: Words, c: nat, pc: Pc)
    requires SizedWords(w) && c < MAX_CPUS && WellPc(pc) && !Checks(pc)
    ensures !Checks(Load(w, c, pc)) && !Load(w, c, pc).SyncStore?
  {
    hide GoodMask, Acks;
  }

  lemma OtherStore(w: Words, c: nat, pc: Pc)
    requires SizedWords(w) && c < MAX_CPUS && WellPc(pc) && !pc.SyncStore? && !pc.QuiesceStore?
    ensures var (w', pc') := Store(w, c, pc);
            w'.synced == w.synced && w'.quiet == w.quiet && !Checks(pc') && !pc'.SyncStore?
  {
  }

  lemma OrderlyRun(s: State, c: nat)
    requires Inv(s) && AllOrderly(s) && s.w.timely && c < MAX_CPUS && s.pcs[c] != Ready
    ensures Orderly(Next(s, Run(c)).w, c, Next(s, Run(c)).pcs[c])
  {
    hide Alone, GoodMask, Global, Local, Near, Member, OnTime, Trusted, Load, Store;
    var pc := s.pcs[c];
    if Checks(pc) {
      OrderlyCheck(s.w, c, pc, s.holds[c]);
    } else if pc.SyncStore? || pc.QuiesceStore? {
      OrderlyStore(s.w, c, pc, s.holds[c]);
      StoreReturns(s.w, c, pc);
    } else {
      OtherLoad(s.w, c, pc);
      OtherStore(s.w, c, pc);
    }
  }

  lemma StoreReturns(w: Words, c: nat, pc: Pc)
    requires SizedWords(w) && c < MAX_CPUS && (pc.SyncStore? || pc.QuiesceStore?)
    ensures Store(w, c, pc).1 == Ready
  {
  }

  lemma OthersWords(s: State, c: nat)
    requires Inv(s) && c < MAX_CPUS && s.pcs[c] != Ready
    ensures var w' := Next(s, Run(c)).w;
            && w'.timely == s.w.timely
            && forall d | 0 <= d < MAX_CPUS && d != c :: w'.synced[d] == s.w.synced[d] && w'.quiet[d] == s.w.quiet[d]
  {
    hide Global, Local, Alone, Load;
  }

  lemma OrderlyCall(s: State, c: nat, op: Op)
    requires Inv(s) && AllOrderly(s) && Enabled(s, Call(c, op)) && Next(s, Call(c, op)).w.timely
    ensures Orderly(Next(s, Call(c, op)).w, c, Next(s, Call(c, op)).pcs[c])
  {
    hide Alone, Local, Near, Member, Acknowledged, Served, Awaited, Trusted;
  }

  lemma OrderlyStep(s: State, ev: Event)
    requires Inv(s) && AllOrderly(s) && Enabled(s, ev)
    ensures AllOrderly(Next(s, ev))
  {
    hide Alone, Local, Near, Member, Access, Acknowledged, Served, Orderly;
    var s' := Next(s, ev);
    StepInv(s, ev);
    if ev.Run? {
      OthersWords(s, ev.c);
      StepSetsUp(s, ev.c);
    }
    if s'.w.timely {
      if ev.Run? {
        OrderlyRun(s, ev.c);
      } else if ev.Call? {
        OrderlyCall(s, ev.c, ev.op);
      }
      forall d | 0 <= d < MAX_CPUS
        ensures Orderly(s'.w, d, s'.pcs[d])
      {
        if d != ev.c || ev.Fill? || ev.Evict? {
          OrderlyKept(s.w, s'.w, d, s.pcs[d]);
        }
      }
    }
  }

  // Runs.

  predicate Runs(s: State, evs: seq<Event>)
    requires Shape(s)
    decreases |evs|
  {
    evs == [] || (Enabled(s, evs[0]) && Runs(Next(s, evs[0]), evs[1..]))
  }

  function After(s: State, evs: seq<Event>): (s': State)
    requires Shape(s) && Runs(s, evs)
    ensures Shape(s')
    decreases |evs|
  {
    if evs == [] then s else After(Next(s, evs[0]), evs[1..])
  }

  /** No call of the run is early. */
  predicate Timely(s: State, evs: seq<Event>)
    requires Shape(s) && Runs(s, evs)
    decreases |evs|
  {
    evs == [] || (!(evs[0].Call? && Early(s.w, evs[0].c, evs[0].op)) && Timely(Next(s, evs[0]), evs[1..]))
  }

  lemma TimelyStep(s: State, ev: Event)
    requires Shape(s) && Enabled(s, ev) && !(ev.Call? && Early(s.w, ev.c, ev.op))
    ensures Next(s, ev).w.timely == s.w.timely
  {
    hide Early, Load, GoodMask;
  }

  lemma {:induction false} TimelyKept(s: State, evs: seq<Event>)
    requires Shape(s) && Runs(s, evs) && Timely(s, evs)
    ensures After(s, evs).w.timely == s.w.timely
    decreases |evs|
  {
    hide Early, Enabled, Next;
    if evs != [] {
      TimelyStep(s, evs[0]);
      TimelyKept(Next(s, evs[0]), evs[1..]);
    }
  }

  ghost predicate Sound(s: State)
    ensures Sound(s) ==> Shape(s)
  {
    Inv(s) && Cached(s) && AllOrderly(s)
  }

  lemma ReadyLocal(w: Words, c: nat)
    requires SizedWords(w) && c < MAX_CPUS
    ensures Local(w, c, Ready, false)
    ensures w.synced[c] == 0 ==> Orderly(w, c, Ready)
  {
  }

  lemma InitialGlobal(leaf: Option<nat>)
    ensures Global(Initial(leaf).w)
  {
    hide GoodMask;
  }

  lemma InitialSound(leaf: Option<nat>)
    ensures Sound(Initial(leaf))
  {
    hide Local, Global, Orderly;
    var s := Initial(leaf);
    InitialGlobal(leaf);
    forall c | 0 <= c < MAX_CPUS
      ensures Local(s.w, c, s.pcs[c], s.holds[c]) && Orderly(s.w, c, s.pcs[c])
    {
      ReadyLocal(s.w, c);
      assert s.w.synced[c] == 0;
    }
  }

  lemma StepSound(s: State, ev: Event)
    requires Sound(s) && Enabled(s, ev)
    ensures Sound(Next(s, ev))
  {
    hide Inv, Cached, AllOrderly, Next;
    StepInv(s, ev);
    CachedStep(s, ev);
    OrderlyStep(s, ev);
  }

  lemma {:induction false} RunSound(s: State, evs: seq<Event>)
    requires Shape(s) && Sound(s) && Runs(s, evs)
    ensures Sound(After(s, evs))
    decreases |evs|
  {
    hide Sound, Next;
    if evs != [] {
      StepSound(s, evs[0]);
      RunSound(Next(s, evs[0]), evs[1..]);
    }
  }

  // What a sound state promises.

  /** `may_write(op.e)` has answered yes and the replacement it authorizes is not finished. */
  predicate Authorized(pc: Pc, op: Op) {
    && op.Write?
    && (|| pc == AckMember(op, MAX_CPUS) || pc == Break(op) || pc == FlushBroken(op)
        || pc == Make(op) || pc == FlushMade(op))
  }

  predicate Active(w: Words) {
    w.phase == Quiescing || w.phase == Replacing || w.phase == Synchronizing
  }

  lemma AuthorityAt(s: State, op: Op)
    requires Sound(s) && Authorized(s.pcs[0], op)
    ensures s.w.epoch == op.e > 0 && s.w.gate == 1 && (s.w.phase == Replacing || s.w.phase == Failed)
    ensures s.w.members == s.w.history[op.e - 1] && 0 in s.w.members
    ensures forall m | m in s.w.members :: m < MAX_CPUS && s.w.quiet[m] == op.e
    ensures forall c | 0 <= c < MAX_CPUS :: !s.holds[c] && !CritPc(s.pcs[c])
    ensures |s.w.history| == op.e
  {
    hide Cached, AllOrderly, Acknowledged;
    assert Local(s.w, 0, s.pcs[0], s.holds[0]) && Chain(s.w);
    assert GoodMask(s.w.history[s.w.epoch - 1]);
    forall c | 0 <= c < MAX_CPUS && Crit(s.pcs[c], s.holds[c])
      ensures false
    {
      CritOwns(s.w, c, s.pcs[c], s.holds[c]);
    }
  }

  lemma ExclusiveAt(s: State, ev: Event)
    requires Sound(s) && Enabled(s, ev) && Active(s.w)
    ensures s.w.gate == 1 && forall c | 0 <= c < MAX_CPUS :: !s.holds[c]
    ensures Next(s, ev).w.epoch == s.w.epoch && Next(s, ev).w.members == s.w.members
  {
    hide Cached, AllOrderly, Acknowledged, Served, Load;
    forall c | 0 <= c < MAX_CPUS
      ensures !Crit(s.pcs[c], s.holds[c])
    {
      if Crit(s.pcs[c], s.holds[c]) {
        CritOwns(s.w, c, s.pcs[c], s.holds[c]);
      }
    }
    assert !Crit(s.pcs[ev.c], s.holds[ev.c]);
  }

  lemma HeldAt(s: State, c: nat)
    requires Sound(s) && Enabled(s, Call(c, FinishMembership))
    ensures FinishAsserts(s)
  {
    assert Local(s.w, c, s.pcs[c], s.holds[c]);
  }

  lemma OrderAt(s: State, c: nat)
    requires Sound(s) && c < MAX_CPUS
    ensures s.w.quiet[c] <= s.w.epoch && s.w.synced[c] <= s.w.epoch && s.w.requested[c] <= s.w.epoch
    ensures c != 0 ==> s.w.quiet[c] <= s.w.requested[c]
    ensures s.w.timely ==> s.w.synced[c] <= s.w.quiet[c]
  {
    hide Served, Alone, Cached;
    assert Orderly(s.w, c, s.pcs[c]) || !s.w.timely;
  }

  /** Every member of epoch `e` has synchronized at it. */
  ghost predicate Retired(s: State, e: nat)
    requires Shape(s)
  {
    1 <= e <= |s.w.history| && forall m: nat | Member(s.w, m, e) :: m < MAX_CPUS && s.w.synced[m] >= e
  }

  lemma RetiredAt(s: State, c: nat, e: nat)
    requires Sound(s) && c < MAX_CPUS && s.pcs[c] == AckMember(Reusable(e), MAX_CPUS)
    ensures Retired(s, e)
  {
    hide Cached, AllOrderly, Alone;
    assert Local(s.w, c, s.pcs[c], s.holds[c]) && Chain(s.w);
    assert GoodMask(s.w.history[e - 1]);
  }

  lemma RetiredKept(s: State, ev: Event, e: nat)
    requires Sound(s) && Enabled(s, ev) && Retired(s, e)
    ensures Retired(Next(s, ev), e)
  {
    hide Cached, AllOrderly, Inv, Access;
    if ev.Run? {
      RunStep(s, ev.c);
      RetiredGrows(s.w, Next(s, ev).w, ev.c, Crit(s.pcs[ev.c], s.holds[ev.c]), e);
    } else {
      assert forall m: nat | Member(Next(s, ev).w, m, e) :: Member(s.w, m, e);
    }
  }

  lemma RetiredGrows(w: Words, w': Words, c: nat, crit: bool, e: nat)
    requires SizedWords(w) && SizedWords(w') && Rely(w, w', c, crit)
    requires 1 <= e <= |w.history| && forall m: nat | Member(w, m, e) :: m < MAX_CPUS && w.synced[m] >= e
    ensures e <= |w'.history| && forall m: nat | Member(w', m, e) :: m < MAX_CPUS && w'.synced[m] >= e
  {
    assert w'.history[e - 1] == w.history[e - 1];
    assert forall m: nat | Member(w', m, e) :: Member(w, m, e);
  }

  /** A later replacement put back the backing that replacement `k` took away. */
  predicate PutBack(changes: seq<Change>, k: nat)
    requires k < |changes|
  {
    exists j :: k < j < |changes| && changes[j].newPa == changes[k].oldPa
  }

  /** The current leaf is none of the replaced backings, unless one was put back. */
  lemma LeafIsNew(changes: seq<Change>, k: nat, last: nat)
    requires Linked(changes) && k <= last < |changes| && changes[last].newPa == changes[k].oldPa
    ensures PutBack(changes, k)
  {
  }

  /** Once an epoch is retired, a cached copy of a backing that was replaced in it means that a later
      replacement put the backing back. */
  lemma CopiesAt(s: State, e: nat, k: nat, c: nat)
    requires Sound(s) && Retired(s, e) && k < |s.w.changes| && s.w.changes[k].e == e && c < MAX_CPUS
    requires s.w.tlb[c] == Some(s.w.changes[k].oldPa)
    ensures PutBack(s.w.changes, k)
  {
    hide AllOrderly, Alone, PutBack;
    assert Local(s.w, 0, s.pcs[0], s.holds[0]);
    assert GoodMask(s.w.history[e - 1]) && Member(s.w, 0, e);
    var last := |s.w.changes| - 1;
    if s.pcs[0].FlushBroken? {
      // The replacement under way belongs to a later epoch.
      LeafIsNew(s.w.changes, k, last - 1);
    } else {
      LeafIsNew(s.w.changes, k, last);
    }
  }

  /** Until a later epoch begins, every cached copy is the current leaf. */
  lemma CurrentAt(s: State, e: nat, c: nat)
    requires Sound(s) && Retired(s, e) && s.w.epoch == e && c < MAX_CPUS
    ensures s.w.tlb[c] == None || s.w.tlb[c] == s.w.leaf
  {
    hide AllOrderly, Alone;
    assert Local(s.w, 0, s.pcs[0], s.holds[0]);
    assert GoodMask(s.w.history[e - 1]) && Member(s.w, 0, e);
  }

  lemma FailedSticks(s: State, ev: Event)
    requires Sound(s) && Enabled(s, ev) && s.w.phase == Failed
    ensures Next(s, ev).w.phase == Failed
  {
    hide Cached, AllOrderly, Inv, Access;
    if ev.Run? {
      RunStep(s, ev.c);
    }
  }

  lemma {:induction false} RetiredRun(s: State, evs: seq<Event>, e: nat)
    requires Sound(s) && Retired(s, e) && Runs(s, evs)
    ensures Sound(After(s, evs)) && Retired(After(s, evs), e)
    decreases |evs|
  {
    hide Sound, Next, Retired;
    if evs != [] {
      StepSound(s, evs[0]);
      RetiredKept(s, evs[0], e);
      RetiredRun(Next(s, evs[0]), evs[1..], e);
    }
  }

  lemma {:induction false} FailedRun(s: State, evs: seq<Event>)
    requires Sound(s) && s.w.phase == Failed && Runs(s, evs)
    ensures After(s, evs).w.phase == Failed
    decreases |evs|
  {
    hide Sound, Next;
    if evs != [] {
      StepSound(s, evs[0]);
      FailedSticks(s, evs[0]);
      FailedRun(Next(s, evs[0]), evs[1..]);
    }
  }

  // The promises, over every run.

  /** Every state of every run is sound. */
  lemma EveryRun(leaf: Option<nat>, evs: seq<Event>)
    requires Runs(Initial(leaf), evs)
    ensures Sound(After(Initial(leaf), evs))
  {
    InitialSound(leaf);
    RunSound(Initial(leaf), evs);
  }

  /** From the moment `may_write(e)` holds until the replacement is complete, the current epoch is
      `e`, every member is quiet at exactly `e`, and no membership change or other update is open. */
  lemma WriteAuthority(leaf: Option<nat>, evs: seq<Event>, op: Op)
    requires Runs(Initial(leaf), evs) && Authorized(After(Initial(leaf), evs).pcs[0], op)
    ensures var s := After(Initial(leaf), evs);
            && s.w.epoch == op.e > 0 && s.w.gate == 1 && (s.w.phase == Replacing || s.w.phase == Failed)
            && |s.w.history| == op.e && s.w.members == s.w.history[op.e - 1] && 0 in s.w.members
            && (forall m | m in s.w.members :: m < MAX_CPUS && s.w.quiet[m] == op.e)
            && (forall c | 0 <= c < MAX_CPUS :: !s.holds[c] && !CritPc(s.pcs[c]))
  {
    hide Sound, Next;
    EveryRun(leaf, evs);
    AuthorityAt(After(Initial(leaf), evs), op);
  }

  /** While an update is active the gate is its own: no membership change is held and no step of
      any CPU changes the epoch or the members. */
  lemma UpdateIsExclusive(leaf: Option<nat>, evs: seq<Event>, ev: Event)
    requires Runs(Initial(leaf), evs) && Enabled(After(Initial(leaf), evs), ev) && Active(After(Initial(leaf), evs).w)
    ensures var s := After(Initial(leaf), evs);
            && s.w.gate == 1 && (forall c | 0 <= c < MAX_CPUS :: !s.holds[c])
            && Next(s, ev).w.epoch == s.w.epoch && Next(s, ev).w.members == s.w.members
  {
    hide Sound, Next;
    EveryRun(leaf, evs);
    ExclusiveAt(After(Initial(leaf), evs), ev);
  }

  /** The assertion in `finish_membership_change` never fires after a successful try. */
  lemma MembershipAssertion(leaf: Option<nat>, evs: seq<Event>, c: nat)
    requires Runs(Initial(leaf), evs) && Enabled(After(Initial(leaf), evs), Call(c, FinishMembership))
    ensures FinishAsserts(After(Initial(leaf), evs))
  {
    hide Sound, Next;
    EveryRun(leaf, evs);
    HeldAt(After(Initial(leaf), evs), c);
  }

  /** The acknowledgement words never run ahead; `synced` stays behind `quiet` as long as no member
      calls `synchronized` too early. */
  lemma AcknowledgementOrder(leaf: Option<nat>, evs: seq<Event>, c: nat)
    requires Runs(Initial(leaf), evs) && c < MAX_CPUS
    ensures var w := After(Initial(leaf), evs).w;
            && w.quiet[c] <= w.epoch && w.synced[c] <= w.epoch && w.requested[c] <= w.epoch
            && (c != 0 ==> w.quiet[c] <= w.requested[c])
            && (Timely(Initial(leaf), evs) ==> w.synced[c] <= w.quiet[c])
  {
    hide Sound, Next;
    EveryRun(leaf, evs);
    OrderAt(After(Initial(leaf), evs), c);
    if Timely(Initial(leaf), evs) {
      TimelyKept(Initial(leaf), evs);
    }
  }

  /** After `reusable(e)` answered yes in some run, then for the rest of the run every member of
      epoch `e` has synchronized at it, no CPU caches a backing replaced in `e` unless a later
      replacement put it back, and until a later epoch begins every cached copy is the current leaf. */
  lemma ReuseTheorem(leaf: Option<nat>, evs: seq<Event>, c: nat, e: nat, later: seq<Event>)
    requires Runs(Initial(leaf), evs) && c < MAX_CPUS
    requires After(Initial(leaf), evs).pcs[c] == AckMember(Reusable(e), MAX_CPUS)
    requires Runs(After(Initial(leaf), evs), later)
    ensures var s := After(After(Initial(leaf), evs), later);
            && Retired(s, e)
            && (forall k, d | 0 <= k < |s.w.changes| && s.w.changes[k].e == e && 0 <= d < MAX_CPUS ::
                  s.w.tlb[d] == Some(s.w.changes[k].oldPa) ==> PutBack(s.w.changes, k))
            && (s.w.epoch == e ==> forall d | 0 <= d < MAX_CPUS :: s.w.tlb[d] == None || s.w.tlb[d] == s.w.leaf)
  {
    hide Sound, Next, Retired, PutBack;
    EveryRun(leaf, evs);
    var s := After(Initial(leaf), evs);
    RetiredAt(s, c, e);
    RetiredRun(s, later, e);
    var s' := After(s, later);
    forall k, d | 0 <= k < |s'.w.changes| && s'.w.changes[k].e == e && 0 <= d < MAX_CPUS
      ensures s'.w.tlb[d] == Some(s'.w.changes[k].oldPa) ==> PutBack(s'.w.changes, k)
    {
      if s'.w.tlb[d] == Some(s'.w.changes[k].oldPa) {
        CopiesAt(s', e, k, d);
      }
    }
    forall d | s'.w.epoch == e && 0 <= d < MAX_CPUS
      ensures s'.w.tlb[d] == None || s'.w.tlb[d] == s'.w.leaf
    {
      CurrentAt(s', e, d);
    }
  }

  /** A failed protocol stays failed for the rest of any run. */
  lemma FailedForever(leaf: Option<nat>, evs: seq<Event>, later: seq<Event>)
    requires Runs(Initial(leaf), evs) && After(Initial(leaf), evs).w.phase == Failed
    requires Runs(After(Initial(leaf), evs), later)
    ensures After(After(Initial(leaf), evs), later).w.phase == Failed
  {
    hide Sound, Next;
    EveryRun(leaf, evs);
    FailedRun(After(Initial(leaf), evs), later);
  }
}
