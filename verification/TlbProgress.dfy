/** Solo runs of the update protocol: left alone an update completes. They also show which calls of
    `synchronized` can break the order of the acknowledgements: exactly the early ones. A member that
    announces a later epoch reads its present membership, is delayed until that epoch is published
    without it, and acknowledges an epoch at which it was never quiet. */
module TlbProgress {
  import opened Bits
  import opened Wrappers
  import opened TlbUpdate
  import opened TlbTheorems
  import opened TlbSolo

  // Solo runs of one CPU.

  /** Some run without early calls leads from `s` to `s'`. */
  ghost predicate Leads(s: State, s': State) {
    Shape(s) && exists evs :: Runs(s, evs) && Timely(s, evs) && After(s, evs) == s'
  }

  lemma {:induction false} RunsConcat(s: State, a: seq<Event>, b: seq<Event>)
    requires Shape(s) && Runs(s, a) && Runs(After(s, a), b)
    ensures Runs(s, a + b) && After(s, a + b) == After(After(s, a), b)
    ensures Timely(s, a) && Timely(After(s, a), b) ==> Timely(s, a + b)
    decreases |a|
  {
    hide Next, Enabled, Early;
    if a == [] {
      assert a + b == b;
    } else {
      RunsConcat(Next(s, a[0]), a[1..], b);
      assert (a + b)[0] == a[0] && (a + b)[1..] == a[1..] + b;
    }
  }

  lemma Then(s: State, s': State, s'': State)
    requires Leads(s, s') && Leads(s', s'')
    ensures Leads(s, s'')
  {
    hide Shape;
    var a :| Runs(s, a) && Timely(s, a) && After(s, a) == s';
    var b :| Runs(s', b) && Timely(s', b) && After(s', b) == s'';
    RunsConcat(s, a, b);
  }

  lemma One(s: State, ev: Event)
    requires Shape(s) && Enabled(s, ev) && !(ev.Call? && Early(s.w, ev.c, ev.op))
    ensures Leads(s, Next(s, ev))
  {
    hide Next, Enabled, Early;
    var evs := [ev];
    assert Runs(Next(s, ev), evs[1..]) && After(Next(s, ev), evs[1..]) == Next(s, ev);
    assert Runs(s, evs) && Timely(s, evs) && After(s, evs) == Next(s, ev);
  }

  /** CPU `c` at position `pc`. */
  function Put(s: State, c: nat, pc: Pc): (s': State)
    requires Shape(s) && c < MAX_CPUS && WellPc(pc)
    ensures Shape(s')
  {
    s.(pcs := s.pcs[c := pc])
  }

  /** A load moves CPU `c` from one position to the next. */
  lemma Loads1(s: State, c: nat, pc: Pc, pc': Pc)
    requires Shape(s) && c < MAX_CPUS && WellPc(pc) && WellPc(pc') && Loads(pc) && Load(s.w, c, pc) == pc'
    ensures Leads(Put(s, c, pc), Put(s, c, pc'))
  {
    hide Load;
    One(Put(s, c, pc), Run(c));
    assert s.pcs[c := pc][c := pc'] == s.pcs[c := pc'];
    assert s.holds[c := s.holds[c]] == s.holds;
  }

  lemma Start(s: State, c: nat, op: Op)
    requires Shape(s) && c < MAX_CPUS && s.pcs[c] == Ready && MayCall(c, s.holds[c], op) && !op.FinishMembership?
    requires op.Synchronize? ==> op.e <= s.w.epoch
    ensures Leads(s, Put(s, c, Entry(op)))
  {
    One(s, Call(c, op));
    assert s.w.(timely := s.w.timely) == s.w;
  }

  /** The rest of a call, left alone. */
  lemma {:induction false} SoloRun(s: State, c: nat)
    requires Shape(s) && c < MAX_CPUS
    ensures var r := Solo(s.w, c, s.pcs[c], s.holds[c]);
            Leads(s, State(r.w, s.pcs[c := Ready], s.holds[c := r.holds]))
    decreases Rank(s.pcs[c])
  {
    hide Leads, Access, Rank;
    var pc := s.pcs[c];
    if pc == Ready {
      assert s.pcs[c := Ready] == s.pcs && s.holds[c := s.holds[c]] == s.holds;
      Stay(s);
    } else {
      var s1 := Next(s, Run(c));
      var r := Solo(s.w, c, pc, s.holds[c]);
      One(s, Run(c));
      AccessRank(s.w, c, pc, s.holds[c]);
      SoloRun(s1, c);
      assert s1.pcs[c := Ready] == s.pcs[c := Ready] && s1.holds[c := r.holds] == s.holds[c := r.holds];
      Then(s, s1, State(r.w, s.pcs[c := Ready], s.holds[c := r.holds]));
    }
  }

  lemma Stay(s: State)
    requires Shape(s)
    ensures Leads(s, s)
  {
    assert Runs(s, []) && Timely(s, []) && After(s, []) == s;
  }

  /** A whole call, left alone, follows its sequential specification. */
  lemma Do(s: State, c: nat, op: Op)
    requires Shape(s) && c < MAX_CPUS && s.pcs[c] == Ready && MayCall(c, s.holds[c], op) && !op.FinishMembership?
    requires op.Synchronize? ==> op.e <= s.w.epoch
    ensures Leads(s, s.(w := Spec(s.w, c, op), holds := s.holds[c := s.holds[c] || Takes(s.w, op)]))
    ensures !op.TryMembership? ==> Leads(s, s.(w := Spec(s.w, c, op)))
  {
    hide Leads, Solo, Spec;
    var s1, w' := Put(s, c, Entry(op)), Spec(s.w, c, op);
    Start(s, c, op);
    SoloRun(s1, c);
    SoloTheorem(s.w, c, op, s.holds[c]);
    assert s1.pcs[c := Ready] == s.pcs && s.holds[c := s.holds[c]] == s.holds;
    Then(s, s1, s.(w := w', holds := s.holds[c := s.holds[c] || Takes(s.w, op)]));
  }

  /** A scan reaches its end when every member has acknowledged. */
  lemma {:induction false} ScanTo(s: State, c: nat, op: Op, i: nat)
    requires Shape(s) && c < MAX_CPUS && Scans(op) && i <= MAX_CPUS && Unanimous(s.w, Acks(s.w, op))
    ensures Leads(Put(s, c, AckMember(op, i)), Put(s, c, AckMember(op, MAX_CPUS)))
    decreases MAX_CPUS - i
  {
    hide Leads;
    var here := Put(s, c, AckMember(op, i));
    if i == MAX_CPUS {
      Stay(here);
    } else {
      var next := Put(s, c, AckMember(op, i + 1));
      if i in s.w.members {
        Loads1(s, c, AckMember(op, i), AckLoad(op, i));
        Loads1(s, c, AckLoad(op, i), AckEpoch(op, i, s.w.epoch));
        Loads1(s, c, AckEpoch(op, i, s.w.epoch), AckMember(op, i + 1));
        Then(here, Put(s, c, AckLoad(op, i)), Put(s, c, AckEpoch(op, i, s.w.epoch)));
        Then(here, Put(s, c, AckEpoch(op, i, s.w.epoch)), next);
      } else {
        Loads1(s, c, AckMember(op, i), AckMember(op, i + 1));
      }
      ScanTo(s, c, op, i + 1);
      Then(here, next, Put(s, c, AckMember(op, MAX_CPUS)));
    }
  }

  /** Where its answer is yes, `reusable(e)` gets to the end of its scan. */
  lemma ReusableReached(s: State, c: nat, e: nat)
    requires Shape(s) && c < MAX_CPUS && s.pcs[c] == Ready && Answer(s.w, c, Reusable(e))
    ensures Leads(s, Put(s, c, AckMember(Reusable(e), MAX_CPUS)))
  {
    hide Leads;
    var op := Reusable(e);
    Start(s, c, op);
    Loads1(s, c, ReuseEpoch(e), ReusePhase(e));
    Loads1(s, c, ReusePhase(e), AckMember(op, 0));
    ScanTo(s, c, op, 0);
    Then(s, Put(s, c, ReuseEpoch(e)), Put(s, c, ReusePhase(e)));
    Then(s, Put(s, c, ReusePhase(e)), Put(s, c, AckMember(op, 0)));
    Then(s, Put(s, c, AckMember(op, 0)), Put(s, c, AckMember(op, MAX_CPUS)));
  }

  /** Nobody owns the gate and the last update, if any, is complete. */
  predicate Open(w: Words) {
    w.gate == 0 && (w.phase == Idle || w.phase == Complete) && w.epoch + 1 < U64_LIMIT
  }

  // A whole update.

  /** One CPU's acknowledgement words. */
  function QuietOne(w: Words, c: nat): (w': Words)
    requires SizedWords(w) && c < MAX_CPUS
    ensures SizedWords(w')
  {
    (if c == 0 then w else w.(requested := w.requested[c := w.epoch])).(quiet := w.quiet[c := w.epoch])
  }

  /** Every member from `i` on has been admitted and is quiet. */
  function QuietFrom(w: Words, i: nat): (w': Words)
    requires SizedWords(w) && i <= MAX_CPUS
    ensures SizedWords(w') && w'.(requested := w.requested, quiet := w.quiet) == w
    ensures forall c | 0 <= c < MAX_CPUS :: w'.quiet[c] == if i <= c && c in w.members then w.epoch else w.quiet[c]
    ensures forall c | 0 <= c < MAX_CPUS :: w'.requested[c] == w.requested[c] || w'.requested[c] == w.epoch
    decreases MAX_CPUS - i
  {
    if i == MAX_CPUS then w else QuietFrom(if i in w.members then QuietOne(w, i) else w, i + 1)
  }

  /** Every member from `i` on has synchronized. */
  function SyncFrom(w: Words, i: nat): (w': Words)
    requires SizedWords(w) && i <= MAX_CPUS
    ensures SizedWords(w') && w'.(synced := w.synced) == w
    ensures forall c | 0 <= c < MAX_CPUS :: w'.synced[c] == if i <= c && c in w.members then w.epoch else w.synced[c]
    decreases MAX_CPUS - i
  {
    if i == MAX_CPUS then w else SyncFrom(if i in w.members then w.(synced := w.synced[i := w.epoch]) else w, i + 1)
  }

  /** Every member is idle. */
  predicate Idlers(s: State) {
    Shape(s) && forall c | 0 <= c < MAX_CPUS && c in s.w.members :: s.pcs[c] == Ready
  }

  lemma {:induction false} DoQuietAll(s: State, i: nat)
    requires Idlers(s) && i <= MAX_CPUS && s.w.epoch > 0 && s.w.phase == Quiescing && s.w.gate == 1
    requires forall c | i <= c < MAX_CPUS && c in s.w.members :: s.w.requested[c] < s.w.epoch
    ensures Leads(s, s.(w := QuietFrom(s.w, i)))
    decreases MAX_CPUS - i
  {
    hide Leads;
    if i == MAX_CPUS {
      Stay(s);
    } else if i !in s.w.members {
      DoQuietAll(s, i + 1);
    } else {
      var s1 := s.(w := QuietOne(s.w, i));
      DoQuietOne(s, i);
      DoQuietAll(s1, i + 1);
      Then(s, s1, s.(w := QuietFrom(s.w, i)));
    }
  }

  lemma DoQuietOne(s: State, c: nat)
    requires Idlers(s) && c < MAX_CPUS && c in s.w.members && s.w.epoch > 0 && s.w.phase == Quiescing && s.w.gate == 1
    requires s.w.requested[c] < s.w.epoch
    ensures Leads(s, s.(w := QuietOne(s.w, c)))
  {
    hide Leads, GoodMask;
    var e := s.w.epoch;
    if c == 0 {
      Do(s, c, Quiesce(e));
    } else {
      var s1 := s.(w := s.w.(requested := s.w.requested[c := e]));
      Do(s, c, Admit(e));
      Do(s1, c, Quiesce(e));
      Then(s, s1, s.(w := QuietOne(s.w, c)));
    }
  }

  lemma {:induction false} DoSyncAll(s: State, i: nat)
    requires Idlers(s) && i <= MAX_CPUS && s.w.epoch > 0 && s.w.phase == Synchronizing && s.w.gate == 1
    ensures Leads(s, s.(w := SyncFrom(s.w, i)))
    decreases MAX_CPUS - i
  {
    hide Leads;
    if i == MAX_CPUS {
      Stay(s);
    } else if i !in s.w.members {
      DoSyncAll(s, i + 1);
    } else {
      var s1 := s.(w := s.w.(synced := s.w.synced[i := s.w.epoch]));
      Do(s, i, Synchronize(s.w.epoch));
      DoSyncAll(s1, i + 1);
      Then(s, s1, s.(w := SyncFrom(s.w, i)));
    }
  }

  /** The words once an update has been published. */
  function Published(w: Words, ms: set<nat>): (w': Words)
    requires SizedWords(w)
    ensures SizedWords(w') && w'.epoch == w.epoch + 1 && w'.members == ms && w'.phase == Synchronizing && w'.gate == 1
    ensures forall c | 0 <= c < MAX_CPUS ::
              && w'.quiet[c] == (if c in ms then w'.epoch else w.quiet[c])
              && (w'.requested[c] == w.requested[c] || w'.requested[c] == w'.epoch)
  {
    QuietFrom(Begun(w, ms), 0).(replaced := w.epoch + 1, published := w.epoch + 1, phase := Synchronizing)
  }

  /** The gate is open, and the members of the update to come are idle. */
  predicate Free(s: State, ms: set<nat>) {
    && Shape(s) && GoodMask(ms) && Open(s.w)
    && forall c | 0 <= c < MAX_CPUS :: (c in ms ==> s.pcs[c] == Ready) && s.w.requested[c] <= s.w.epoch
  }

  lemma BeginSpec(w: Words, ms: set<nat>)
    requires SizedWords(w) && Open(w) && GoodMask(ms)
    ensures Spec(w, 0, Begin(ms)) == Begun(w, ms)
  {
    GoodMaskMeans(ms);
  }

  lemma StartSpec(w: Words, e: nat)
    requires SizedWords(w) && Passes(w, 0, e, Quiescing) && Unanimous(w, w.quiet)
    ensures Spec(w, 0, StartReplace(e)) == w.(phase := Replacing, replaced := e)
  {
  }

  lemma PublishSpec(w: Words, e: nat)
    requires SizedWords(w) && Passes(w, 0, e, Replacing)
    ensures Spec(w, 0, Publish(e)) == w.(phase := Synchronizing, published := e)
  {
  }

  lemma DoPublishEpoch(s: State, ms: set<nat>)
    requires Free(s, ms)
    ensures Leads(s, s.(w := Published(s.w, ms)))
  {
    hide Leads, Load, Store, Spec;
    var e := s.w.epoch + 1;
    var s1 := s.(w := Begun(s.w, ms));
    var s4 := s.(w := QuietFrom(s1.w, 0));
    var s5 := s4.(w := s4.w.(phase := Replacing, replaced := e));
    Do(s, 0, Begin(ms));
    DoQuietAll(s1, 0);
    Do(s4, 0, StartReplace(e));
    Do(s5, 0, Publish(e));
    BeginSpec(s.w, ms);
    StartSpec(s4.w, e);
    PublishSpec(s5.w, e);
    Then(s, s1, s4);
    Then(s, s4, s5);
    Then(s, s5, s.(w := Published(s.w, ms)));
  }

  function Completed(w: Words, ms: set<nat>): (w': Words)
    requires SizedWords(w)
    ensures SizedWords(w') && w'.epoch == w.epoch + 1 && w'.members == ms && w'.phase == Complete && w'.gate == 0
    ensures w'.quiet == Published(w, ms).quiet && w'.requested == Published(w, ms).requested
    ensures forall c | 0 <= c < MAX_CPUS && c in ms :: w'.synced[c] == w'.epoch
  {
    SyncFrom(Published(w, ms), 0).(phase := Complete, done := w.epoch + 1, active := false, gate := 0)
  }

  /** The protocol makes progress: left alone, an update with any members completes. */
  lemma Progress(s: State, ms: set<nat>)
    requires Free(s, ms)
    ensures Leads(s, s.(w := Completed(s.w, ms)))
  {
    hide Leads, Load, Store;
    var s1 := s.(w := Published(s.w, ms));
    var s3 := s.(w := SyncFrom(s1.w, 0));
    DoPublishEpoch(s, ms);
    DoSyncAll(s1, 0);
    Do(s3, 0, Finish(s.w.epoch + 1));
    Then(s, s1, s3);
    Then(s, s3, s.(w := Completed(s.w, ms)));
  }

  /** Once an update is complete every CPU at rest is told that its backings are reusable. */
  lemma ReusableAfter(s: State, ms: set<nat>, c: nat)
    requires Free(s, ms) && c < MAX_CPUS && s.pcs[c] == Ready
    ensures Leads(s, s.(w := Completed(s.w, ms), pcs := s.pcs[c := AckMember(Reusable(s.w.epoch + 1), MAX_CPUS)]))
  {
    hide Leads, Load, Store, Published, SyncFrom;
    var s1 := s.(w := Completed(s.w, ms));
    Progress(s, ms);
    ReusableReached(s1, c, s.w.epoch + 1);
    Then(s, s1, Put(s1, c, AckMember(Reusable(s.w.epoch + 1), MAX_CPUS)));
  }

  // Early calls.

  /** A member of the present epoch announces a later one and reads its present membership. */
  lemma EarlyRead(s: State, c: nat, e: nat)
    requires Shape(s) && c < MAX_CPUS && c in s.w.members && s.w.phase != Failed
    ensures Leads(Put(s, c, CheckFailed(Synchronize(e))), Put(s, c, CheckEpoch(Synchronize(e))))
  {
    hide Leads;
    var op := Synchronize(e);
    Loads1(s, c, CheckFailed(op), CheckMember(op));
    Loads1(s, c, CheckMember(op), CheckEpoch(op));
    Then(Put(s, c, CheckFailed(op)), Put(s, c, CheckMember(op)), Put(s, c, CheckEpoch(op)));
  }

  /** Once epoch `e` is published, the delayed call goes through. */
  lemma LateStore(s: State, c: nat, e: nat)
    requires Shape(s) && c < MAX_CPUS && s.w.epoch == e > 0 && s.w.phase == Synchronizing && s.w.gate == 1
    ensures Leads(Put(s, c, CheckEpoch(Synchronize(e))), Put(s.(w := s.w.(synced := s.w.synced[c := e])), c, Ready))
  {
    hide Leads;
    var op, s1 := Synchronize(e), Put(s, c, CheckEpoch(Synchronize(e)));
    CheckRest(s.w, c, op, s.holds[c]);
    SyncLast(s.w, c, e, s.holds[c]);
    SoloRun(s1, c);
    assert s1.pcs[c := Ready] == s.pcs[c := Ready] && s1.holds[c := s.holds[c]] == s.holds;
  }

  /** Updates with members `ms` follow each other until epoch `e` is published, and a CPU outside
      `ms` stays where it is. */
  lemma {:induction false} PublishUpTo(s: State, ms: set<nat>, c: nat, e: nat) returns (s': State)
    requires Free(s, ms) && c < MAX_CPUS && c !in ms && s.w.epoch < e < U64_LIMIT
    ensures Leads(s, s') && Shape(s') && s'.pcs == s.pcs && s'.w.quiet[c] == s.w.quiet[c]
    ensures s'.w.epoch == e && s'.w.phase == Synchronizing && s'.w.gate == 1
    decreases e - s.w.epoch
  {
    hide Leads, Published, Completed, WellPc, GoodMask;
    if s.w.epoch + 1 == e {
      DoPublishEpoch(s, ms);
      s' := s.(w := Published(s.w, ms));
    } else {
      Progress(s, ms);
      var next := s.(w := Completed(s.w, ms));
      s' := PublishUpTo(next, ms, c, e);
      Then(s, next, s');
    }
  }

  /** No update is under way and every CPU is idle. */
  predicate AtRest(s: State) {
    Shape(s) && s.w.gate == 0 && (s.w.phase == Idle || s.w.phase == Complete)
    && forall c | 0 <= c < MAX_CPUS :: s.pcs[c] == Ready
  }

  predicate Overtaken(s: State)
    requires Shape(s)
  {
    exists c | 0 <= c < MAX_CPUS :: s.w.synced[c] > s.w.quiet[c]
  }

  /** Some run that makes no further early call ends with `synced` ahead of `quiet`. */
  ghost predicate CanOvertake(s: State)
    requires Shape(s)
  {
    exists evs :: Runs(s, evs) && Timely(s, evs) && Overtaken(After(s, evs))
  }

  lemma EarlyCallOvertakes(s: State, c: nat, e: nat)
    requires AtRest(s) && c < MAX_CPUS && Early(s.w, c, Synchronize(e)) && s.w.quiet[c] <= s.w.epoch
    requires forall d | 0 <= d < MAX_CPUS :: s.w.requested[d] <= s.w.epoch
    ensures CanOvertake(Next(s, Call(c, Synchronize(e))))
  {
    hide Leads, Load, Store, Early;
    var op, ms: set<nat> := Synchronize(e), {0, if c == 1 then 2 else 1};
    var s0 := s.(w := s.w.(timely := false));
    var s1, s2 := Put(s0, c, CheckFailed(op)), Put(s0, c, CheckEpoch(op));
    EarlyStep(s, c, e);
    EarlyRead(s0, c, e);
    var s3 := PublishUpTo(s2, ms, c, e);
    LateStore(s3, c, e);
    assert Put(s3, c, CheckEpoch(op)) == s3;
    var s4 := Put(s3.(w := s3.w.(synced := s3.w.synced[c := e])), c, Ready);
    Then(s1, s2, s3);
    Then(s1, s3, s4);
    assert s4.w.synced[c] > s4.w.quiet[c];
    Witness(s1, s4);
  }

  lemma EarlyStep(s: State, c: nat, e: nat)
    requires AtRest(s) && c < MAX_CPUS && Early(s.w, c, Synchronize(e))
    ensures Enabled(s, Call(c, Synchronize(e))) && c in s.w.members && c != 0 && s.w.epoch < e < U64_LIMIT
    ensures Next(s, Call(c, Synchronize(e))) == Put(s.(w := s.w.(timely := false)), c, CheckFailed(Synchronize(e)))
  {
  }

  lemma Witness(s: State, s': State)
    requires Leads(s, s') && Shape(s') && Overtaken(s')
    ensures CanOvertake(s)
  {
    hide Shape, Overtaken;
    var evs :| Runs(s, evs) && Timely(s, evs) && After(s, evs) == s';
  }

  lemma OtherCallsKeepOrder(s: State, c: nat, e: nat)
    requires Sound(s) && AtRest(s) && s.w.timely && c < MAX_CPUS && !Early(s.w, c, Synchronize(e))
    ensures !CanOvertake(Next(s, Call(c, Synchronize(e))))
  {
    hide Early, Sound;
    var s1 := Next(s, Call(c, Synchronize(e)));
    StepSound(s, Call(c, Synchronize(e)));
    forall evs | Runs(s1, evs) && Timely(s1, evs)
      ensures !Overtaken(After(s1, evs))
    {
      OrderKept(s1, evs);
    }
  }

  lemma OrderKept(s: State, evs: seq<Event>)
    requires Sound(s) && s.w.timely && Runs(s, evs) && Timely(s, evs)
    ensures !Overtaken(After(s, evs))
  {
    hide Next, Sound;
    RunSound(s, evs);
    TimelyKept(s, evs);
    forall d | 0 <= d < MAX_CPUS
      ensures After(s, evs).w.synced[d] <= After(s, evs).w.quiet[d]
    {
      OrderAt(After(s, evs), d);
    }
  }

  /** Whenever no update is under way, a call of `synchronized` can lead to `synced` ahead of `quiet`
      exactly if it is early: made by a member other than CPU 0, for an epoch still to come. */
  lemma OvertakesIff(leaf: Option<nat>, evs: seq<Event>, c: nat, e: nat)
    requires Runs(Initial(leaf), evs) && AtRest(After(Initial(leaf), evs)) && Timely(Initial(leaf), evs)
    requires c < MAX_CPUS
    ensures var s := After(Initial(leaf), evs);
            CanOvertake(Next(s, Call(c, Synchronize(e)))) <==> Early(s.w, c, Synchronize(e))
  {
    hide Sound, Next, Early, CanOvertake;
    EveryRun(leaf, evs);
    TimelyKept(Initial(leaf), evs);
    var s := After(Initial(leaf), evs);
    if Early(s.w, c, Synchronize(e)) {
      forall d | 0 <= d < MAX_CPUS
        ensures s.w.quiet[d] <= s.w.epoch && s.w.requested[d] <= s.w.epoch
      {
        OrderAt(s, d);
      }
      EarlyCallOvertakes(s, c, e);
    } else {
      OtherCallsKeepOrder(s, c, e);
    }
  }

  /** So the order fails in some run: a member of epoch 1 announces epoch 2. */
  lemma SyncedAheadOfQuiet()
    ensures exists evs :: Runs(Initial(None), evs) && Overtaken(After(Initial(None), evs))
  {
    hide Leads, Published, Completed, Overtaken, Store, Load;
    var s0, ev := Initial(None), Call(1, Synchronize(2));
    var s1 := s0.(w := Completed(s0.w, {0, 1}));
    Progress(s0, {0, 1});
    EarlyCallOvertakes(s1, 1, 2);
    EarlyStep(s1, 1, 2);
    Prolong(s0, s1, ev);
  }

  lemma Prolong(s: State, s': State, ev: Event)
    requires Leads(s, s') && Shape(s') && Enabled(s', ev) && CanOvertake(Next(s', ev))
    ensures exists evs :: Runs(s, evs) && Overtaken(After(s, evs))
  {
    hide Shape, Overtaken, Next, Enabled;
    var a :| Runs(s, a) && Timely(s, a) && After(s, a) == s';
    var b :| Runs(Next(s', ev), b) && Timely(Next(s', ev), b) && Overtaken(After(Next(s', ev), b));
    var rest := [ev] + b;
    assert rest[0] == ev && rest[1..] == b;
    assert Runs(s', rest) && After(s', rest) == After(Next(s', ev), b);
    RunsConcat(s, a, rest);
  }
}
