/** What every run of the secondary startup keeps. */
module SecondarySafety {
  import opened SecondaryBoot

  // The log.

  /** What must directly precede the store to a release cell. */
  function Approach(id: nat): seq<Effect> {
    [ReadZero(id), Started(id), BarrierDone, ReadZero(id), Attempted(id)]
  }

  /** The last entries of the log. */
  predicate Ends(log: seq<Effect>, tail: seq<Effect>) {
    |tail| <= |log| && log[|log| - |tail|..] == tail
  }

  predicate InOrder(log: seq<Effect>) {
    forall k | 0 <= k < |log| && log[k].Stored? :: Ends(log[..k], Approach(log[k].id)) && PublishedAll in log[..k]
  }

  predicate StoredOnce(log: seq<Effect>) {
    forall j, k | 0 <= j < k < |log| && log[j].Stored? :: log[k] != log[j]
  }

  /** After its cell was stored, the CPU was seen parked in this generation and then without failures. */
  ghost predicate Verified(log: seq<Effect>, id: nat, g: nat) {
    exists k :: 0 <= k < |log| - 1 && log[k] == SawParked(id, g) && log[k + 1] == SawClean(id) && Stored(id) in log[..k]
  }

  ghost predicate AllVerified(b: Boot) {
    b.attempted == b.required && b.required != {} && forall id | id in b.required :: Verified(b.log, id, b.generation)
  }

  lemma VerifiedGrows(log: seq<Effect>, e: Effect, id: nat, g: nat)
    requires Verified(log, id, g)
    ensures Verified(log + [e], id, g)
  {
    var k :| 0 <= k < |log| - 1 && log[k] == SawParked(id, g) && log[k + 1] == SawClean(id) && Stored(id) in log[..k];
    var log' := log + [e];
    assert log'[k] == SawParked(id, g) && log'[k + 1] == SawClean(id) && log'[..k] == log[..k];
  }

  lemma OrderGrows(log: seq<Effect>, e: Effect)
    requires InOrder(log) && StoredOnce(log)
    requires e.Stored? ==> Ends(log, Approach(e.id)) && PublishedAll in log && e !in log
    ensures InOrder(log + [e]) && StoredOnce(log + [e])
  {
    var log' := log + [e];
    forall k | 0 <= k < |log'| && log'[k].Stored?
      ensures Ends(log'[..k], Approach(log'[k].id)) && PublishedAll in log'[..k]
    {
      assert log'[..k] == log[..k];
      assert k == |log| ==> log[..k] == log;
    }
  }

  lemma EndsGrow(log: seq<Effect>, tail: seq<Effect>, e: Effect)
    requires Ends(log, tail)
    ensures Ends(log + [e], tail + [e])
  {
  }

  // The mailboxes.

  predicate Reached(c: Cpu) {
    c.state != Offline && c.state != Prepared
  }

  /** Nobody enters before Starting, one entrant holds the claim, and only it leaves Starting. */
  predicate CpuOk(c: Cpu) {
    && (c.ready != 0 ==> c.state != Offline) && (Reached(c) ==> c.ready != 0)
    && (c.arrived > 0 || c.claimed ==> Reached(c))
    && c.holders <= 1 && (c.holders > 0 ==> c.claimed && c.state == Starting)
    && (c.state == Parked || c.state == Online || c.state == Failed ==> c.claimed && c.holders == 0)
  }

  predicate CpusOk(b: Boot)
    requires Shape(b)
  {
    forall id | 0 <= id < MAX_CPUS ::
      && CpuOk(b.cpus[id]) && (b.cpus[id].ready == 0 || b.cpus[id].ready == b.generation)
      && (Reached(b.cpus[id]) ==> Started(id) in b.log)
      && (SawParked(id, b.generation) in b.log ==> b.cpus[id].claimed)
  }

  // The procedure.

  /** Cells of the required CPUs below `id` have been stored. */
  predicate StoredBelow(b: Boot, id: nat) {
    forall j | j in b.required && j < id :: Stored(j) in b.log
  }

  predicate TailOk(b: Boot) {
    match b.pc
    case StartCpu(id) => Ends(b.log, [ReadZero(id)])
    case Barrier(id) => Ends(b.log, [ReadZero(id), Started(id)])
    case SecondRead(id) => Ends(b.log, [ReadZero(id), Started(id), BarrierDone])
    case MarkAttempt(id) => Ends(b.log, [ReadZero(id), Started(id), BarrierDone, ReadZero(id)])
    case StoreCell(id) => Ends(b.log, Approach(id)) && id in b.attempted && Stored(id) !in b.log
    case VerifyFailures(id) => Ends(b.log, [SawParked(id, b.generation)])
    case _ => true
  }

  predicate Releases(pc: Pc) {
    || pc.CheckFatal? || pc.CheckRecord? || pc.CheckAttempted? || pc.FirstRead? || pc.StartCpu? || pc.Barrier?
    || pc.SecondRead? || pc.MarkAttempt? || pc.StoreCell? || pc.CleanLine? || pc.FinalBarrier? || pc.SendEvent?
  }

  /** Where CPU 0 can be, given the status, and what it has achieved there. */
  ghost predicate PlaceOk(b: Boot) {
    match b.status
    case Idle => b.pc == Resting && b.log == [] && b.required == {} && b.generation == 0
    case Preparing =>
      && b.required * {0} == {}
      && (if b.pc.PrepareCpu? || b.pc.PublishCpu? || b.pc.PublishAll? then b.log == [] && b.required != {}
          else if b.pc.BeginRelease? then b.log == [PublishedAll] && b.required != {}
          else if b.pc.Finalize? then b.pc.outcome != Fine && b.log == []
          else b.pc == FinalSwap(PreparationFailed) && b.log == [])
    case Releasing =>
      && PublishedAll in b.log && b.required != {}
      && (if Releases(b.pc) then
            && StoredBelow(b, b.pc.id) && b.pc.id in b.required
            && (b.pc.CleanLine? || b.pc.FinalBarrier? || b.pc.SendEvent? ==> Stored(b.pc.id) in b.log)
          else if Waits(b.pc) then StoredBelow(b, b.pc.id + 1)
          else if b.pc.VerifyMask? || b.pc.VerifyFatal? then
            StoredBelow(b, MAX_CPUS) && (b.pc.VerifyFatal? ==> b.attempted == b.required)
          else if b.pc.VerifyCpu? || b.pc.VerifyFailures? then
            && StoredBelow(b, MAX_CPUS) && b.attempted == b.required && b.pc.id in b.required
            && forall j | j in b.required && j < b.pc.id :: Verified(b.log, j, b.generation)
          else if b.pc.Finalize? then b.pc.outcome == Fine ==> AllVerified(b)
          else b.pc.FinalSwap? && (b.pc.next == Ready ==> AllVerified(b))
               && (b.pc.next == Ready || b.pc.next == ReleaseFailed || b.pc.next == WaitFailed))
    case Ready => b.pc == Resting && AllVerified(b)
    case _ => b.pc == Resting
  }

  /** A bit is set only for a required CPU, and only right before its cell is stored. */
  predicate AttemptsOk(b: Boot) {
    && (forall id | id in b.attempted :: id in b.required && (Stored(id) in b.log || b.pc == StoreCell(id)))
    && (forall k | 0 <= k < |b.log| && b.log[k].Stored? :: b.log[k].id in b.attempted)
  }

  ghost predicate Inv(b: Boot)
    ensures Inv(b) ==> Shape(b)
  {
    && Shape(b) && OwnId(b.pc) && CpusOk(b) && InOrder(b.log) && StoredOnce(b.log)
    && TailOk(b) && PlaceOk(b) && AttemptsOk(b)
  }

  lemma NewInv(cells: seq<nat>, listed: set<nat>)
    requires Platform(cells, listed)
    ensures Inv(New(cells, listed))
  {
  }

  lemma StepPrepare(b: Boot, luck: Luck)
    requires Inv(b) && Prepares(b.pc)
    ensures Inv(PrepareStep(b, luck))
  {
    hide InOrder, StoredOnce;
    if b.pc.PublishAll? && luck.ok {
      OrderGrows(b.log, PublishedAll);
    }
  }

  lemma StepCheck(b: Boot, luck: Luck)
    requires Inv(b)
    requires || b.pc.CheckFatal? || b.pc.CheckRecord? || b.pc.CheckAttempted?
             || b.pc.CleanLine? || b.pc.FinalBarrier? || b.pc.SendEvent?
    ensures Inv(ReleaseStep(b, luck))
  {
    hide InOrder, StoredOnce, Verified;
  }

  lemma StepFirstRead(b: Boot, luck: Luck)
    requires Inv(b) && b.pc.FirstRead?
    ensures Inv(ReleaseStep(b, luck))
  {
    hide InOrder, StoredOnce, Verified, Ends;
    OrderGrows(b.log, ReadZero(b.pc.id));
    LastEnds(b.log, ReadZero(b.pc.id));
  }

  lemma StepSecondRead(b: Boot, luck: Luck)
    requires Inv(b) && b.pc.SecondRead?
    ensures Inv(ReleaseStep(b, luck))
  {
    hide InOrder, StoredOnce, Verified, Ends;
    var id := b.pc.id;
    OrderGrows(b.log, ReadZero(id));
    EndsGrow(b.log, [ReadZero(id), Started(id), BarrierDone], ReadZero(id));
    assert [ReadZero(id), Started(id), BarrierDone] + [ReadZero(id)]
        == [ReadZero(id), Started(id), BarrierDone, ReadZero(id)];
  }

  lemma LastEnds(log: seq<Effect>, e: Effect)
    ensures Ends(log + [e], [e])
  {
  }

  lemma StepStarting(b: Boot, luck: Luck)
    requires Inv(b) && b.pc.StartCpu?
    ensures Inv(ReleaseStep(b, luck))
  {
    hide InOrder, StoredOnce, Verified, Ends;
    var id := b.pc.id;
    OrderGrows(b.log, Started(id));
    EndsGrow(b.log, [ReadZero(id)], Started(id));
    assert [ReadZero(id)] + [Started(id)] == [ReadZero(id), Started(id)];
  }

  lemma StepBarrier(b: Boot, luck: Luck)
    requires Inv(b) && b.pc.Barrier?
    ensures Inv(ReleaseStep(b, luck))
  {
    hide InOrder, StoredOnce, Verified, Ends;
    var id := b.pc.id;
    OrderGrows(b.log, BarrierDone);
    EndsGrow(b.log, [ReadZero(id), Started(id)], BarrierDone);
    assert [ReadZero(id), Started(id)] + [BarrierDone] == [ReadZero(id), Started(id), BarrierDone];
  }

  lemma StepAttempt(b: Boot, luck: Luck)
    requires Inv(b) && b.pc.MarkAttempt?
    ensures Inv(ReleaseStep(b, luck))
  {
    hide InOrder, StoredOnce, Verified, Ends;
    var id := b.pc.id;
    OrderGrows(b.log, Attempted(id));
    EndsGrow(b.log, [ReadZero(id), Started(id), BarrierDone, ReadZero(id)], Attempted(id));
    assert [ReadZero(id), Started(id), BarrierDone, ReadZero(id)] + [Attempted(id)] == Approach(id);
  }

  lemma StepStore(b: Boot, luck: Luck)
    requires Inv(b) && b.pc.StoreCell?
    ensures Inv(ReleaseStep(b, luck))
  {
    hide InOrder, StoredOnce, Verified, Ends;
    OrderGrows(b.log, Stored(b.pc.id));
  }

  lemma StepRelease(b: Boot, luck: Luck)
    requires Inv(b) && Releases(b.pc)
    ensures Inv(ReleaseStep(b, luck))
  {
    hide Inv, ReleaseStep;
    if b.pc.FirstRead? {
      StepFirstRead(b, luck);
    } else if b.pc.SecondRead? {
      StepSecondRead(b, luck);
    } else if b.pc.StartCpu? {
      StepStarting(b, luck);
    } else if b.pc.Barrier? {
      StepBarrier(b, luck);
    } else if b.pc.MarkAttempt? {
      StepAttempt(b, luck);
    } else if b.pc.StoreCell? {
      StepStore(b, luck);
    } else {
      StepCheck(b, luck);
    }
  }

  lemma StepWait(b: Boot, luck: Luck)
    requires Inv(b) && Waits(b.pc)
    ensures Inv(WaitStep(b, luck))
  {
    hide Inv, WaitStep;
    if b.pc.Readback? {
      StepReadback(b, luck);
    } else {
      StepPoll(b, luck);
    }
  }

  lemma StepPoll(b: Boot, luck: Luck)
    requires Inv(b) && Waits(b.pc) && !b.pc.Readback?
    ensures Inv(WaitStep(b, luck))
  {
    hide InOrder, StoredOnce, Verified, Ends;
  }

  lemma StepReadback(b: Boot, luck: Luck)
    requires Inv(b) && b.pc.Readback?
    ensures Inv(WaitStep(b, luck))
  {
    hide InOrder, StoredOnce, Verified, Ends;
    OrderGrows(b.log, SawCell(b.pc.at, b.cpus[b.pc.at].cell));
  }

  lemma StepFinish(b: Boot, luck: Luck)
    requires Inv(b) && (b.pc.VerifyMask? || b.pc.VerifyFatal? || b.pc.Finalize? || b.pc.FinalSwap?)
    ensures Inv(VerifyStep(b, luck))
  {
    hide InOrder, StoredOnce, Verified, Ends;
  }

  /** Logging an observation keeps what the log and the mailboxes say. */
  lemma SawKeeps(b: Boot, e: Effect, pc: Pc)
    requires Inv(b) && Verifies(b.pc) && Verifies(pc) && OwnId(pc)
    requires (e.SawParked? && e.id < MAX_CPUS && b.cpus[e.id].claimed) || e.SawClean?
    ensures var b' := Log(b, e, pc); Shape(b') && CpusOk(b') && AttemptsOk(b') && InOrder(b'.log) && StoredOnce(b'.log)
  {
    hide InOrder, StoredOnce, Verified, Ends, PlaceOk, TailOk;
    OrderGrows(b.log, e);
  }

  /** Giving up keeps everything. */
  lemma FailKeeps(b: Boot, f: Fault, o: Outcome)
    requires Inv(b) && Verifies(b.pc) && b.status == Releasing && o != Fine
    ensures Inv(Fail(b, f, o))
  {
    hide InOrder, StoredOnce, Verified, Ends;
  }

  lemma StoredGrows(b: Boot, e: Effect, pc: Pc)
    requires StoredBelow(b, MAX_CPUS)
    ensures StoredBelow(Log(b, e, pc), MAX_CPUS)
  {
  }

  lemma StepSawParked(b: Boot, luck: Luck)
    requires Inv(b) && b.pc.VerifyCpu?
    ensures Inv(VerifyStep(b, luck))
  {
    hide InOrder, StoredOnce, Verified, Ends, AttemptsOk, StoredBelow;
    var id, e := b.pc.id, SawParked(b.pc.id, b.generation);
    if IsIn(b.cpus[id], b.generation, Parked) {
      SawKeeps(b, e, VerifyFailures(id));
      StoredGrows(b, e, VerifyFailures(id));
      LastEnds(b.log, e);
      StillVerified(b, e);
    } else {
      FailKeeps(b, BadCheckpoint(id), CheckpointError);
    }
  }

  lemma StepSawClean(b: Boot, luck: Luck)
    requires Inv(b) && b.pc.VerifyFailures?
    ensures Inv(VerifyStep(b, luck))
  {
    hide InOrder, StoredOnce, Verified, Ends, AttemptsOk, StoredBelow, CpusOk;
    var id, e := b.pc.id, SawClean(b.pc.id);
    if b.cpus[id].failures == 0 {
      var pc := VerifyFrom(b.required, id + 1);
      SawKeeps(b, e, pc);
      StoredGrows(b, e, pc);
      StillVerified(b, e);
      HasStored(b, id);
      NowVerified(b.log, id, b.generation);
    } else {
      FailKeeps(b, BadCheckpoint(id), CheckpointError);
    }
  }

  lemma HasStored(b: Boot, id: nat)
    requires StoredBelow(b, MAX_CPUS) && id in b.required && id < MAX_CPUS
    ensures Stored(id) in b.log
  {
  }

  lemma StillVerified(b: Boot, e: Effect)
    requires b.pc.VerifyCpu? || b.pc.VerifyFailures?
    requires forall j | j in b.required && j < b.pc.id :: Verified(b.log, j, b.generation)
    ensures forall j | j in b.required && j < b.pc.id :: Verified(b.log + [e], j, b.generation)
  {
    hide Verified;
    forall j | j in b.required && j < b.pc.id
      ensures Verified(b.log + [e], j, b.generation)
    {
      VerifiedGrows(b.log, e, j, b.generation);
    }
  }

  lemma NowVerified(log: seq<Effect>, id: nat, g: nat)
    requires Ends(log, [SawParked(id, g)]) && Stored(id) in log
    ensures Verified(log + [SawClean(id)], id, g)
  {
    var log', k := log + [SawClean(id)], |log| - 1;
    assert log[k] == log[|log| - 1..][0];
    assert log == log[..k] + [log[k]];
    assert log'[..k] == log[..k] && log'[k] == SawParked(id, g) && log'[k + 1] == SawClean(id);
  }

  lemma StepVerify(b: Boot, luck: Luck)
    requires Inv(b) && Verifies(b.pc)
    ensures Inv(VerifyStep(b, luck))
  {
    hide Inv, VerifyStep;
    if b.pc.VerifyCpu? {
      StepSawParked(b, luck);
    } else if b.pc.VerifyFailures? {
      StepSawClean(b, luck);
    } else {
      StepFinish(b, luck);
    }
  }

  lemma StepCpu(b: Boot, ev: Event)
    requires Inv(b) && Enabled(b, ev) && !ev.StartAll? && !ev.Step?
    ensures Inv(Next(b, ev))
  {
    hide InOrder, StoredOnce;
  }

  lemma StepStart(b: Boot, ev: Event)
    requires Inv(b) && Enabled(b, ev) && ev.StartAll?
    ensures Inv(Next(b, ev))
  {
    hide InOrder, StoredOnce;
  }

  /** Every step of CPU 0 and of every entrant keeps the invariant. */
  lemma StepInv(b: Boot, ev: Event)
    requires Inv(b) && Enabled(b, ev)
    ensures Inv(Next(b, ev))
  {
    hide Inv, PrepareStep, ReleaseStep, WaitStep, VerifyStep;
    if ev.StartAll? {
      StepStart(b, ev);
    } else if ev.Step? {
      if Prepares(b.pc) {
        StepPrepare(b, ev.luck);
      } else if Waits(b.pc) {
        StepWait(b, ev.luck);
      } else if Verifies(b.pc) {
        StepVerify(b, ev.luck);
      } else {
        StepRelease(b, ev.luck);
      }
    } else {
      StepCpu(b, ev);
    }
  }

  // Runs.

  predicate Runs(b: Boot, evs: seq<Event>)
    requires Shape(b)
    decreases |evs|
  {
    evs == [] || (Enabled(b, evs[0]) && Runs(Next(b, evs[0]), evs[1..]))
  }

  function After(b: Boot, evs: seq<Event>): (b': Boot)
    requires Shape(b) && Runs(b, evs)
    ensures Shape(b')
    decreases |evs|
  {
    if evs == [] then b else After(Next(b, evs[0]), evs[1..])
  }

  lemma {:induction false} RunInv(b: Boot, evs: seq<Event>)
    requires Inv(b) && Runs(b, evs)
    ensures Inv(After(b, evs))
    decreases |evs|
  {
    hide Inv, Enabled, Next;
    if evs != [] {
      StepInv(b, evs[0]);
      RunInv(Next(b, evs[0]), evs[1..]);
    }
  }

  /** Every store to a release cell in every run comes right after two zero reads around the
      Starting transition and a barrier, with its attempted bit set, and after all publication;
      and no cell is stored twice. */
  lemma ReleaseDiscipline(cells: seq<nat>, listed: set<nat>, evs: seq<Event>, k: nat)
    requires Platform(cells, listed) && Runs(New(cells, listed), evs) && k < |After(New(cells, listed), evs).log|
    requires After(New(cells, listed), evs).log[k].Stored?
    ensures var b := After(New(cells, listed), evs); var id := b.log[k].id;
            && k >= 5 && b.log[k - 5..k] == [ReadZero(id), Started(id), BarrierDone, ReadZero(id), Attempted(id)]
            && PublishedAll in b.log[..k] && id in b.attempted && id in b.required
            && (forall j | 0 <= j < |b.log| && j != k :: b.log[j] != Stored(id))
  {
    NewInv(cells, listed);
    RunInv(New(cells, listed), evs);
    var b := After(New(cells, listed), evs);
    hide Inv;
    StoreAt(b, k);
  }

  lemma StoreAt(b: Boot, k: nat)
    requires Inv(b) && k < |b.log| && b.log[k].Stored?
    ensures var id := b.log[k].id;
            && k >= 5 && b.log[k - 5..k] == Approach(id) && PublishedAll in b.log[..k]
            && id in b.attempted && id in b.required
            && (forall j | 0 <= j < |b.log| && j != k :: b.log[j] != Stored(id))
  {
    hide CpusOk, TailOk, PlaceOk;
    assert Ends(b.log[..k], Approach(b.log[k].id));
    assert b.log[..k][k - 5..] == b.log[k - 5..k];
  }

  /** An authorized guest means that the attempted set is exactly the required one, and that every
      member had its cell stored, and was afterwards seen parked in this generation and free of failures. */
  lemma Authorization(cells: seq<nat>, listed: set<nat>, evs: seq<Event>, fatal: bool)
    requires Platform(cells, listed) && Runs(New(cells, listed), evs)
    requires GuestAuthorized(After(New(cells, listed), evs), fatal)
    ensures var b := After(New(cells, listed), evs);
            && b.required != {} && b.attempted == b.required
            && (forall id | id in b.required ::
                  && Verified(b.log, id, b.generation) && Started(id) in b.log
                  && id < MAX_CPUS && b.cpus[id].claimed && ObservesReady(b.cpus[id], b.generation))
  {
    hide Inv, Verified, Next, Enabled;
    NewInv(cells, listed);
    RunInv(New(cells, listed), evs);
    var b := After(New(cells, listed), evs);
    ReadyMeans(b);
    forall id | id in b.required
      ensures id < MAX_CPUS && b.cpus[id].claimed && Started(id) in b.log && ObservesReady(b.cpus[id], b.generation)
    {
      VerifiedCpu(b, id);
    }
  }

  lemma ReadyMeans(b: Boot)
    requires Inv(b) && b.status == Ready
    ensures b.required != {} && b.attempted == b.required
    ensures forall id | id in b.required :: Verified(b.log, id, b.generation)
  {
    hide Verified, CpusOk, InOrder;
  }

  lemma VerifiedCpu(b: Boot, id: nat)
    requires Inv(b) && id in b.required && Verified(b.log, id, b.generation)
    ensures id < MAX_CPUS && b.cpus[id].claimed && Started(id) in b.log && ObservesReady(b.cpus[id], b.generation)
    ensures Stored(id) in b.log
  {
    hide TailOk, PlaceOk, AttemptsOk, StoredOnce, InOrder;
    var k :| && 0 <= k < |b.log| - 1 && b.log[k] == SawParked(id, b.generation)
             && b.log[k + 1] == SawClean(id) && Stored(id) in b.log[..k];
    assert SawParked(id, b.generation) in b.log;
  }

  /** In every run nobody claims the entry of a CPU that was not released, at most one entrant holds the
      claim, and a CPU is parked, online or failed only if one had it. */
  lemma OneEntrant(cells: seq<nat>, listed: set<nat>, evs: seq<Event>, id: nat)
    requires Platform(cells, listed) && Runs(New(cells, listed), evs) && id < MAX_CPUS
    ensures var b := After(New(cells, listed), evs); var c := b.cpus[id];
            && c.holders <= 1 && (c.holders == 1 ==> c.claimed && c.state == Starting)
            && (c.claimed ==> Started(id) in b.log)
            && (c.state == Parked || c.state == Online || c.state == Failed ==> c.claimed && c.holders == 0)
  {
    hide Enabled, Next;
    NewInv(cells, listed);
    RunInv(New(cells, listed), evs);
    hide PlaceOk, TailOk, AttemptsOk, InOrder, StoredOnce;
    assert CpuOk(After(New(cells, listed), evs).cpus[id]);
  }

  function Arrivals(evs: seq<Event>, id: nat): nat {
    if evs == [] then 0
    else Arrivals(evs[..|evs| - 1], id)
         + (if evs[|evs| - 1].Arrive? && evs[|evs| - 1].id == id then 1 else 0)
  }

  function Claims(evs: seq<Event>, id: nat): nat {
    if evs == [] then 0 else Claims(evs[..|evs| - 1], id) + (if evs[|evs| - 1] == Claim(id) then 1 else 0)
  }

  /** Entrants that gave the claim up by parking or failing. */
  function Exits(evs: seq<Event>, id: nat): nat {
    if evs == [] then 0
    else Exits(evs[..|evs| - 1], id)
         + (if evs[|evs| - 1] == Park(id) || evs[|evs| - 1] == FailEntry(id) then 1 else 0)
  }

  /** No entrant is lost: each that passed the check is still before the claim or tried it, the first to
      try won it, and the winner still holds it or parked or failed. */
  lemma {:induction false} EntrantsBalance(cells: seq<nat>, listed: set<nat>, evs: seq<Event>, id: nat)
    requires Platform(cells, listed) && Runs(New(cells, listed), evs) && id < MAX_CPUS
    ensures var c := After(New(cells, listed), evs).cpus[id];
            && Arrivals(evs, id) == Claims(evs, id) + c.arrived
            && (c.claimed <==> Claims(evs, id) > 0)
            && Exits(evs, id) + c.holders == (if c.claimed then 1 else 0)
    decreases |evs|
  {
    if evs != [] {
      var before, ev := evs[..|evs| - 1], evs[|evs| - 1];
      assert evs == before + [ev];
      RunsSplit(New(cells, listed), before, ev);
      EntrantsBalance(cells, listed, before, id);
      hide New, Runs, After, PrepareStep, ReleaseStep, WaitStep, VerifyStep;
      BalanceStep(After(New(cells, listed), before), ev, id);
    }
  }

  lemma {:induction false} RunsSplit(b: Boot, evs: seq<Event>, ev: Event)
    requires Shape(b) && Runs(b, evs + [ev])
    ensures Runs(b, evs) && Enabled(After(b, evs), ev) && After(b, evs + [ev]) == Next(After(b, evs), ev)
    decreases |evs|
  {
    hide Next, Enabled;
    if evs == [] {
      assert evs + [ev] == [ev] && [ev][1..] == [];
    } else {
      assert (evs + [ev])[0] == evs[0] && (evs + [ev])[1..] == evs[1..] + [ev];
      RunsSplit(Next(b, evs[0]), evs[1..], ev);
    }
  }

  lemma BalanceStep(b: Boot, ev: Event, id: nat)
    requires Shape(b) && Enabled(b, ev) && id < MAX_CPUS
    ensures var c, c' := b.cpus[id], Next(b, ev).cpus[id];
            && c'.arrived == c.arrived + (if ev.Arrive? && ev.id == id then 1 else 0)
                             - (if ev == Claim(id) then 1 else 0)
            && (c'.claimed <==> c.claimed || ev == Claim(id))
            && c'.holders == c.holders + (if ev == Claim(id) && !c.claimed then 1 else 0)
                             - (if ev == Park(id) || ev == FailEntry(id) then 1 else 0)
  {
    hide Run;
    if ev.Step? {
      SparesEntrants(b, ev.luck, id);
    }
  }

  /** CPU 0 does not touch who has entered. */
  lemma SparesEntrants(b: Boot, luck: Luck, id: nat)
    requires Shape(b) && OwnId(b.pc) && id < MAX_CPUS
    ensures var c, c' := b.cpus[id], Run(b, luck).cpus[id];
            c'.arrived == c.arrived && c'.claimed == c.claimed && c'.holders == c.holders
  {
    hide NextId;
  }

  // The release cells.

  /** A cell is as it was found until it is stored, a zero was read only where one was found, and only
      a CPU whose cell is listed is prepared. */
  predicate CellsOk(b: Boot, cells: seq<nat>)
    requires Shape(b) && |cells| == MAX_CPUS
  {
    forall id | 0 <= id < MAX_CPUS ::
      && b.cpus[id].cell == (if Stored(id) in b.log then ENTRY else cells[id])
      && (ReadZero(id) in b.log || SawCell(id, 0) in b.log ==> cells[id] == 0)
      && (b.cpus[id].state != Offline ==> id in b.listed)
  }

  lemma CellsStep(b: Boot, cells: seq<nat>, ev: Event)
    requires Shape(b) && |cells| == MAX_CPUS && CellsOk(b, cells) && Enabled(b, ev)
    ensures CellsOk(Next(b, ev), cells)
  {
    hide NextId;
    if ev.Step? {
      hide PrepareStep, ReleaseStep, WaitStep, VerifyStep, CellsOk;
      if Prepares(b.pc) {
        CellsPrepare(b, cells, ev.luck);
      } else if Waits(b.pc) || Verifies(b.pc) {
        CellsWatch(b, cells, ev.luck);
      } else {
        CellsRelease(b, cells, ev.luck);
      }
    }
  }

  lemma CellsPrepare(b: Boot, cells: seq<nat>, luck: Luck)
    requires Shape(b) && OwnId(b.pc) && |cells| == MAX_CPUS && CellsOk(b, cells)
    ensures CellsOk(PrepareStep(b, luck), cells)
  {
    hide NextId;
  }

  lemma CellsWatch(b: Boot, cells: seq<nat>, luck: Luck)
    requires Shape(b) && OwnId(b.pc) && |cells| == MAX_CPUS && CellsOk(b, cells)
    ensures CellsOk(WaitStep(b, luck), cells) && CellsOk(VerifyStep(b, luck), cells)
  {
    hide NextId;
  }

  lemma CellsRelease(b: Boot, cells: seq<nat>, luck: Luck)
    requires Shape(b) && OwnId(b.pc) && |cells| == MAX_CPUS && CellsOk(b, cells)
    ensures CellsOk(ReleaseStep(b, luck), cells)
  {
    hide NextId;
  }

  lemma {:induction false} CellsRun(b: Boot, cells: seq<nat>, evs: seq<Event>)
    requires Shape(b) && |cells| == MAX_CPUS && CellsOk(b, cells) && Runs(b, evs)
    ensures CellsOk(After(b, evs), cells)
    decreases |evs|
  {
    hide CellsOk, Enabled, Next;
    if evs != [] {
      CellsStep(b, cells, evs[0]);
      CellsRun(Next(b, evs[0]), cells, evs[1..]);
    }
  }

  /** In every run a cell changes only by its recorded store, from zero to the entry address. */
  lemma CellHistory(cells: seq<nat>, listed: set<nat>, evs: seq<Event>, id: nat)
    requires Platform(cells, listed) && Runs(New(cells, listed), evs) && id < MAX_CPUS
    ensures var b := After(New(cells, listed), evs);
            if Stored(id) in b.log then cells[id] == 0 && b.cpus[id].cell == ENTRY else b.cpus[id].cell == cells[id]
  {
    hide Next, Enabled;
    NewInv(cells, listed);
    RunInv(New(cells, listed), evs);
    CellsRun(New(cells, listed), cells, evs);
    var b := After(New(cells, listed), evs);
    if Stored(id) in b.log {
      hide Inv;
      var k :| 0 <= k < |b.log| && b.log[k] == Stored(id);
      StoreAt(b, k);
      assert b.log[k - 5..k][0] == b.log[k - 5];
    }
  }

  // The readback.

  /** The listed cells below `n` that boot does not store to have been read as zero. */
  predicate ZeroBelow(b: Boot, n: nat) {
    forall j | j in b.listed && j < n && j !in b.required :: SawCell(j, 0) in b.log
  }

  /** Once one CPU has been released and waited for, all of them have. */
  predicate Watched(b: Boot) {
    match b.status
    case Releasing =>
      if b.pc.Readback? then ZeroBelow(b, b.pc.at)
      else if Releases(b.pc) || Waits(b.pc) then
        (forall j | j in b.required :: b.pc.id <= j) || ZeroBelow(b, MAX_CPUS)
      else if b.pc.Finalize? then b.pc.outcome == Fine ==> ZeroBelow(b, MAX_CPUS)
      else if b.pc.FinalSwap? then b.pc.next == Ready ==> ZeroBelow(b, MAX_CPUS)
      else ZeroBelow(b, MAX_CPUS)
    case Ready => ZeroBelow(b, MAX_CPUS)
    case _ => true
  }

  lemma ZeroGrows(b: Boot, b': Boot, n: nat)
    requires ZeroBelow(b, n) && b'.listed == b.listed && b'.required == b.required && b.log <= b'.log
    ensures ZeroBelow(b', n)
  {
  }

  lemma WatchedPrepare(b: Boot, luck: Luck)
    requires Inv(b) && Watched(b) && Prepares(b.pc)
    ensures Watched(PrepareStep(b, luck))
  {
    hide CpusOk, InOrder, StoredOnce, Verified, AttemptsOk, TailOk;
  }

  lemma WatchedRelease(b: Boot, luck: Luck)
    requires Inv(b) && Watched(b) && Releases(b.pc)
    ensures Watched(ReleaseStep(b, luck))
  {
    hide CpusOk, InOrder, StoredOnce, Verified, AttemptsOk, TailOk, ZeroBelow, StoredBelow;
    var b' := ReleaseStep(b, luck);
    assert b.log <= b'.log;
    if ZeroBelow(b, MAX_CPUS) {
      ZeroGrows(b, b', MAX_CPUS);
    }
  }

  lemma WatchedWait(b: Boot, luck: Luck)
    requires Inv(b) && Watched(b) && Waits(b.pc)
    ensures Watched(WaitStep(b, luck))
  {
    hide CpusOk, InOrder, StoredOnce, Verified, TailOk, StoredBelow, ZeroBelow;
    if b.pc.Readback? {
      ReadOne(b, luck);
    } else {
      var b' := WaitStep(b, luck);
      assert b'.log == b.log;
      ReadFirst(b', NextId(b.listed, 0));
      if ZeroBelow(b, MAX_CPUS) {
        ZeroGrows(b, b', MAX_CPUS);
      }
    }
  }

  lemma ReadFirst(b: Boot, n: nat)
    requires n <= MAX_CPUS && forall k | 0 <= k < n :: k !in b.listed
    ensures ZeroBelow(b, n)
  {
  }

  lemma ReadOne(b: Boot, luck: Luck)
    requires Inv(b) && Watched(b) && b.pc.Readback?
    ensures Watched(WaitStep(b, luck))
  {
    hide CpusOk, InOrder, StoredOnce, Verified, TailOk, StoredBelow;
    var at := b.pc.at;
    if luck.ok && b.cpus[at].cell == Expected(b, at) && b.status == Releasing {
      var b', n := WaitStep(b, luck), NextId(b.listed, at + 1);
      assert at !in b.required ==> b.cpus[at].cell == 0;
      assert SawCell(at, b.cpus[at].cell) in b'.log;
      assert ZeroBelow(b', n);
    }
  }

  lemma WatchedVerify(b: Boot, luck: Luck)
    requires Inv(b) && Watched(b) && Verifies(b.pc)
    ensures Watched(VerifyStep(b, luck))
  {
    hide CpusOk, InOrder, StoredOnce, Verified, AttemptsOk, TailOk, StoredBelow, ZeroBelow, NextId;
    var b' := VerifyStep(b, luck);
    assert b.log <= b'.log;
    if ZeroBelow(b, MAX_CPUS) {
      ZeroGrows(b, b', MAX_CPUS);
    }
  }

  lemma WatchedStep(b: Boot, ev: Event)
    requires Inv(b) && Watched(b) && Enabled(b, ev)
    ensures Watched(Next(b, ev))
  {
    hide Inv, PrepareStep, ReleaseStep, WaitStep, VerifyStep, NextId;
    if ev.Step? {
      if Prepares(b.pc) {
        WatchedPrepare(b, ev.luck);
      } else if Waits(b.pc) {
        WatchedWait(b, ev.luck);
      } else if Verifies(b.pc) {
        WatchedVerify(b, ev.luck);
      } else {
        WatchedRelease(b, ev.luck);
      }
    }
  }

  lemma {:induction false} WatchedRun(b: Boot, evs: seq<Event>)
    requires Inv(b) && Watched(b) && Runs(b, evs)
    ensures Inv(After(b, evs)) && Watched(After(b, evs))
    decreases |evs|
  {
    hide Inv, Enabled, Next, Watched;
    if evs != [] {
      StepInv(b, evs[0]);
      WatchedStep(b, evs[0]);
      WatchedRun(Next(b, evs[0]), evs[1..]);
    }
  }

  /** At authorization every required CPU is listed, every listed cell was zero at the start, and now
      exactly the cells of the required CPUs hold the entry address. */
  lemma AuthorizedCells(cells: seq<nat>, listed: set<nat>, evs: seq<Event>, fatal: bool)
    requires Platform(cells, listed) && Runs(New(cells, listed), evs)
    requires GuestAuthorized(After(New(cells, listed), evs), fatal)
    ensures var b := After(New(cells, listed), evs);
            && b.listed == listed && b.required <= listed
            && (forall id | id in listed ::
                  cells[id] == 0 && b.cpus[id].cell == if id in b.required then ENTRY else 0)
  {
    hide Inv, Verified, Next, Enabled, Watched, CellsOk;
    var b := After(New(cells, listed), evs);
    NewInv(cells, listed);
    NewCells(cells, listed);
    WatchedRun(New(cells, listed), evs);
    CellsRun(New(cells, listed), cells, evs);
    ListedRun(New(cells, listed), evs);
    Authorization(cells, listed, evs, fatal);
    forall id | id in b.required
      ensures id in listed && cells[id] == 0 && b.cpus[id].cell == ENTRY
    {
      VerifiedCpu(b, id);
      CellHistory(cells, listed, evs, id);
      PreparedListed(b, cells, id);
    }
    forall id | id in listed && id !in b.required
      ensures cells[id] == 0 && b.cpus[id].cell == 0
    {
      ReadyZero(b, id);
      CellHistory(cells, listed, evs, id);
      ZeroCell(b, cells, id);
      if Stored(id) in b.log {
        var k :| 0 <= k < |b.log| && b.log[k] == Stored(id);
        StoreAt(b, k);
      }
    }
  }

  lemma NewCells(cells: seq<nat>, listed: set<nat>)
    requires Platform(cells, listed)
    ensures CellsOk(New(cells, listed), cells) && Watched(New(cells, listed))
  {
  }

  lemma ReadyZero(b: Boot, id: nat)
    requires b.status == Ready && Watched(b) && id in b.listed && id < MAX_CPUS && id !in b.required
    ensures SawCell(id, 0) in b.log
  {
  }

  lemma ZeroCell(b: Boot, cells: seq<nat>, id: nat)
    requires Shape(b) && |cells| == MAX_CPUS && CellsOk(b, cells) && id < MAX_CPUS && SawCell(id, 0) in b.log
    ensures cells[id] == 0
  {
  }

  lemma PreparedListed(b: Boot, cells: seq<nat>, id: nat)
    requires Inv(b) && |cells| == MAX_CPUS && CellsOk(b, cells) && id < MAX_CPUS && b.cpus[id].claimed
    ensures id in b.listed
  {
    hide TailOk, PlaceOk, AttemptsOk, StoredOnce, InOrder;
    assert CpuOk(b.cpus[id]);
  }

  /** What the contract lists never changes. */
  lemma {:induction false} ListedRun(b: Boot, evs: seq<Event>)
    requires Shape(b) && Runs(b, evs)
    ensures After(b, evs).listed == b.listed
    decreases |evs|
  {
    hide Enabled, NextId;
    if evs != [] {
      ListedStep(b, evs[0]);
      ListedRun(Next(b, evs[0]), evs[1..]);
    }
  }

  lemma ListedStep(b: Boot, ev: Event)
    requires Shape(b) && Enabled(b, ev)
    ensures Next(b, ev).listed == b.listed
  {
    hide NextId;
  }

  // Terminal states.

  predicate Terminal(s: Status) {
    s == Ready || s == PreparationFailed || s == ReleaseFailed || s == WaitFailed
  }

  /** What boot decided, and what it wrote to the release cells. */
  predicate SameOutcome(b: Boot, b': Boot)
    requires Shape(b) && Shape(b')
  {
    && b'.status == b.status && b'.fault == b.fault && b'.log == b.log && b'.attempted == b.attempted
    && b'.required == b.required && b'.generation == b.generation
    && forall id | 0 <= id < MAX_CPUS :: b'.cpus[id].cell == b.cpus[id].cell
  }

  lemma TerminalStep(b: Boot, ev: Event)
    requires Inv(b) && Enabled(b, ev) && Terminal(b.status)
    ensures SameOutcome(b, Next(b, ev))
  {
    hide InOrder, StoredOnce, Verified, CpusOk, TailOk, AttemptsOk;
  }

  lemma {:induction false} TerminalRun(b: Boot, evs: seq<Event>)
    requires Inv(b) && Terminal(b.status) && Runs(b, evs)
    ensures SameOutcome(b, After(b, evs))
    decreases |evs|
  {
    hide Inv, Enabled, Next;
    if evs != [] {
      StepInv(b, evs[0]);
      TerminalStep(b, evs[0]);
      TerminalRun(Next(b, evs[0]), evs[1..]);
    }
  }

  /** Once boot has ended nothing changes its outcome, no matter who arrives late or tries again. */
  lemma TerminalForever(cells: seq<nat>, listed: set<nat>, evs: seq<Event>, later: seq<Event>)
    requires Platform(cells, listed) && Runs(New(cells, listed), evs) && Terminal(After(New(cells, listed), evs).status)
    requires Runs(After(New(cells, listed), evs), later)
    ensures SameOutcome(After(New(cells, listed), evs), After(After(New(cells, listed), evs), later))
  {
    hide Inv, Enabled, Next, SameOutcome;
    NewInv(cells, listed);
    RunInv(New(cells, listed), evs);
    TerminalRun(After(New(cells, listed), evs), later);
  }
}
