/** Why boot ended as it did, over every run. */
module SecondaryOutcome {
  import opened SecondaryBoot
  import opened SecondarySafety

  /** Something seen while waiting for the CPUs or checking on them. */
  predicate Observed(f: Fault) {
    f.FatalReport? || f.TimedOut? || f.EntryFailed? || f.BadCheckpoint? || f.BadCell? || f.WrongSet?
  }

  /** How a boot that got as far as releasing ends. */
  predicate EndsAs(status: Status, f: Fault) {
    match status
    case Ready => f == NoFault
    case WaitFailed => Observed(f)
    case ReleaseFailed => f.NotReleased?
    case _ => false
  }

  /** The result that finalization gets tells what happened. */
  predicate Tells(o: Outcome, f: Fault) {
    match o
    case Fine => f == NoFault
    case WaitError => f.TimedOut? || f.EntryFailed?
    case CheckpointError => f.BadCheckpoint? || f.WrongSet?
    case FatalError => f.FatalReport?
    case ReadbackError => f.BadCell?
    case ReleaseError => f.NotReleased?
    case _ => false
  }

  /** The fault so far, given where CPU 0 is. */
  predicate FaultOk(b: Boot) {
    match b.status
    case Idle => b.fault == NoFault
    case Preparing => b.fault == if b.pc.Finalize? || b.pc.FinalSwap? then NotPrepared else NoFault
    case Releasing =>
      if b.pc.Finalize? then Tells(b.pc.outcome, b.fault)
      else if b.pc.FinalSwap? then EndsAs(b.pc.next, b.fault)
      else b.fault == NoFault
    case PreparationFailed => b.fault == NotPrepared && PublishedAll !in b.log
    case _ => EndsAs(b.status, b.fault) && PublishedAll in b.log
  }

  lemma FaultPrepare(b: Boot, luck: Luck)
    requires Inv(b) && FaultOk(b) && Prepares(b.pc)
    ensures FaultOk(PrepareStep(b, luck))
  {
    hide CpusOk, InOrder, StoredOnce, Verified, AttemptsOk, TailOk, NextId;
  }

  lemma FaultRelease(b: Boot, luck: Luck)
    requires Inv(b) && FaultOk(b) && Releases(b.pc)
    ensures FaultOk(ReleaseStep(b, luck))
  {
    hide CpusOk, InOrder, StoredOnce, Verified, AttemptsOk, TailOk, StoredBelow;
  }

  lemma FaultWait(b: Boot, luck: Luck)
    requires Inv(b) && FaultOk(b) && Waits(b.pc)
    ensures FaultOk(WaitStep(b, luck))
  {
    hide CpusOk, InOrder, StoredOnce, Verified, AttemptsOk, TailOk, StoredBelow, NextId;
  }

  lemma FaultVerify(b: Boot, luck: Luck)
    requires Inv(b) && FaultOk(b) && Verifies(b.pc)
    ensures FaultOk(VerifyStep(b, luck))
  {
    hide CpusOk, InOrder, StoredOnce, Verified, AttemptsOk, TailOk, StoredBelow, NextId;
  }

  lemma FaultStep(b: Boot, ev: Event)
    requires Inv(b) && FaultOk(b) && Enabled(b, ev)
    ensures FaultOk(Next(b, ev))
  {
    hide CpusOk, InOrder, StoredOnce, Verified, AttemptsOk, TailOk, StoredBelow, NextId,
      PrepareStep, ReleaseStep, WaitStep, VerifyStep;
    if ev.Step? {
      hide PlaceOk;
      if Prepares(b.pc) {
        FaultPrepare(b, ev.luck);
      } else if Waits(b.pc) {
        FaultWait(b, ev.luck);
      } else if Verifies(b.pc) {
        FaultVerify(b, ev.luck);
      } else {
        FaultRelease(b, ev.luck);
      }
    }
  }

  lemma {:induction false} FaultRun(b: Boot, evs: seq<Event>)
    requires Inv(b) && FaultOk(b) && Runs(b, evs)
    ensures Inv(After(b, evs)) && FaultOk(After(b, evs))
    decreases |evs|
  {
    hide Inv, Enabled, Next, FaultOk;
    if evs != [] {
      StepInv(b, evs[0]);
      FaultStep(b, evs[0]);
      FaultRun(Next(b, evs[0]), evs[1..]);
    }
  }

  /** The status that boot ends in says what happened, in every run: it ends in PreparationFailed
      exactly if it ended before any release; otherwise in Ready exactly if nothing went wrong, in
      WaitFailed exactly if CPU 0 met with a fatal report, a CPU that timed out or failed, or a bad
      checkpoint, cell or attempted set, and in ReleaseFailed exactly if an operation or check of a
      release failed. */
  lemma Outcomes(cells: seq<nat>, listed: set<nat>, evs: seq<Event>)
    requires Platform(cells, listed) && Runs(New(cells, listed), evs)
    requires Terminal(After(New(cells, listed), evs).status)
    ensures var b := After(New(cells, listed), evs);
            && (b.status == PreparationFailed <==> PublishedAll !in b.log)
            && (b.status == Ready <==> b.fault == NoFault)
            && (b.status == WaitFailed <==> Observed(b.fault))
            && (b.status == ReleaseFailed <==> b.fault.NotReleased?)
  {
    hide Inv, Next, Enabled;
    NewInv(cells, listed);
    FaultRun(New(cells, listed), evs);
  }

  // Giving up.

  /** The next access of CPU 0 looks for a fatal report. */
  predicate LooksForFatal(pc: Pc) {
    pc.CheckFatal? || pc.PollState? || pc.Checkpoint? || pc.VerifyFatal?
  }

  lemma FatalStep(b: Boot, luck: Luck)
    requires Inv(b) && LooksForFatal(b.pc) && luck.fatal
    ensures Enabled(b, Step(luck)) && Next(b, Step(luck)) == b.(fault := FatalReport, pc := Finalize(FatalError))
    ensures b.status == Releasing
  {
    hide CpusOk, InOrder, StoredOnce, Verified, AttemptsOk, TailOk, StoredBelow, NextId;
  }

  /** An operation or check that the platform can make fail. */
  predicate Operates(pc: Pc) {
    || pc.PrepareCpu? || pc.PublishCpu? || pc.PublishAll? || pc.CheckRecord? || pc.FirstRead? || pc.Barrier?
    || pc.SecondRead? || pc.StoreCell? || pc.CleanLine? || pc.FinalBarrier? || pc.SendEvent? || pc.Readback?
  }

  /** The mailbox is not in the state that the step needs, or shows a failure. */
  predicate MailboxWrong(b: Boot)
    requires Shape(b) && OwnId(b.pc)
  {
    var g := b.generation;
    match b.pc
    case PrepareCpu(id) => b.cpus[id].state != Offline || id !in b.listed
    case PublishCpu(id) => b.cpus[id].state != Prepared || b.cpus[id].ready != 0 || g == 0
    case CheckRecord(id) => b.cpus[id].state != Prepared || b.cpus[id].ready != g || g == 0
    case StartCpu(id) => b.cpus[id].state != Prepared || b.cpus[id].ready != g || g == 0
    case PollState(id) => b.cpus[id].state == Failed
    case Checkpoint(id) => b.cpus[id].state != Parked || b.cpus[id].ready != g || g == 0
    case VerifyCpu(id) => b.cpus[id].state != Parked || b.cpus[id].ready != g || g == 0
    case CheckpointFailures(id) => b.cpus[id].failures != 0
    case VerifyFailures(id) => b.cpus[id].failures != 0
    case _ => false
  }

  /** A release cell does not hold zero before its release, or the entry address after it. */
  predicate CellWrong(b: Boot)
    requires Shape(b) && OwnId(b.pc)
  {
    match b.pc
    case FirstRead(id) => b.cpus[id].cell != 0
    case SecondRead(id) => b.cpus[id].cell != 0
    case Readback(_, at) => b.cpus[at].cell != if at in b.attempted then 0x8_0000 else 0
    case _ => false
  }

  /** A CPU would be released twice, or the attempted set is not the required one. */
  predicate SetWrong(b: Boot) {
    match b.pc
    case CheckAttempted(id) => id in b.attempted
    case MarkAttempt(id) => id in b.attempted
    case VerifyMask => b.attempted != b.required
    case _ => false
  }

  predicate Trouble(b: Boot, luck: Luck)
    requires Shape(b) && OwnId(b.pc)
  {
    || (LooksForFatal(b.pc) && luck.fatal) || (b.pc.PollState? && luck.timeout) || (Operates(b.pc) && !luck.ok)
    || MailboxWrong(b) || CellWrong(b) || SetWrong(b)
  }

  /** CPU 0 gives up at a step exactly if it meets with trouble there: a fatal report, a wait that ran
      out, an operation that failed, or a mailbox, a cell or a set that is not as it should be. */
  lemma GivesUpIff(b: Boot, luck: Luck)
    requires Inv(b) && FaultOk(b) && b.fault == NoFault && Enabled(b, Step(luck))
    ensures Next(b, Step(luck)).fault != NoFault <==> Trouble(b, luck)
  {
    hide CpusOk, InOrder, StoredOnce, Verified, AttemptsOk, TailOk, StoredBelow, NextId,
      PrepareStep, ReleaseStep, WaitStep, VerifyStep;
    if Prepares(b.pc) {
      PrepareGivesUp(b, luck);
    } else if Waits(b.pc) {
      WaitGivesUp(b, luck);
    } else if Verifies(b.pc) {
      VerifyGivesUp(b, luck);
    } else {
      ReleaseGivesUp(b, luck);
    }
  }

  lemma PrepareGivesUp(b: Boot, luck: Luck)
    requires Inv(b) && b.fault == NoFault && Prepares(b.pc)
    ensures PrepareStep(b, luck).fault != NoFault <==> Trouble(b, luck)
  {
    hide CpusOk, InOrder, StoredOnce, Verified, AttemptsOk, TailOk, StoredBelow, NextId;
  }

  lemma ReleaseGivesUp(b: Boot, luck: Luck)
    requires Shape(b) && OwnId(b.pc) && b.fault == NoFault && Releases(b.pc)
    ensures ReleaseStep(b, luck).fault != NoFault <==> Trouble(b, luck)
  {
    hide NextId;
  }

  lemma WaitGivesUp(b: Boot, luck: Luck)
    requires Shape(b) && OwnId(b.pc) && b.fault == NoFault && Waits(b.pc)
    ensures WaitStep(b, luck).fault != NoFault <==> Trouble(b, luck)
  {
    hide NextId;
  }

  lemma VerifyGivesUp(b: Boot, luck: Luck)
    requires Inv(b) && b.fault == NoFault && Verifies(b.pc)
    ensures VerifyStep(b, luck).fault != NoFault <==> Trouble(b, luck)
  {
    hide CpusOk, InOrder, StoredOnce, Verified, AttemptsOk, TailOk, StoredBelow, NextId;
  }

  /** CPU 0 has given up: it only finalizes. */
  predicate GaveUp(b: Boot) {
    && b.fault != NoFault && b.status != Idle
    && (b.pc.Finalize? || b.pc == Resting || (b.pc.FinalSwap? && b.pc.next != Idle))
  }

  lemma GaveUpStep(b: Boot, ev: Event)
    requires Shape(b) && GaveUp(b) && Enabled(b, ev)
    ensures var b' := Next(b, ev); GaveUp(b') && b'.fault == b.fault && b'.log == b.log && b'.attempted == b.attempted
    ensures forall id | 0 <= id < MAX_CPUS :: Next(b, ev).cpus[id].cell == b.cpus[id].cell
  {
    hide PrepareStep, ReleaseStep, WaitStep, NextId;
  }

  lemma {:induction false} GaveUpRun(b: Boot, evs: seq<Event>)
    requires Shape(b) && GaveUp(b) && Runs(b, evs)
    ensures var b' := After(b, evs); GaveUp(b') && b'.fault == b.fault && b'.log == b.log && b'.attempted == b.attempted
    ensures forall id | 0 <= id < MAX_CPUS :: After(b, evs).cpus[id].cell == b.cpus[id].cell
    decreases |evs|
  {
    hide Next, Enabled, GaveUp;
    if evs != [] {
      GaveUpStep(b, evs[0]);
      GaveUpRun(Next(b, evs[0]), evs[1..]);
    }
  }

  /** A fatal report that CPU 0 sees ends boot: from then on no cell is stored and no CPU attempted, and
      boot ends in WaitFailed. */
  lemma FatalEndsBoot(cells: seq<nat>, listed: set<nat>, before: seq<Event>, luck: Luck, evs: seq<Event>)
    requires Platform(cells, listed) && Runs(New(cells, listed), before)
    requires LooksForFatal(After(New(cells, listed), before).pc) && luck.fatal
    requires Enabled(After(New(cells, listed), before), Step(luck))
    requires Runs(Next(After(New(cells, listed), before), Step(luck)), evs)
    ensures var b := After(New(cells, listed), before);
            var b' := After(Next(b, Step(luck)), evs);
            && b'.log == b.log && b'.attempted == b.attempted
            && (forall id | 0 <= id < MAX_CPUS :: b'.cpus[id].cell == b.cpus[id].cell)
            && (b'.pc == Resting ==> b'.status == WaitFailed)
  {
    hide Inv, Enabled, FaultOk;
    var b := After(New(cells, listed), before);
    var b1 := Next(b, Step(luck));
    NewInv(cells, listed);
    NewFault(cells, listed);
    FaultRun(New(cells, listed), before);
    FatalStep(b, luck);
    StepInv(b, Step(luck));
    FaultStep(b, Step(luck));
    hide Next;
    GaveUpRun(b1, evs);
    FaultRun(b1, evs);
    Ended(After(b1, evs));
  }

  lemma NewFault(cells: seq<nat>, listed: set<nat>)
    requires Platform(cells, listed)
    ensures FaultOk(New(cells, listed))
  {
  }

  lemma Ended(b: Boot)
    requires Inv(b) && FaultOk(b) && b.fault == FatalReport
    ensures b.pc == Resting ==> b.status == WaitFailed
  {
    hide CpusOk, InOrder, StoredOnce, Verified, AttemptsOk, TailOk, StoredBelow;
  }
}
