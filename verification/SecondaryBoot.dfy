/** Starting the secondary CPUs, as a step system.

CPU 0 runs the one-shot boot procedure, one access or firmware operation per step. Any firmware
operation may fail, any poll may time out, and a fatal report may be seen at any check. Any number
of entrants may arrive for a CPU whose mailbox says Starting, at any time, also after boot gave up.
The log records what CPU 0 did and saw, in order.
*/
module SecondaryBoot {
  const MAX_CPUS: nat := 4

  datatype CpuState = Offline | Prepared | Starting | Parked | Online | Failed

  /** A mailbox with the generation published in it, or 0, and its entry claim; the entrants that
      passed its check; those that won the claim; the recorded failures; and the firmware release cell. */
  datatype Cpu = Cpu(
    state: CpuState, ready: nat, claimed: bool, arrived: nat, holders: nat, failures: nat, cell: nat)

  datatype Status = Idle | Preparing | Releasing | Ready | PreparationFailed | ReleaseFailed | WaitFailed

  /** The result that finalization gets. */
  datatype Outcome =
    | Fine | PreparationError | TransitionError | ReleaseError
    | WaitError | CheckpointError | FatalError | ReadbackError

  /** What CPU 0 met with that made it give up, if anything: a failed preparation; a failed operation or
      check of one release; a fatal report; a CPU that did not arrive in time, or that failed; a
      checkpoint, a release cell or an attempted set that is not as it should be; or the wrong status. */
  datatype Fault =
    | NoFault | NotPrepared | NotReleased(id: nat) | FatalReport | TimedOut(id: nat) | EntryFailed(id: nat)
    | BadCheckpoint(id: nat) | BadCell(at: nat) | WrongSet | WrongStatus

  datatype Effect =
    | PublishedAll
    | ReadZero(id: nat) | Started(id: nat) | BarrierDone | Attempted(id: nat) | Stored(id: nat)
    | SawCell(id: nat, value: nat) | SawParked(id: nat, generation: nat) | SawClean(id: nat)

  /** The next access of CPU 0. */
  datatype Pc =
    | Resting
    | PrepareCpu(id: nat) | PublishCpu(id: nat) | PublishAll | BeginRelease
    | CheckFatal(id: nat) | CheckRecord(id: nat) | CheckAttempted(id: nat)
    | FirstRead(id: nat) | StartCpu(id: nat) | Barrier(id: nat) | SecondRead(id: nat)
    | MarkAttempt(id: nat) | StoreCell(id: nat) | CleanLine(id: nat) | FinalBarrier(id: nat) | SendEvent(id: nat)
    | PollState(id: nat) | Checkpoint(id: nat) | CheckpointFailures(id: nat)
    | Readback(id: nat, at: nat)
    | VerifyMask | VerifyFatal | VerifyCpu(id: nat) | VerifyFailures(id: nat)
    | Finalize(outcome: Outcome) | FinalSwap(next: Status)

  /** `listed` are the CPUs whose release cell the startup contract lists: every enabled CPU that
      starts by spin table, CPU 0 among them on the platforms the source accepts. */
  datatype Boot = Boot(
    status: Status, attempted: set<nat>, cpus: seq<Cpu>, pc: Pc, required: set<nat>, generation: nat,
    listed: set<nat>, log: seq<Effect>, fault: Fault)

  const ENTRY: nat := 0x8_0000

  /** Environment choices for one step of CPU 0: does the firmware operation or precondition
      succeed, is a fatal report visible, has the wait run out. */
  datatype Luck = Luck(ok: bool, fatal: bool, timeout: bool)

  datatype Event =
    | StartAll(required: set<nat>, generation: nat) | Step(luck: Luck)
    | Arrive(id: nat, generation: nat) | Claim(id: nat) | Park(id: nat) | FailEntry(id: nat)
    | GoOnline(id: nat) | ParkAgain(id: nat) | FailLater(id: nat) | AddFailure(id: nat)

  predicate Shape(b: Boot) {
    && |b.cpus| == MAX_CPUS && (forall id | id in b.required :: 0 < id < MAX_CPUS)
    && forall id | id in b.listed :: id < MAX_CPUS
  }

  /** The release cells as boot finds them, and which of them the startup contract lists. */
  predicate Platform(cells: seq<nat>, listed: set<nat>) {
    |cells| == MAX_CPUS && forall id | id in listed :: id < MAX_CPUS
  }

  function New(cells: seq<nat>, listed: set<nat>): (b: Boot)
    requires Platform(cells, listed)
    ensures Shape(b)
  {
    var cpus := seq(MAX_CPUS, i requires 0 <= i < MAX_CPUS => Cpu(Offline, 0, false, 0, 0, 0, cells[i]));
    Boot(Idle, {}, cpus, Resting, {}, 0, listed, [], NoFault)
  }

  // The mailbox, one compare-and-exchange each.

  function MarkPrepared(c: Cpu): Cpu { if c.state == Offline then c.(state := Prepared) else c }

  predicate MayPublish(c: Cpu, generation: nat) { generation != 0 && c.state == Prepared && c.ready == 0 }

  predicate ObservesReady(c: Cpu, generation: nat) { generation != 0 && c.ready == generation }

  /** `has_parked` and the like: the state, asked for one generation. */
  predicate IsIn(c: Cpu, generation: nat, state: CpuState) { ObservesReady(c, generation) && c.state == state }

  function Transition(c: Cpu, generation: nat, from: CpuState, to: CpuState): Cpu {
    if IsIn(c, generation, from) then c.(state := to) else c
  }

  // CPU 0.

  /** The next CPU to prepare, release or verify at or after `id`, or the end of the set. */
  function NextId(required: set<nat>, id: nat): (n: nat)
    requires id <= MAX_CPUS
    ensures id <= n <= MAX_CPUS && (n < MAX_CPUS ==> n in required) && forall k | id <= k < n :: k !in required
    decreases MAX_CPUS - id
  {
    if id == MAX_CPUS || id in required then id else NextId(required, id + 1)
  }

  function PrepareFrom(required: set<nat>, id: nat): Pc
    requires id <= MAX_CPUS
  {
    var n := NextId(required, id); if n == MAX_CPUS then PublishAll else PrepareCpu(n)
  }

  function ReleaseFrom(required: set<nat>, id: nat): Pc
    requires id <= MAX_CPUS
  {
    var n := NextId(required, id); if n == MAX_CPUS then VerifyMask else CheckFatal(n)
  }

  function VerifyFrom(required: set<nat>, id: nat): Pc
    requires id <= MAX_CPUS
  {
    var n := NextId(required, id); if n == MAX_CPUS then Finalize(Fine) else VerifyCpu(n)
  }

  /** The next listed cell to read back at or after `at`, or on to the next CPU. */
  function ReadFrom(required: set<nat>, listed: set<nat>, id: nat, at: nat): Pc
    requires id < MAX_CPUS && at <= MAX_CPUS
  {
    var n := NextId(listed, at); if n == MAX_CPUS then ReleaseFrom(required, id + 1) else Readback(id, n)
  }

  predicate OwnId(pc: Pc) {
    match pc
    case Readback(id, at) => id < MAX_CPUS && at < MAX_CPUS
    case Resting => true
    case PublishAll => true
    case BeginRelease => true
    case VerifyMask => true
    case VerifyFatal => true
    case Finalize(_) => true
    case FinalSwap(_) => true
    case _ => pc.id < MAX_CPUS
  }

  function Put(b: Boot, id: nat, c: Cpu): Boot
    requires Shape(b) && id < MAX_CPUS
  {
    b.(cpus := b.cpus[id := c])
  }

  function Log(b: Boot, e: Effect, pc: Pc): Boot {
    b.(log := b.log + [e], pc := pc)
  }

  function Fail(b: Boot, f: Fault, o: Outcome): Boot { b.(fault := f, pc := Finalize(o)) }

  /** Preparation: every required CPU prepared and published, then everything cleaned and fenced. */
  function PrepareStep(b: Boot, luck: Luck): (b': Boot)
    requires Shape(b) && OwnId(b.pc)
    ensures Shape(b')
  {
    match b.pc
    case PrepareCpu(id) =>
      if luck.ok && id in b.listed && b.cpus[id].state == Offline
      then Put(b, id, MarkPrepared(b.cpus[id])).(pc := PublishCpu(id))
      else Fail(b, NotPrepared, PreparationError)
    case PublishCpu(id) =>
      if luck.ok && MayPublish(b.cpus[id], b.generation)
      then Put(b, id, b.cpus[id].(ready := b.generation)).(pc := PrepareFrom(b.required, id + 1))
      else Fail(b, NotPrepared, PreparationError)
    case PublishAll => if luck.ok then Log(b, PublishedAll, BeginRelease) else Fail(b, NotPrepared, PreparationError)
    case BeginRelease =>
      if b.status == Preparing then b.(status := Releasing, pc := ReleaseFrom(b.required, 1))
      else Fail(b, WrongStatus, TransitionError)
    case _ => b
  }

  /** `release_secondary` for one CPU. */
  function ReleaseStep(b: Boot, luck: Luck): (b': Boot)
    requires Shape(b) && OwnId(b.pc)
    ensures Shape(b')
  {
    match b.pc
    case CheckFatal(id) => if luck.fatal then Fail(b, FatalReport, FatalError) else b.(pc := CheckRecord(id))
    case CheckRecord(id) =>
      if luck.ok && IsIn(b.cpus[id], b.generation, Prepared) then b.(pc := CheckAttempted(id))
      else Fail(b, NotReleased(id), ReleaseError)
    case CheckAttempted(id) =>
      if id in b.attempted then Fail(b, NotReleased(id), ReleaseError) else b.(pc := FirstRead(id))
    case FirstRead(id) =>
      if luck.ok && b.cpus[id].cell == 0 then Log(b, ReadZero(id), StartCpu(id))
      else Fail(b, NotReleased(id), ReleaseError)
    case StartCpu(id) =>
      if IsIn(b.cpus[id], b.generation, Prepared)
      then Log(Put(b, id, Transition(b.cpus[id], b.generation, Prepared, Starting)), Started(id), Barrier(id))
      else Fail(b, NotReleased(id), ReleaseError)
    case Barrier(id) => if luck.ok then Log(b, BarrierDone, SecondRead(id)) else Fail(b, NotReleased(id), ReleaseError)
    case SecondRead(id) =>
      if luck.ok && b.cpus[id].cell == 0 then Log(b, ReadZero(id), MarkAttempt(id))
      else Fail(b, NotReleased(id), ReleaseError)
    case MarkAttempt(id) =>
      if id in b.attempted then Fail(b, NotReleased(id), ReleaseError)
      else Log(b.(attempted := b.attempted + {id}), Attempted(id), StoreCell(id))
    case StoreCell(id) =>
      var b' := Log(Put(b, id, b.cpus[id].(cell := ENTRY)), Stored(id), CleanLine(id));
      if luck.ok then b' else Fail(b', NotReleased(id), ReleaseError)
    case CleanLine(id) => if luck.ok then b.(pc := FinalBarrier(id)) else Fail(b, NotReleased(id), ReleaseError)
    case FinalBarrier(id) => if luck.ok then b.(pc := SendEvent(id)) else Fail(b, NotReleased(id), ReleaseError)
    case SendEvent(id) => if luck.ok then b.(pc := PollState(id)) else Fail(b, NotReleased(id), ReleaseError)
    case _ => b
  }

  /** `verify_release_value`: what the release cell of CPU `at` has to hold. */
  function Expected(b: Boot, at: nat): nat { if at in b.attempted then ENTRY else 0 }

  /** Waiting for one CPU, checking its checkpoint, and reading back every listed cell. */
  function WaitStep(b: Boot, luck: Luck): (b': Boot)
    requires Shape(b) && OwnId(b.pc)
    ensures Shape(b')
  {
    match b.pc
    case PollState(id) =>
      if luck.fatal then Fail(b, FatalReport, FatalError)
      else if luck.timeout then Fail(b, TimedOut(id), WaitError)
      else if b.cpus[id].state == Failed then Fail(b, EntryFailed(id), WaitError)
      else if b.cpus[id].state == Parked then b.(pc := Checkpoint(id))
      else b
    case Checkpoint(id) =>
      if luck.fatal then Fail(b, FatalReport, FatalError)
      else if IsIn(b.cpus[id], b.generation, Parked) then b.(pc := CheckpointFailures(id))
      else Fail(b, BadCheckpoint(id), CheckpointError)
    case CheckpointFailures(id) =>
      if b.cpus[id].failures == 0 then b.(pc := ReadFrom(b.required, b.listed, id, 0))
      else Fail(b, BadCheckpoint(id), CheckpointError)
    case Readback(id, at) =>
      if luck.ok && b.cpus[at].cell == Expected(b, at)
      then Log(b, SawCell(at, b.cpus[at].cell), ReadFrom(b.required, b.listed, id, at + 1))
      else Fail(b, BadCell(at), ReadbackError)
    case _ => b
  }

  /** The final check of the exact set, and the one-way outcome. */
  function VerifyStep(b: Boot, luck: Luck): (b': Boot)
    requires Shape(b) && OwnId(b.pc)
    ensures Shape(b')
  {
    match b.pc
    case VerifyMask =>
      if b.attempted == b.required then b.(pc := VerifyFatal) else Fail(b, WrongSet, CheckpointError)
    case VerifyFatal =>
      if b.status != Releasing then Fail(b, WrongStatus, TransitionError)
      else if luck.fatal then Fail(b, FatalReport, FatalError)
      else if b.required == {} then Fail(b, WrongSet, CheckpointError)
      else b.(pc := VerifyFrom(b.required, 1))
    case VerifyCpu(id) =>
      if IsIn(b.cpus[id], b.generation, Parked) then Log(b, SawParked(id, b.generation), VerifyFailures(id))
      else Fail(b, BadCheckpoint(id), CheckpointError)
    case VerifyFailures(id) =>
      if b.cpus[id].failures == 0 then Log(b, SawClean(id), VerifyFrom(b.required, id + 1))
      else Fail(b, BadCheckpoint(id), CheckpointError)
    case Finalize(o) =>
      if b.status == Releasing then
        var next := match o
          case Fine => Ready
          case WaitError => WaitFailed
          case CheckpointError => WaitFailed
          case FatalError => WaitFailed
          case ReadbackError => WaitFailed
          case _ => ReleaseFailed;
        b.(pc := FinalSwap(next))
      else if b.status == Preparing then b.(pc := FinalSwap(PreparationFailed))
      else b.(pc := Resting)
    case FinalSwap(next) => b.(status := next, pc := Resting)
    case _ => b
  }

  predicate Prepares(pc: Pc) { pc.PrepareCpu? || pc.PublishCpu? || pc.PublishAll? || pc.BeginRelease? }

  predicate Waits(pc: Pc) { pc.PollState? || pc.Checkpoint? || pc.CheckpointFailures? || pc.Readback? }

  predicate Verifies(pc: Pc) {
    pc.VerifyMask? || pc.VerifyFatal? || pc.VerifyCpu? || pc.VerifyFailures? || pc.Finalize? || pc.FinalSwap?
  }

  function Run(b: Boot, luck: Luck): (b': Boot)
    requires Shape(b) && OwnId(b.pc)
    ensures Shape(b')
  {
    if Prepares(b.pc) then PrepareStep(b, luck)
    else if Waits(b.pc) then WaitStep(b, luck)
    else if Verifies(b.pc) then VerifyStep(b, luck)
    else ReleaseStep(b, luck)
  }

  // The entrants.

  function Less(n: nat): nat { if n > 0 then n - 1 else 0 }

  /** A secondary's step on its own mailbox. It entered with the published generation, which never
      changes, so that is the one it passes on. */
  function CpuStep(c: Cpu, ev: Event): Cpu {
    match ev
    case Arrive(_, _) => c.(arrived := c.arrived + 1)
    case Claim(_) =>
      if c.claimed then c.(arrived := Less(c.arrived))
      else c.(arrived := Less(c.arrived), claimed := true, holders := c.holders + 1)
    case Park(_) => Transition(c, c.ready, Starting, Parked).(holders := Less(c.holders))
    case FailEntry(_) => Transition(c, c.ready, Starting, Failed).(holders := Less(c.holders))
    case GoOnline(_) => Transition(c, c.ready, Parked, Online)
    case ParkAgain(_) => Transition(c, c.ready, Online, Parked)
    case FailLater(_) => Transition(Transition(c, c.ready, Parked, Failed), c.ready, Online, Failed)
    case AddFailure(_) => c.(failures := c.failures + 1)
    case _ => c
  }

  /** Entrants pass the check of `claim_entry` only in Starting; only a claim holder parks or
      fails; only a CPU that has entered manages itself or records failures. */
  predicate CpuMay(c: Cpu, ev: Event) {
    match ev
    case Arrive(_, _) => IsIn(c, ev.generation, Starting)
    case Claim(_) => c.arrived > 0
    case Park(_) => c.holders > 0
    case FailEntry(_) => c.holders > 0
    case GoOnline(_) => c.claimed && c.holders == 0
    case ParkAgain(_) => c.claimed && c.holders == 0
    case FailLater(_) => c.claimed && c.holders == 0
    case AddFailure(_) => c.claimed
    case _ => false
  }

  predicate Enabled(b: Boot, ev: Event)
    requires Shape(b)
  {
    match ev
    case StartAll(required, _) => b.pc == Resting && forall id | id in required :: 0 < id < MAX_CPUS
    case Step(_) => b.pc != Resting && OwnId(b.pc)
    case _ => ev.id < MAX_CPUS && CpuMay(b.cpus[ev.id], ev)
  }

  function Next(b: Boot, ev: Event): (b': Boot)
    requires Shape(b) && Enabled(b, ev)
    ensures Shape(b')
  {
    match ev
    case StartAll(required, generation) =>
      if b.status != Idle then b
      else
        var b' := b.(status := Preparing, required := required, generation := generation);
        if required == {} then Fail(b', NotPrepared, PreparationError) else b'.(pc := PrepareFrom(required, 1))
    case Step(luck) => Run(b, luck)
    case _ => Put(b, ev.id, CpuStep(b.cpus[ev.id], ev))
  }

  /** `guest_authorized`. */
  predicate GuestAuthorized(b: Boot, fatal: bool) {
    !fatal && b.status == Ready
  }
}
