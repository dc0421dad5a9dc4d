/** The mapping-update epoch protocol as a step system.

Every atomic access of the source is one step, and steps of the CPUs interleave freely. Each CPU
runs one operation at a time. The acknowledgement operations of an id belong to that CPU, and
CPU 0 alone advances the phases and writes the scratch leaf. Everything else may be called by any
CPU, with any argument. The leaf and the CPUs' cached translations of it are part of the state.
*/
module TlbUpdate {
  import opened Bits
  import opened Wrappers

  const MAX_CPUS: nat := 4

  datatype Phase = Idle | Quiescing | Replacing | Synchronizing | Complete | Failed

  datatype Op =
    | Admit(e: nat) | Quiesce(e: nat) | Synchronize(e: nat)
    | StartReplace(e: nat) | Write(e: nat, oldPa: nat, newPa: nat) | Publish(e: nat) | Finish(e: nat)
    | Reusable(e: nat) | Begin(ms: set<nat>) | TryMembership | FinishMembership | Fail

  /** Where a CPU stands: the next atomic access, and the values it has loaded. */
  datatype Pc =
    | Ready
    | CheckFailed(op: Op) | CheckMember(op: Op) | CheckEpoch(op: Op) | CheckPhase(op: Op) | CheckGate(op: Op)
    | AdmitLoad(e: nat) | AdmitSwap(e: nat, previous: nat)
    | QuiesceLoad(e: nat) | QuiesceStore(e: nat)
    | AckMember(op: Op, i: nat) | AckLoad(op: Op, i: nat) | AckEpoch(op: Op, i: nat, ack: nat)
    | StartSwap(e: nat) | PublishSwap(e: nat) | SyncStore(e: nat) | FinishSwap(e: nat) | FinishOpen
    | Break(op: Op) | FlushBroken(op: Op) | Make(op: Op) | FlushMade(op: Op)
    | BeginFailed(ms: set<nat>) | BeginGate(ms: set<nat>) | BeginPhase(ms: set<nat>)
    | BeginEpoch(ms: set<nat>, prior: Phase) | BeginMembers(ms: set<nat>, prior: Phase, at: nat)
    | BeginStore(ms: set<nat>, prior: Phase, at: nat) | BeginSwap(prior: Phase)
    | TryFailed | TrySwap | TryAgain
    | ReuseEpoch(e: nat) | ReusePhase(e: nat)
    | FailStore

  /** A replacement of the leaf, from the moment the leaf is broken. */
  datatype Change = Change(e: nat, oldPa: nat, newPa: nat)

  /** The shared words, the leaf with its cached copies, and a record of the run: the members of
      each epoch, how far epochs have come, whether the members of the next epoch are stored, whether
      an epoch is between its first phase and its completion, the replacements of the leaf, and
      whether no call was `Early`. */
  datatype Words = Words(
    gate: nat, epoch: nat, members: set<nat>, phase: Phase,
    requested: seq<nat>, quiet: seq<nat>, synced: seq<nat>,
    leaf: Option<nat>, tlb: seq<Option<nat>>,
    history: seq<set<nat>>, replaced: nat, published: nat, done: nat, pending: bool, active: bool,
    changes: seq<Change>, timely: bool)

  datatype State = State(w: Words, pcs: seq<Pc>, holds: seq<bool>)

  datatype Event = Call(c: nat, op: Op) | Run(c: nat) | Fill(c: nat) | Evict(c: nat)

  // The operations.

  predicate Checked(op: Op) {
    op.Admit? || op.Quiesce? || op.Synchronize? || op.StartReplace? || op.Write? || op.Publish? || op.Finish?
  }

  function Need(op: Op): Phase
    requires Checked(op)
  {
    match op
    case Admit(_) => Quiescing
    case Quiesce(_) => Quiescing
    case StartReplace(_) => Quiescing
    case Write(_, _, _) => Replacing
    case Publish(_) => Replacing
    case _ => Synchronizing
  }

  /** Phase changes belong to CPU 0; a membership change is finished by the CPU that holds it. */
  predicate MayCall(c: nat, holds: bool, op: Op) {
    && (op.StartReplace? || op.Write? || op.Publish? || op.Finish? ==> c == 0)
    && (op.FinishMembership? ==> holds)
  }

  /** A member other than CPU 0 announces an epoch that is still to come. */
  predicate Early(w: Words, c: nat, op: Op) {
    op.Synchronize? && c != 0 && c in w.members && w.epoch < op.e < U64_LIMIT
  }

  function Entry(op: Op): Pc {
    if Checked(op) then CheckFailed(op)
    else match op
    case Reusable(e) => ReuseEpoch(e)
    case Begin(ms) => BeginFailed(ms)
    case TryMembership => TryFailed
    case _ => FailStore
  }

  /** What follows a successful `check`. */
  function AfterCheck(op: Op): Pc
    requires Checked(op)
  {
    match op
    case Admit(e) => AdmitLoad(e)
    case Quiesce(e) => QuiesceLoad(e)
    case Synchronize(e) => SyncStore(e)
    case Publish(e) => PublishSwap(e)
    case _ => AckMember(op, 0)
  }

  /** What follows a scan that found every acknowledgement. */
  function AfterScan(op: Op): Pc {
    match op
    case StartReplace(e) => StartSwap(e)
    case Write(_, _, _) => Break(op)
    case Finish(e) => FinishSwap(e)
    case _ => Ready
  }

  function Acks(w: Words, op: Op): seq<nat> {
    if op.StartReplace? || op.Write? then w.quiet else w.synced
  }

  predicate GoodMask(ms: set<nat>) {
    0 in ms && ms != {0} && forall m | m in ms :: m < MAX_CPUS
  }

  predicate SizedWords(w: Words) {
    |w.requested| == |w.quiet| == |w.synced| == |w.tlb| == MAX_CPUS
  }

  predicate WellPc(pc: Pc) {
    match pc
    case CheckFailed(op) => Checked(op)
    case CheckMember(op) => Checked(op)
    case CheckEpoch(op) => Checked(op)
    case CheckPhase(op) => Checked(op)
    case CheckGate(op) => Checked(op)
    case AckMember(op, i) => Scans(op) && i <= MAX_CPUS
    case AckLoad(op, i) => Scans(op) && i < MAX_CPUS
    case AckEpoch(op, i, _) => Scans(op) && i < MAX_CPUS
    case Break(op) => op.Write?
    case FlushBroken(op) => op.Write?
    case Make(op) => op.Write?
    case FlushMade(op) => op.Write?
    case _ => true
  }

  predicate Scans(op: Op) {
    op.StartReplace? || op.Write? || op.Finish? || op.Reusable?
  }

  /** An access that only loads: the next position. */
  function Load(w: Words, c: nat, pc: Pc): (r: Pc)
    requires SizedWords(w) && WellPc(pc) && c < MAX_CPUS
    ensures WellPc(r)
  {
    match pc
    case CheckFailed(op) => if w.phase == Failed then Ready else CheckMember(op)
    case CheckMember(op) => if c !in w.members then Ready else CheckEpoch(op)
    case CheckEpoch(op) => if op.e == 0 || w.epoch != op.e then Ready else CheckPhase(op)
    case CheckPhase(op) => if w.phase != Need(op) then Ready else CheckGate(op)
    case CheckGate(op) => if w.gate != 1 then Ready else AfterCheck(op)
    case AdmitLoad(e) => if c == 0 || w.requested[c] >= e then Ready else AdmitSwap(e, w.requested[c])
    case QuiesceLoad(e) => if c != 0 && w.requested[c] != e then Ready else QuiesceStore(e)
    case AckMember(op, i) =>
      if i == MAX_CPUS then AfterScan(op) else if i in w.members then AckLoad(op, i) else AckMember(op, i + 1)
    case AckLoad(op, i) => AckEpoch(op, i, Acks(w, op)[i])
    case AckEpoch(op, i, ack) => if ack == w.epoch then AckMember(op, i + 1) else Ready
    case BeginFailed(ms) => if w.phase == Failed || !GoodMask(ms) then Ready else BeginGate(ms)
    case BeginPhase(ms) => if w.phase == Idle || w.phase == Complete then BeginEpoch(ms, w.phase) else FailStore
    case BeginEpoch(ms, prior) => if w.epoch + 1 >= U64_LIMIT then FailStore else BeginMembers(ms, prior, w.epoch)
    case TryFailed => if w.phase == Failed then Ready else TrySwap
    case ReuseEpoch(e) => if e == 0 || w.epoch != e then Ready else ReusePhase(e)
    case ReusePhase(e) => if w.phase != Complete then Ready else AckMember(Reusable(e), 0)
    case _ => Ready
  }

  predicate Loads(pc: Pc) {
    || pc.CheckFailed? || pc.CheckMember? || pc.CheckEpoch? || pc.CheckPhase? || pc.CheckGate?
    || pc.AdmitLoad? || pc.QuiesceLoad? || pc.AckMember? || pc.AckLoad? || pc.AckEpoch?
    || pc.BeginFailed? || pc.BeginPhase? || pc.BeginEpoch? || pc.TryFailed? || pc.ReuseEpoch? || pc.ReusePhase?
  }

  /** An access that may store: the new words and the next position. */
  function Store(w: Words, c: nat, pc: Pc): (r: (Words, Pc))
    requires SizedWords(w) && WellPc(pc) && c < MAX_CPUS
    ensures SizedWords(r.0) && WellPc(r.1)
  {
    match pc
    case AdmitSwap(e, previous) =>
      (if w.requested[c] == previous then w.(requested := w.requested[c := e]) else w, Ready)
    case QuiesceStore(e) => (w.(quiet := w.quiet[c := e]), Ready)
    case SyncStore(e) => (w.(synced := w.synced[c := e]), Ready)
    case StartSwap(e) => (if w.phase == Quiescing then w.(phase := Replacing, replaced := w.epoch) else w, Ready)
    case PublishSwap(e) => (if w.phase == Replacing then w.(phase := Synchronizing, published := w.epoch) else w, Ready)
    case FinishSwap(e) =>
      if w.phase == Synchronizing then (w.(phase := Complete, done := w.epoch, active := false), FinishOpen)
      else (w, Ready)
    case FinishOpen => (w.(gate := 0), Ready)
    case Break(op) =>
      if w.leaf != Some(op.oldPa) || op.oldPa == op.newPa then (w, Ready)
      else (w.(leaf := None, changes := w.changes + [Change(op.e, op.oldPa, op.newPa)]), FlushBroken(op))
    case FlushBroken(op) => (w.(tlb := NoCopies()), Make(op))
    case Make(op) => (w.(leaf := Some(op.newPa)), FlushMade(op))
    case FlushMade(op) => (w.(tlb := NoCopies()), Ready)
    case BeginGate(ms) => if w.gate == 0 then (w.(gate := 1), BeginPhase(ms)) else (w, Ready)
    case BeginMembers(ms, prior, at) => (w.(members := ms, pending := true), BeginStore(ms, prior, at))
    case BeginStore(ms, prior, at) =>
      (w.(epoch := at + 1, history := w.history + [ms], pending := false), BeginSwap(prior))
    case BeginSwap(prior) => (if w.phase == prior then w.(phase := Quiescing, active := true) else w, Ready)
    case FailStore => (w.(phase := Failed), Ready)
    case _ => (w, Ready)
  }

  function NoCopies(): (t: seq<Option<nat>>)
    ensures |t| == MAX_CPUS && forall c | 0 <= c < MAX_CPUS :: t[c] == None
  {
    [None, None, None, None]
  }

  /** One access of CPU `c`: words, position, and whether it holds a membership change. */
  function Access(w: Words, c: nat, pc: Pc, holds: bool): (r: (Words, Pc, bool))
    requires SizedWords(w) && WellPc(pc) && c < MAX_CPUS
    ensures SizedWords(r.0) && WellPc(r.1)
  {
    if pc.TrySwap? then
      if w.gate == 0 then (w.(gate := 2), TryAgain, holds) else (w, Ready, holds)
    else if pc.TryAgain? then (w, Ready, w.phase != Failed)
    else if Loads(pc) then (w, Load(w, c, pc), holds)
    else var (w', pc') := Store(w, c, pc); (w', pc', holds)
  }

  predicate Shape(s: State) {
    |s.pcs| == |s.holds| == MAX_CPUS && SizedWords(s.w) && forall c | 0 <= c < MAX_CPUS :: WellPc(s.pcs[c])
  }

  predicate Enabled(s: State, ev: Event)
    requires Shape(s)
  {
    ev.c < MAX_CPUS
    && (ev.Call? ==> s.pcs[ev.c] == Ready && MayCall(ev.c, s.holds[ev.c], ev.op))
    && (ev.Run? ==> s.pcs[ev.c] != Ready)
  }

  /** `finish_membership_change` is a single exchange; its assertion is `FinishAsserts`. */
  function Next(s: State, ev: Event): (s': State)
    requires Shape(s) && Enabled(s, ev)
    ensures Shape(s')
  {
    match ev
    case Call(c, op) =>
      if op.FinishMembership? then s.(w := s.w.(gate := 0), holds := s.holds[c := false])
      else s.(pcs := s.pcs[c := Entry(op)], w := s.w.(timely := s.w.timely && !Early(s.w, c, op)))
    case Run(c) =>
      var (w', pc', holds') := Access(s.w, c, s.pcs[c], s.holds[c]);
      State(w', s.pcs[c := pc'], s.holds[c := holds'])
    case Fill(c) => s.(w := s.w.(tlb := s.w.tlb[c := s.w.leaf]))
    case Evict(c) => s.(w := s.w.(tlb := s.w.tlb[c := None]))
  }

  predicate FinishAsserts(s: State) {
    s.w.gate == 2
  }

  function Initial(leaf: Option<nat>): (s: State)
    ensures Shape(s)
  {
    State(
      Words(0, 0, {}, Idle, [0, 0, 0, 0], [0, 0, 0, 0], [0, 0, 0, 0], leaf, NoCopies(),
            [], 0, 0, 0, false, false, [], true),
      [Ready, Ready, Ready, Ready], [false, false, false, false])
  }
}
