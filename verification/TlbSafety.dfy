/** The invariant of the mapping-update protocol, kept by every step of every CPU. */
module TlbSafety {
  import opened Bits
  import opened Wrappers
  import opened TlbUpdate

  // The shared words.

  predicate Chain(w: Words)
    ensures Chain(w) ==> SizedWords(w)
  {
    && SizedWords(w) && |w.history| == w.epoch < U64_LIMIT
    && w.done <= w.published <= w.replaced <= w.epoch <= w.done + 1
    && (w.gate != 1 ==> !w.active && !w.pending && w.epoch == w.done)
    && (w.active ==> w.epoch == w.done + 1 && w.phase != Idle && w.phase != Complete)
    && (w.pending ==> w.epoch == w.done)
    && (!w.pending && w.epoch > 0 ==> w.members == w.history[w.epoch - 1])
    && match w.phase
       case Idle => !w.active && w.replaced == 0
       case Quiescing => w.active && w.replaced < w.epoch
       case Replacing => w.active && w.replaced == w.epoch && w.published < w.epoch
       case Synchronizing => w.active && w.published == w.epoch
       case Complete => !w.active && w.replaced == w.done
       case Failed => true
  }

  predicate Acknowledged(w: Words)
    requires SizedWords(w)
  {
    forall c | 0 <= c < MAX_CPUS ::
      && w.quiet[c] <= w.epoch && w.synced[c] <= w.published && w.requested[c] <= w.epoch
      && (c != 0 ==> w.quiet[c] <= w.requested[c])
  }

  /** Members of an epoch that was replaced were quiet at it; of one that completed, synchronized. */
  ghost predicate Served(w: Words)
    requires SizedWords(w)
  {
    && (forall k | 0 <= k < |w.history| :: GoodMask(w.history[k]))
    && (forall k, c | 0 <= k < |w.history| && k < w.replaced && c in w.history[k] && c < MAX_CPUS ::
          w.quiet[c] >= k + 1)
    && (forall k, c | 0 <= k < |w.history| && k < w.done && c in w.history[k] && c < MAX_CPUS :: w.synced[c] >= k + 1)
  }

  ghost predicate Global(w: Words)
    ensures Global(w) ==> SizedWords(w)
  {
    Chain(w) && Acknowledged(w) && Served(w)
  }

  // What each position of a CPU knows.

  predicate CritPc(pc: Pc) {
    || pc.BeginPhase? || pc.BeginEpoch? || pc.BeginMembers? || pc.BeginStore? || pc.BeginSwap?
    || pc.TryAgain? || pc.FinishOpen?
  }

  /** The CPU owns the gate outside an active update. */
  predicate Crit(pc: Pc, holds: bool) {
    CritPc(pc) || holds
  }

  predicate OwnerOp(op: Op) {
    op.StartReplace? || op.Write? || op.Publish? || op.Finish?
  }

  /** The epoch `e` was read by CPU `c`, which has acknowledged nothing later. */
  predicate Read(w: Words, c: nat, e: nat)
    requires SizedWords(w) && c < MAX_CPUS
  {
    1 <= e <= w.epoch && w.quiet[c] <= e && w.synced[c] <= e
  }

  predicate Writing(w: Words, e: nat) {
    w.active && e == w.epoch && w.replaced == w.epoch && w.published < w.epoch
  }

  predicate AckedTo(w: Words, acks: seq<nat>, i: nat)
    requires |acks| == MAX_CPUS && i <= MAX_CPUS
  {
    forall c | 0 <= c < i && c in w.members :: acks[c] == w.epoch
  }

  predicate ScanOk(w: Words, c: nat, op: Op, i: nat)
    requires SizedWords(w) && Scans(op) && i <= MAX_CPUS
  {
    match op
    case StartReplace(e) => c == 0 && w.active && w.replaced < w.epoch && AckedTo(w, w.quiet, i)
    case Write(e, _, _) => c == 0 && Writing(w, e) && AckedTo(w, w.quiet, i)
    case Finish(e) => c == 0 && w.active && w.published == w.epoch && AckedTo(w, w.synced, i)
    case _ => 1 <= op.e <= w.epoch && (op.e <= w.done || AckedTo(w, w.synced, i))
  }

  predicate PriorOk(w: Words, prior: Phase) {
    (prior == Idle || prior == Complete) && (w.phase == prior || w.phase == Failed)
  }

  predicate CheckOk(w: Words, c: nat, op: Op)
    requires SizedWords(w) && c < MAX_CPUS && Checked(op)
  {
    Read(w, c, op.e) && (OwnerOp(op) ==> c == 0) && (op.Write? ==> op.e == w.epoch || w.replaced < w.epoch)
  }

  predicate GateOk(w: Words, c: nat, op: Op)
    requires SizedWords(w) && c < MAX_CPUS && Checked(op)
  {
    && Read(w, c, op.e) && (OwnerOp(op) ==> c == 0)
    && (op.Synchronize? ==> op.e <= w.published)
    && (op.StartReplace? ==> w.active && w.replaced < w.epoch)
    && (op.Write? ==> Writing(w, op.e))
    && (op.Finish? ==> w.active && w.published == w.epoch)
  }

  /** Inside `begin`, after its gate exchange. */
  predicate BeginOk(w: Words, ms: set<nat>, pending: bool) {
    w.gate == 1 && !w.active && w.epoch == w.done && w.pending == pending && GoodMask(ms)
  }

  predicate Local(w: Words, c: nat, pc: Pc, holds: bool)
    requires SizedWords(w) && c < MAX_CPUS && WellPc(pc)
  {
    && (holds ==> w.gate == 2 && !CritPc(pc))
    && match pc
       case CheckFailed(op) => OwnerOp(op) ==> c == 0
       case CheckMember(op) => OwnerOp(op) ==> c == 0
       case CheckEpoch(op) => OwnerOp(op) ==> c == 0
       case CheckPhase(op) => CheckOk(w, c, op)
       case CheckGate(op) => GateOk(w, c, op)
       case AdmitLoad(e) => Read(w, c, e)
       case AdmitSwap(e, previous) => Read(w, c, e) && w.requested[c] == previous < e
       case QuiesceLoad(e) => Read(w, c, e)
       case QuiesceStore(e) => Read(w, c, e) && (c != 0 ==> w.requested[c] == e)
       case SyncStore(e) => Read(w, c, e) && e <= w.published
       case AckMember(op, i) => ScanOk(w, c, op, i)
       case AckLoad(op, i) => ScanOk(w, c, op, i)
       case AckEpoch(op, i, ack) => ScanOk(w, c, op, i) && ack <= Acks(w, op)[i]
       case StartSwap(e) => ScanOk(w, c, StartReplace(e), MAX_CPUS)
       case PublishSwap(e) => c == 0
       case FinishSwap(e) => ScanOk(w, c, Finish(e), MAX_CPUS)
       case FinishOpen => w.gate == 1 && !w.active && !w.pending && w.epoch == w.done
       case Break(op) => ScanOk(w, c, op, MAX_CPUS)
       case FlushBroken(op) => ScanOk(w, c, op, MAX_CPUS)
       case Make(op) => ScanOk(w, c, op, MAX_CPUS)
       case FlushMade(op) => ScanOk(w, c, op, MAX_CPUS)
       case BeginGate(ms) => GoodMask(ms)
       case BeginPhase(ms) => BeginOk(w, ms, false)
       case BeginEpoch(ms, prior) => BeginOk(w, ms, false) && PriorOk(w, prior)
       case BeginMembers(ms, prior, at) => BeginOk(w, ms, false) && PriorOk(w, prior) && at == w.epoch < U64_LIMIT - 1
       case BeginStore(ms, prior, at) =>
         BeginOk(w, ms, true) && PriorOk(w, prior) && at == w.epoch < U64_LIMIT - 1 && w.members == ms
       case BeginSwap(prior) => w.gate == 1 && !w.active && w.epoch == w.done + 1 && PriorOk(w, prior)
       case TryAgain => w.gate == 2
       case ReusePhase(e) => 1 <= e <= w.epoch
       case _ => true
  }

  predicate Alone(s: State)
    requires Shape(s)
  {
    forall c, d | 0 <= c < d < MAX_CPUS :: !(Crit(s.pcs[c], s.holds[c]) && Crit(s.pcs[d], s.holds[d]))
  }

  ghost predicate Inv(s: State)
    ensures Inv(s) ==> Shape(s)
  {
    Shape(s) && Global(s.w) && Alone(s)
    && forall c | 0 <= c < MAX_CPUS :: Local(s.w, c, s.pcs[c], s.holds[c])
  }

  // Interference.

  /** What a step of CPU `c` can do to the words, as the other CPUs see it. `crit` says whether
      `c` owned the gate. */
  predicate Rely(w: Words, w': Words, c: nat, crit: bool)
    requires SizedWords(w) && SizedWords(w')
  {
    && w.epoch <= w'.epoch && w.published <= w'.published && w.replaced <= w'.replaced && w.done <= w'.done
    && w.history <= w'.history
    && (forall d | 0 <= d < MAX_CPUS :: w.quiet[d] <= w'.quiet[d] && w.synced[d] <= w'.synced[d])
    && (forall d | 0 <= d < MAX_CPUS && d != c ::
          w'.quiet[d] == w.quiet[d] && w'.synced[d] == w.synced[d] && w'.requested[d] == w.requested[d])
    && (w.phase == Failed ==> w'.phase == Failed)
    && (c != 0 ==> w'.replaced == w.replaced && w'.published == w.published)
    && (c != 0 && w.active ==> w'.active && w'.epoch == w.epoch && w'.members == w.members)
    && (!crit && w.gate != 0 && !w.active ==>
          && w'.gate == w.gate && !w'.active && w'.epoch == w.epoch && w'.done == w.done
          && w'.members == w.members && w'.pending == w.pending && (w'.phase == w.phase || w'.phase == Failed))
  }

  /** Another CPU's step keeps what CPU `d` knows. */
  lemma Stable(w: Words, w': Words, c: nat, crit: bool, d: nat, pc: Pc, holds: bool)
    requires Chain(w) && Chain(w') && Acknowledged(w) && Acknowledged(w') && Rely(w, w', c, crit)
    requires c < MAX_CPUS && d < MAX_CPUS && d != c && WellPc(pc)
    requires Local(w, d, pc, holds) && !(crit && Crit(pc, holds))
    ensures Local(w', d, pc, holds)
  {
    hide Chain, Acknowledged, Rely, Local;
    if Scanning(pc) {
      StableScanning(w, w', c, crit, d, pc, holds);
    } else if Crit(pc, holds) {
      StableCrit(w, w', c, crit, d, pc, holds);
    } else {
      StableCheck(w, w', c, crit, d, pc, holds);
    }
  }

  predicate Scanning(pc: Pc) {
    || pc.AckMember? || pc.AckLoad? || pc.AckEpoch? || pc.StartSwap? || pc.FinishSwap?
    || pc.Break? || pc.FlushBroken? || pc.Make? || pc.FlushMade?
  }

  lemma StableScanning(w: Words, w': Words, c: nat, crit: bool, d: nat, pc: Pc, holds: bool)
    requires Chain(w) && Chain(w') && Acknowledged(w) && Acknowledged(w') && Rely(w, w', c, crit)
    requires c < MAX_CPUS && d < MAX_CPUS && d != c && WellPc(pc) && Scanning(pc)
    requires Local(w, d, pc, holds) && !(crit && Crit(pc, holds))
    ensures Local(w', d, pc, holds)
  {
    hide ScanOk, Chain, Acknowledged, Rely;
    RelyBasics(w, w', c, crit);
    if pc.StartSwap? {
      StableScan(w, w', c, crit, d, StartReplace(pc.e), MAX_CPUS);
    } else if pc.FinishSwap? {
      StableScan(w, w', c, crit, d, Finish(pc.e), MAX_CPUS);
    } else if pc.AckMember? || pc.AckLoad? || pc.AckEpoch? {
      StableScan(w, w', c, crit, d, pc.op, pc.i);
    } else {
      StableScan(w, w', c, crit, d, pc.op, MAX_CPUS);
    }
  }

  lemma RelyBasics(w: Words, w': Words, c: nat, crit: bool)
    requires Chain(w) && SizedWords(w') && Rely(w, w', c, crit)
    ensures w.gate == 2 && !crit ==> w'.gate == 2
    ensures forall i | 0 <= i < MAX_CPUS :: w.quiet[i] <= w'.quiet[i] && w.synced[i] <= w'.synced[i]
  {
  }

  lemma StableCrit(w: Words, w': Words, c: nat, crit: bool, d: nat, pc: Pc, holds: bool)
    requires Chain(w) && Chain(w') && Acknowledged(w) && Acknowledged(w') && Rely(w, w', c, crit)
    requires c < MAX_CPUS && d < MAX_CPUS && d != c && WellPc(pc) && !Scanning(pc)
    requires Local(w, d, pc, holds) && Crit(pc, holds) && !crit
    ensures Local(w', d, pc, holds)
  {
    hide ScanOk, GoodMask, Acknowledged;
  }

  lemma StableCheck(w: Words, w': Words, c: nat, crit: bool, d: nat, pc: Pc, holds: bool)
    requires Chain(w) && Chain(w') && Acknowledged(w) && Acknowledged(w') && Rely(w, w', c, crit)
    requires c < MAX_CPUS && d < MAX_CPUS && d != c && WellPc(pc) && !Scanning(pc)
    requires Local(w, d, pc, holds) && !Crit(pc, holds)
    ensures Local(w', d, pc, holds)
  {
    hide ScanOk, GoodMask, BeginOk, PriorOk;
  }

  lemma StableScan(w: Words, w': Words, c: nat, crit: bool, d: nat, op: Op, i: nat)
    requires Chain(w) && Chain(w') && Acknowledged(w) && Acknowledged(w') && Rely(w, w', c, crit)
    requires c < MAX_CPUS && d < MAX_CPUS && d != c && Scans(op) && i <= MAX_CPUS && ScanOk(w, d, op, i)
    ensures ScanOk(w', d, op, i)
  {
  }

  // The steps of one CPU.

  lemma LoadStep(w: Words, c: nat, pc: Pc, holds: bool)
    requires Global(w) && c < MAX_CPUS && WellPc(pc) && Local(w, c, pc, holds) && Loads(pc)
    ensures Local(w, c, Load(w, c, pc), holds)
    ensures CritPc(Load(w, c, pc)) ==> CritPc(pc)
  {
    hide Global, GoodMask, CheckOk, GateOk, Read, Writing;
    if pc.AckMember? || pc.AckLoad? || pc.AckEpoch? {
      ScanStep(w, c, pc, holds);
    } else if pc.CheckFailed? || pc.CheckMember? || pc.CheckEpoch? || pc.CheckPhase? || pc.CheckGate? {
      CheckStep(w, c, pc, holds);
    }
  }

  lemma CheckStep(w: Words, c: nat, pc: Pc, holds: bool)
    requires Global(w) && c < MAX_CPUS && WellPc(pc) && Local(w, c, pc, holds)
    requires pc.CheckFailed? || pc.CheckMember? || pc.CheckEpoch? || pc.CheckPhase? || pc.CheckGate?
    ensures Local(w, c, Load(w, c, pc), holds)
  {
    hide Served, GoodMask, BeginOk, PriorOk;
  }

  lemma ScanStep(w: Words, c: nat, pc: Pc, holds: bool)
    requires Global(w) && c < MAX_CPUS && WellPc(pc) && Local(w, c, pc, holds)
    requires pc.AckMember? || pc.AckLoad? || pc.AckEpoch?
    ensures Local(w, c, Load(w, c, pc), holds)
  {
    hide Global, ScanOk;
    if pc.i < MAX_CPUS {
      ScanMore(w, c, pc.op, pc.i);
    }
    AcksBounded(w);
  }

  lemma ScanMore(w: Words, c: nat, op: Op, i: nat)
    requires SizedWords(w) && Scans(op) && i < MAX_CPUS && ScanOk(w, c, op, i)
    ensures (i in w.members ==> Acks(w, op)[i] == w.epoch) ==> ScanOk(w, c, op, i + 1)
  {
  }

  lemma AcksBounded(w: Words)
    requires Global(w)
    ensures forall i | 0 <= i < MAX_CPUS :: w.quiet[i] <= w.epoch && w.synced[i] <= w.epoch
  {
    hide Served;
  }

  ghost predicate At(w: Words, c: nat, pc: Pc, holds: bool)
    ensures At(w, c, pc, holds) ==> SizedWords(w) && c < MAX_CPUS && WellPc(pc)
  {
    Global(w) && c < MAX_CPUS && WellPc(pc) && Local(w, c, pc, holds)
  }

  ghost predicate StoreOk(w: Words, c: nat, pc: Pc, holds: bool)
    requires SizedWords(w) && c < MAX_CPUS && WellPc(pc)
  {
    var (w', pc') := Store(w, c, pc);
    && Chain(w') && Acknowledged(w')
    && Rely(w, w', c, Crit(pc, holds)) && Local(w', c, pc', holds)
    && (CritPc(pc') ==> CritPc(pc) || w.gate == 0 || w.active)
  }

  lemma AdmitStores(w: Words, c: nat, pc: Pc, holds: bool)
    requires At(w, c, pc, holds) && pc.AdmitSwap?
    ensures StoreOk(w, c, pc, holds)
  {
    hide Served, AckedTo, ScanOk, GateOk, CheckOk, BeginOk, PriorOk, Writing, GoodMask;
  }

  lemma QuietStores(w: Words, c: nat, pc: Pc, holds: bool)
    requires At(w, c, pc, holds) && pc.QuiesceStore?
    ensures StoreOk(w, c, pc, holds)
  {
    hide Served, AckedTo, ScanOk, GateOk, CheckOk, BeginOk, PriorOk, Writing, GoodMask;
  }

  lemma SyncStores(w: Words, c: nat, pc: Pc, holds: bool)
    requires At(w, c, pc, holds) && pc.SyncStore?
    ensures StoreOk(w, c, pc, holds)
  {
    hide Served, AckedTo, ScanOk, GateOk, CheckOk, BeginOk, PriorOk, Writing, GoodMask;
  }

  lemma PhaseStores(w: Words, c: nat, pc: Pc, holds: bool)
    requires At(w, c, pc, holds) && (pc.StartSwap? || pc.PublishSwap?)
    ensures StoreOk(w, c, pc, holds)
  {
    hide Served, AckedTo, GateOk, CheckOk, BeginOk, PriorOk, Writing, GoodMask, Read;
  }

  lemma FinishStores(w: Words, c: nat, pc: Pc, holds: bool)
    requires At(w, c, pc, holds) && (pc.FinishSwap? || pc.FinishOpen?)
    ensures StoreOk(w, c, pc, holds)
  {
    hide Served, AckedTo, GateOk, CheckOk, BeginOk, PriorOk, Writing, GoodMask, Read;
  }

  lemma LeafStores(w: Words, c: nat, pc: Pc, holds: bool)
    requires At(w, c, pc, holds) && (pc.Break? || pc.Make?)
    ensures StoreOk(w, c, pc, holds)
  {
    hide Served, GateOk, CheckOk, BeginOk, PriorOk, GoodMask, Read;
  }

  lemma FlushStores(w: Words, c: nat, pc: Pc, holds: bool)
    requires At(w, c, pc, holds) && (pc.FlushBroken? || pc.FlushMade?)
    ensures StoreOk(w, c, pc, holds)
  {
    hide Served, GateOk, CheckOk, BeginOk, PriorOk, GoodMask, Read;
  }

  lemma GateStores(w: Words, c: nat, pc: Pc, holds: bool)
    requires At(w, c, pc, holds) && pc.BeginGate?
    ensures StoreOk(w, c, pc, holds)
  {
    hide Served, AckedTo, ScanOk, GateOk, CheckOk, PriorOk, Writing, GoodMask, Read;
  }

  lemma FailStores(w: Words, c: nat, pc: Pc, holds: bool)
    requires At(w, c, pc, holds) && pc.FailStore?
    ensures StoreOk(w, c, pc, holds)
  {
    hide Served, AckedTo, ScanOk, GateOk, CheckOk, PriorOk, Writing, GoodMask, Read;
  }

  lemma BeginStores(w: Words, c: nat, pc: Pc, holds: bool)
    requires At(w, c, pc, holds) && (pc.BeginMembers? || pc.BeginSwap?)
    ensures StoreOk(w, c, pc, holds)
  {
    hide Served, AckedTo, ScanOk, GateOk, CheckOk, Writing, GoodMask, Read;
  }

  lemma EpochStores(w: Words, c: nat, pc: Pc, holds: bool)
    requires At(w, c, pc, holds) && pc.BeginStore?
    ensures StoreOk(w, c, pc, holds)
  {
    hide Served, AckedTo, ScanOk, GateOk, CheckOk, Writing, GoodMask, Read;
  }

  /** A step that moves no counter and lowers no acknowledgement. */
  lemma ServedKept(w: Words, w': Words, c: nat, crit: bool)
    requires Global(w) && SizedWords(w') && Rely(w, w', c, crit)
    requires w'.history == w.history && w'.replaced == w.replaced && w'.done == w.done
    ensures Served(w')
  {
    hide Chain, Acknowledged, GoodMask;
  }

  lemma ServedReplaced(w: Words, w': Words)
    requires Global(w) && w.active && AckedTo(w, w.quiet, MAX_CPUS) && SizedWords(w')
    requires w'.history == w.history && w'.quiet == w.quiet && w'.synced == w.synced && w'.done == w.done
    requires w'.replaced == w.epoch
    ensures Served(w')
  {
    hide GoodMask, Acknowledged;
  }

  lemma ServedDone(w: Words, w': Words)
    requires Global(w) && w.active && AckedTo(w, w.synced, MAX_CPUS) && SizedWords(w')
    requires w'.history == w.history && w'.quiet == w.quiet && w'.synced == w.synced && w'.replaced == w.replaced
    requires w'.done == w.epoch
    ensures Served(w')
  {
    hide GoodMask, Acknowledged;
  }

  lemma ServedBegun(w: Words, w': Words, ms: set<nat>)
    requires Global(w) && GoodMask(ms) && SizedWords(w')
    requires w'.history == w.history + [ms] && w'.quiet == w.quiet && w'.synced == w.synced
    requires w'.replaced == w.replaced && w'.done == w.done
    ensures Served(w')
  {
    hide GoodMask, Acknowledged;
  }

  lemma StoreServes(w: Words, c: nat, pc: Pc, holds: bool)
    requires At(w, c, pc, holds) && StoreOk(w, c, pc, holds)
    ensures Served(Store(w, c, pc).0)
  {
    hide Served, Chain, Acknowledged, Rely, AckedTo, GateOk, CheckOk, PriorOk, Writing, GoodMask, Read;
    var w' := Store(w, c, pc).0;
    if pc.StartSwap? && w.phase == Quiescing {
      ServedReplaced(w, w');
    } else if pc.FinishSwap? && w.phase == Synchronizing {
      ServedDone(w, w');
    } else if pc.BeginStore? {
      ServedBegun(w, w', pc.ms);
    } else {
      ServedKept(w, w', c, Crit(pc, holds));
    }
  }

  // Every step keeps the invariant.

  /** CPU `c` moved and the words changed as others may rely on. */
  lemma Combine(s: State, c: nat, w': Words, pc': Pc, holds': bool)
    requires Inv(s) && c < MAX_CPUS && Global(w') && WellPc(pc')
    requires Rely(s.w, w', c, Crit(s.pcs[c], s.holds[c])) && Local(w', c, pc', holds')
    requires Crit(pc', holds') ==> Crit(s.pcs[c], s.holds[c]) || s.w.gate == 0 || s.w.active
    ensures Inv(State(w', s.pcs[c := pc'], s.holds[c := holds']))
  {
    hide Local, Served, Acknowledged, Rely, Chain;
    var s' := State(w', s.pcs[c := pc'], s.holds[c := holds']);
    forall d | 0 <= d < MAX_CPUS
      ensures Local(w', d, s'.pcs[d], s'.holds[d])
    {
      if d != c {
        Stable(s.w, w', c, Crit(s.pcs[c], s.holds[c]), d, s.pcs[d], s.holds[d]);
      }
    }
    forall d | 0 <= d < MAX_CPUS && Crit(s.pcs[d], s.holds[d])
      ensures s.w.gate != 0 && !s.w.active
    {
      CritOwns(s.w, d, s.pcs[d], s.holds[d]);
    }
  }

  lemma CritOwns(w: Words, c: nat, pc: Pc, holds: bool)
    requires Chain(w) && c < MAX_CPUS && WellPc(pc) && Local(w, c, pc, holds) && Crit(pc, holds)
    ensures w.gate != 0 && !w.active
  {
    hide ScanOk, CheckOk, GateOk, GoodMask;
  }

  lemma RunStep(s: State, c: nat)
    requires Inv(s) && c < MAX_CPUS && s.pcs[c] != Ready
    ensures Inv(Next(s, Run(c)))
    ensures Rely(s.w, Next(s, Run(c)).w, c, Crit(s.pcs[c], s.holds[c]))
  {
    hide Local, Global, Load, Store, Rely;
    var w, pc, holds := s.w, s.pcs[c], s.holds[c];
    if Loads(pc) {
      LoadStep(w, c, pc, holds);
      RelySame(w, c, Crit(pc, holds));
      Combine(s, c, w, Load(w, c, pc), holds);
    } else if pc.TrySwap? || pc.TryAgain? {
      TryStep(w, c, pc, holds);
      var (w', pc', holds') := Access(w, c, pc, holds);
      Combine(s, c, w', pc', holds');
    } else {
      StoreStep(w, c, pc, holds);
      Combine(s, c, Store(w, c, pc).0, Store(w, c, pc).1, holds);
    }
  }

  lemma RelySame(w: Words, c: nat, crit: bool)
    requires SizedWords(w)
    ensures Rely(w, w, c, crit)
  {
  }

  lemma TryStep(w: Words, c: nat, pc: Pc, holds: bool)
    requires At(w, c, pc, holds) && (pc.TrySwap? || pc.TryAgain?)
    ensures var (w', pc', holds') := Access(w, c, pc, holds);
            && Global(w') && Rely(w, w', c, Crit(pc, holds)) && Local(w', c, pc', holds')
            && (Crit(pc', holds') ==> Crit(pc, holds) || w.gate == 0)
  {
    hide Load, Store, GoodMask;
  }

  lemma StoreStep(w: Words, c: nat, pc: Pc, holds: bool)
    requires At(w, c, pc, holds) && !Loads(pc) && !pc.TrySwap? && !pc.TryAgain? && pc != Ready
    ensures StoreOk(w, c, pc, holds) && Global(Store(w, c, pc).0)
  {
    hide Local, Chain, Acknowledged, Served, Rely, Store, At, StoreOk;
    if pc.AdmitSwap? {
      AdmitStores(w, c, pc, holds);
    } else if pc.SyncStore? {
      SyncStores(w, c, pc, holds);
    } else if pc.QuiesceStore? {
      QuietStores(w, c, pc, holds);
    } else if pc.StartSwap? || pc.PublishSwap? {
      PhaseStores(w, c, pc, holds);
    } else if pc.FinishSwap? || pc.FinishOpen? {
      FinishStores(w, c, pc, holds);
    } else if pc.Break? || pc.Make? {
      LeafStores(w, c, pc, holds);
    } else if pc.FlushBroken? || pc.FlushMade? {
      FlushStores(w, c, pc, holds);
    } else if pc.BeginGate? {
      GateStores(w, c, pc, holds);
    } else if pc.BeginMembers? || pc.BeginSwap? {
      BeginStores(w, c, pc, holds);
    } else if pc.BeginStore? {
      EpochStores(w, c, pc, holds);
    } else {
      FailStores(w, c, pc, holds);
    }
    StoreServes(w, c, pc, holds);
    StoreGlobal(w, c, pc, holds);
  }

  lemma StoreGlobal(w: Words, c: nat, pc: Pc, holds: bool)
    requires SizedWords(w) && c < MAX_CPUS && WellPc(pc) && StoreOk(w, c, pc, holds) && Served(Store(w, c, pc).0)
    ensures Global(Store(w, c, pc).0)
  {
    hide Local, Chain, Acknowledged, Served, Rely, Store;
  }

  /** The words that positions speak of are unchanged. */
  predicate SameProtocol(w: Words, w': Words) {
    && SizedWords(w) && SizedWords(w')
    && w'.(leaf := w.leaf, tlb := w.tlb, changes := w.changes, timely := w.timely) == w
  }

  lemma SameGlobal(w: Words, w': Words)
    requires Global(w) && SameProtocol(w, w')
    ensures Global(w')
  {
    hide GoodMask;
  }

  lemma SameRely(w: Words, w': Words, c: nat, crit: bool)
    requires SameProtocol(w, w')
    ensures Rely(w, w', c, crit)
  {
  }

  lemma SameLocal(w: Words, w': Words, c: nat, pc: Pc, holds: bool)
    requires Global(w) && Global(w') && SameProtocol(w, w') && c < MAX_CPUS && WellPc(pc) && Local(w, c, pc, holds)
    ensures Local(w', c, pc, holds)
  {
    hide Local, Rely, Served;
    var other := if c == 0 then 1 else 0;
    SameRely(w, w', other, false);
    Stable(w, w', other, false, c, pc, holds);
  }

  lemma CallStep(s: State, c: nat, op: Op)
    requires Inv(s) && Enabled(s, Call(c, op))
    ensures Inv(Next(s, Call(c, op)))
  {
    hide Local, Global, Rely, Alone;
    var s' := Next(s, Call(c, op));
    if op.FinishMembership? {
      ReleaseStep(s.w, c, s.pcs[c]);
    } else {
      SameGlobal(s.w, s'.w);
      SameRely(s.w, s'.w, c, Crit(s.pcs[c], s.holds[c]));
      EntryLocal(s.w, s'.w, c, op, s.holds[c]);
    }
    Combine(s, c, s'.w, s'.pcs[c], s'.holds[c]);
    assert s'.pcs == s.pcs[c := s'.pcs[c]] && s'.holds == s.holds[c := s'.holds[c]];
  }

  lemma EntryLocal(w: Words, w': Words, c: nat, op: Op, holds: bool)
    requires SameProtocol(w, w') && c < MAX_CPUS && Local(w, c, Ready, holds) && MayCall(c, holds, op)
    ensures Local(w', c, Entry(op), holds) && !CritPc(Entry(op))
  {
    hide GoodMask;
  }

  /** The holder of a membership change releases the gate; the exchange returns 2. */
  lemma ReleaseStep(w: Words, c: nat, pc: Pc)
    requires At(w, c, pc, true) && pc == Ready
    ensures w.gate == 2
    ensures var w' := w.(gate := 0); Global(w') && Rely(w, w', c, true) && Local(w', c, pc, false)
  {
    hide GoodMask;
  }

  lemma CacheStep(s: State, tlb: seq<Option<nat>>)
    requires Inv(s) && |tlb| == MAX_CPUS
    ensures Inv(s.(w := s.w.(tlb := tlb)))
  {
    hide Local, Global;
    var w' := s.w.(tlb := tlb);
    SameGlobal(s.w, w');
    forall c | 0 <= c < MAX_CPUS
      ensures Local(w', c, s.pcs[c], s.holds[c])
    {
      SameLocal(s.w, w', c, s.pcs[c], s.holds[c]);
    }
  }

  lemma StepInv(s: State, ev: Event)
    requires Inv(s) && Enabled(s, ev)
    ensures Inv(Next(s, ev))
  {
    hide Local, Global, Alone;
    match ev
    case Call(c, op) => CallStep(s, c, op);
    case Run(c) => RunStep(s, c);
    case Fill(c) => CacheStep(s, s.w.tlb[c := s.w.leaf]);
    case Evict(c) => CacheStep(s, s.w.tlb[c := None]);
  }
}
