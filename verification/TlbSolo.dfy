/** Single calls of the update protocol: each ends after a bounded number of its own accesses, and one
    that is left alone does what its sequential specification says. */
module TlbSolo {
  import opened Bits
  import opened Wrappers
  import opened TlbUpdate
  import opened TlbTheorems

  /** At most this many accesses of the call are still to come. */
  function Rank(pc: Pc): nat
    requires WellPc(pc)
  {
    match pc
    case Ready => 0
    case CheckFailed(_) => 22
    case CheckMember(_) => 21
    case CheckEpoch(_) => 20
    case CheckPhase(_) => 19
    case CheckGate(_) => 18
    case ReuseEpoch(_) => 19
    case ReusePhase(_) => 18
    case AckMember(_, i) => 17 - 3 * i
    case AckLoad(_, i) => 16 - 3 * i
    case AckEpoch(_, i, _) => 15 - 3 * i
    case BeginFailed(_) => 7
    case BeginGate(_) => 6
    case BeginPhase(_) => 5
    case BeginEpoch(_, _) => 4
    case BeginMembers(_, _, _) => 3
    case BeginStore(_, _, _) => 2
    case Break(_) => 4
    case FlushBroken(_) => 3
    case Make(_) => 2
    case TryFailed => 3
    case TrySwap => 2
    case AdmitLoad(_) => 2
    case QuiesceLoad(_) => 2
    case FinishSwap(_) => 2
    case _ => 1
  }

  lemma LoadRank(w: Words, c: nat, pc: Pc)
    requires SizedWords(w) && WellPc(pc) && c < MAX_CPUS && Loads(pc)
    ensures Rank(Load(w, c, pc)) < Rank(pc)
  {
    hide GoodMask, Acks;
  }

  lemma StoreRank(w: Words, c: nat, pc: Pc)
    requires SizedWords(w) && WellPc(pc) && c < MAX_CPUS && pc != Ready
    ensures Rank(Store(w, c, pc).1) < Rank(pc)
  {
    hide GoodMask, Acks;
  }

  lemma AccessRank(w: Words, c: nat, pc: Pc, holds: bool)
    requires SizedWords(w) && WellPc(pc) && c < MAX_CPUS && pc != Ready
    ensures Rank(Access(w, c, pc, holds).1) < Rank(pc)
  {
    hide Load, Store;
    if Loads(pc) {
      LoadRank(w, c, pc);
    } else {
      StoreRank(w, c, pc);
    }
  }

  /** The accesses of CPU `c` in a run. */
  function Accesses(evs: seq<Event>, c: nat): nat {
    if evs == [] then 0 else (if evs[0] == Run(c) then 1 else 0) + Accesses(evs[1..], c)
  }

  /** Every operation is wait-free: however the other CPUs interleave, a call returns after at most
      22 accesses of its own. */
  lemma {:induction false} WaitFree(s: State, evs: seq<Event>, c: nat)
    requires Shape(s) && c < MAX_CPUS && Runs(s, evs)
    requires forall k | 0 <= k < |evs| :: !(evs[k].Call? && evs[k].c == c)
    ensures Accesses(evs, c) + Rank(After(s, evs).pcs[c]) <= Rank(s.pcs[c]) <= 22
    decreases |evs|
  {
    hide Rank, Access;
    RankBound(s.pcs[c]);
    if evs != [] {
      var s', rest := Next(s, evs[0]), evs[1..];
      if evs[0] == Run(c) {
        AccessRank(s.w, c, s.pcs[c], s.holds[c]);
      }
      assert forall k | 0 <= k < |rest| :: rest[k] == evs[k + 1];
      WaitFree(s', rest, c);
    }
  }

  lemma RankBound(pc: Pc)
    requires WellPc(pc)
    ensures Rank(pc) <= 22
  {
  }

  // A call left alone.

  /** What a call leaves behind: the words, whether its CPU holds a membership change, and whether a
      scan of the acknowledgements succeeded, which is the answer of `reusable` and of `may_write`. */
  datatype Outcome = Outcome(w: Words, holds: bool, yes: bool)

  function Solo(w: Words, c: nat, pc: Pc, holds: bool): Outcome
    requires SizedWords(w) && WellPc(pc) && c < MAX_CPUS
    decreases Rank(pc)
  {
    if pc == Ready then Outcome(w, holds, false)
    else
      var (w', pc', holds') := Access(w, c, pc, holds);
      AccessRank(w, c, pc, holds);
      var r := Solo(w', c, pc', holds');
      if pc.AckMember? && pc.i == MAX_CPUS then r.(yes := true) else r
  }

  /** The sequential specification of `check`. */
  predicate Passes(w: Words, c: nat, e: nat, phase: Phase) {
    c in w.members && 0 < e == w.epoch && w.phase == phase && w.gate == 1
  }

  predicate Unanimous(w: Words, acks: seq<nat>)
    requires |acks| == MAX_CPUS
  {
    forall k | 0 <= k < MAX_CPUS && k in w.members :: acks[k] == w.epoch
  }

  /** CPU 0 and at least one more CPU, and nobody else. */
  predicate Eligible(ms: set<nat>) {
    0 in ms && ms - {0} != {} && ms <= {0, 1, 2, 3}
  }

  lemma GoodMaskMeans(ms: set<nat>)
    ensures GoodMask(ms) <==> Eligible(ms)
  {
    if 0 in ms && ms != {0} {
      assert exists m :: m in ms && m != 0;
    }
  }

  /** The words when the next update has begun. */
  function Begun(w: Words, ms: set<nat>): Words {
    w.(gate := 1, members := ms, epoch := w.epoch + 1, history := w.history + [ms], pending := false,
      phase := Quiescing, active := true)
  }

  /** The sequential specification: the words after an undisturbed call. */
  function Spec(w: Words, c: nat, op: Op): (w': Words)
    requires SizedWords(w) && c < MAX_CPUS && !op.FinishMembership?
    ensures SizedWords(w')
  {
    match op
    case Admit(e) =>
      if Passes(w, c, e, Quiescing) && c != 0 && w.requested[c] < e then w.(requested := w.requested[c := e]) else w
    case Quiesce(e) =>
      if Passes(w, c, e, Quiescing) && (c == 0 || w.requested[c] == e) then w.(quiet := w.quiet[c := e]) else w
    case Synchronize(e) =>
      if Passes(w, c, e, Synchronizing) then w.(synced := w.synced[c := e]) else w
    case StartReplace(e) =>
      if Passes(w, c, e, Quiescing) && Unanimous(w, w.quiet) then w.(phase := Replacing, replaced := e) else w
    case Write(e, oldPa, newPa) =>
      if Passes(w, c, e, Replacing) && Unanimous(w, w.quiet) && w.leaf == Some(oldPa) && oldPa != newPa
      then w.(leaf := Some(newPa), tlb := NoCopies(), changes := w.changes + [Change(e, oldPa, newPa)])
      else w
    case Publish(e) =>
      if Passes(w, c, e, Replacing) then w.(phase := Synchronizing, published := e) else w
    case Finish(e) =>
      if Passes(w, c, e, Synchronizing) && Unanimous(w, w.synced)
      then w.(phase := Complete, done := e, active := false, gate := 0)
      else w
    case Reusable(_) => w
    case Begin(ms) =>
      if w.phase == Failed || !Eligible(ms) || w.gate != 0 then w
      else if (w.phase != Idle && w.phase != Complete) || w.epoch + 1 >= U64_LIMIT then w.(gate := 1, phase := Failed)
      else Begun(w, ms)
    case TryMembership => if w.phase != Failed && w.gate == 0 then w.(gate := 2) else w
    case Fail => w.(phase := Failed)
  }

  /** The answer of an undisturbed scan. */
  predicate Answer(w: Words, c: nat, op: Op)
    requires SizedWords(w)
  {
    match op
    case StartReplace(e) => Passes(w, c, e, Quiescing) && Unanimous(w, w.quiet)
    case Write(e, _, _) => Passes(w, c, e, Replacing) && Unanimous(w, w.quiet)
    case Finish(e) => Passes(w, c, e, Synchronizing) && Unanimous(w, w.synced)
    case Reusable(e) => 0 < e == w.epoch && w.phase == Complete && Unanimous(w, w.synced)
    case _ => false
  }

  /** The call has taken a membership change. */
  predicate Takes(w: Words, op: Op) {
    op.TryMembership? && w.phase != Failed && w.gate == 0
  }

  // One access after the other.

  lemma Load1(w: Words, c: nat, pc: Pc, pc': Pc, holds: bool)
    requires SizedWords(w) && WellPc(pc) && WellPc(pc') && c < MAX_CPUS && Loads(pc) && Load(w, c, pc) == pc'
    requires pc.AckMember? ==> pc.i < MAX_CPUS
    ensures Solo(w, c, pc, holds) == Solo(w, c, pc', holds)
  {
    hide Load;
  }

  lemma Store1(w: Words, c: nat, pc: Pc, w': Words, pc': Pc, holds: bool)
    requires SizedWords(w) && SizedWords(w') && WellPc(pc) && WellPc(pc') && c < MAX_CPUS
    requires !Loads(pc) && pc != Ready && !pc.TrySwap? && !pc.TryAgain? && Store(w, c, pc) == (w', pc')
    ensures Solo(w, c, pc, holds) == Solo(w', c, pc', holds)
  {
    hide Store;
  }

  lemma Returned(w: Words, c: nat, holds: bool)
    requires SizedWords(w) && c < MAX_CPUS
    ensures Solo(w, c, Ready, holds) == Outcome(w, holds, false)
  {
  }

  lemma CheckSolo(w: Words, c: nat, op: Op, holds: bool)
    requires SizedWords(w) && c < MAX_CPUS && Checked(op)
    ensures Solo(w, c, CheckFailed(op), holds)
         == if Passes(w, c, op.e, Need(op)) then Solo(w, c, AfterCheck(op), holds) else Outcome(w, holds, false)
  {
    hide Solo, AfterCheck;
    Returned(w, c, holds);
    if w.phase == Failed {
      Load1(w, c, CheckFailed(op), Ready, holds);
    } else {
      Load1(w, c, CheckFailed(op), CheckMember(op), holds);
      if c !in w.members {
        Load1(w, c, CheckMember(op), Ready, holds);
      } else {
        Load1(w, c, CheckMember(op), CheckEpoch(op), holds);
        CheckRest(w, c, op, holds);
      }
    }
  }

  lemma CheckRest(w: Words, c: nat, op: Op, holds: bool)
    requires SizedWords(w) && c < MAX_CPUS && Checked(op)
    ensures Solo(w, c, CheckEpoch(op), holds)
         == if 0 < op.e == w.epoch && w.phase == Need(op) && w.gate == 1 then Solo(w, c, AfterCheck(op), holds)
            else Outcome(w, holds, false)
  {
    hide Solo, AfterCheck;
    Returned(w, c, holds);
    if op.e == 0 || w.epoch != op.e {
      Load1(w, c, CheckEpoch(op), Ready, holds);
    } else {
      Load1(w, c, CheckEpoch(op), CheckPhase(op), holds);
      if w.phase != Need(op) {
        Load1(w, c, CheckPhase(op), Ready, holds);
      } else {
        Load1(w, c, CheckPhase(op), CheckGate(op), holds);
        GateLoad(w, c, op, holds);
      }
    }
  }

  lemma GateLoad(w: Words, c: nat, op: Op, holds: bool)
    requires SizedWords(w) && c < MAX_CPUS && Checked(op)
    ensures Solo(w, c, CheckGate(op), holds)
         == if w.gate == 1 then Solo(w, c, AfterCheck(op), holds) else Outcome(w, holds, false)
  {
    hide Solo;
    Returned(w, c, holds);
    Load1(w, c, CheckGate(op), Load(w, c, CheckGate(op)), holds);
  }

  predicate UnanimousFrom(w: Words, acks: seq<nat>, i: nat)
    requires |acks| == MAX_CPUS
  {
    forall k | i <= k < MAX_CPUS && k in w.members :: acks[k] == w.epoch
  }

  lemma {:induction false} ScanSolo(w: Words, c: nat, op: Op, i: nat, holds: bool)
    requires SizedWords(w) && c < MAX_CPUS && Scans(op) && i <= MAX_CPUS
    ensures Solo(w, c, AckMember(op, i), holds)
         == if UnanimousFrom(w, Acks(w, op), i) then Solo(w, c, AfterScan(op), holds).(yes := true)
            else Outcome(w, holds, false)
    decreases MAX_CPUS - i
  {
    hide Solo, AfterScan;
    Returned(w, c, holds);
    if i == MAX_CPUS {
      Scanned(w, c, op, holds);
    } else if i !in w.members {
      Load1(w, c, AckMember(op, i), AckMember(op, i + 1), holds);
      ScanSolo(w, c, op, i + 1, holds);
    } else {
      var ack := Acks(w, op)[i];
      Load1(w, c, AckMember(op, i), AckLoad(op, i), holds);
      Load1(w, c, AckLoad(op, i), AckEpoch(op, i, ack), holds);
      if ack == w.epoch {
        Load1(w, c, AckEpoch(op, i, ack), AckMember(op, i + 1), holds);
        ScanSolo(w, c, op, i + 1, holds);
      } else {
        Load1(w, c, AckEpoch(op, i, ack), Ready, holds);
      }
    }
  }

  lemma Scanned(w: Words, c: nat, op: Op, holds: bool)
    requires SizedWords(w) && c < MAX_CPUS && Scans(op)
    ensures Solo(w, c, AckMember(op, MAX_CPUS), holds) == Solo(w, c, AfterScan(op), holds).(yes := true)
  {
    hide AfterScan;
  }

  // Every operation.

  /** A last access that stores. */
  lemma LastStore(w: Words, c: nat, pc: Pc, w': Words, holds: bool)
    requires SizedWords(w) && SizedWords(w') && WellPc(pc) && c < MAX_CPUS
    requires !Loads(pc) && pc != Ready && !pc.TrySwap? && !pc.TryAgain? && Store(w, c, pc) == (w', Ready)
    ensures Solo(w, c, pc, holds) == Outcome(w', holds, false)
  {
    hide Solo, Store;
    Store1(w, c, pc, w', Ready, holds);
    Returned(w', c, holds);
  }

  lemma SoloAdmit(w: Words, c: nat, e: nat, holds: bool)
    requires SizedWords(w) && c < MAX_CPUS
    ensures Solo(w, c, AdmitLoad(e), holds)
         == Outcome(if c != 0 && w.requested[c] < e then w.(requested := w.requested[c := e]) else w, holds, false)
  {
    hide Solo;
    if c == 0 || w.requested[c] >= e {
      Load1(w, c, AdmitLoad(e), Ready, holds);
      Returned(w, c, holds);
    } else {
      Load1(w, c, AdmitLoad(e), AdmitSwap(e, w.requested[c]), holds);
      LastStore(w, c, AdmitSwap(e, w.requested[c]), w.(requested := w.requested[c := e]), holds);
    }
  }

  lemma SoloQuiesce(w: Words, c: nat, e: nat, holds: bool)
    requires SizedWords(w) && c < MAX_CPUS
    ensures Solo(w, c, QuiesceLoad(e), holds)
         == Outcome(if c == 0 || w.requested[c] == e then w.(quiet := w.quiet[c := e]) else w, holds, false)
  {
    hide Solo;
    if c != 0 && w.requested[c] != e {
      Load1(w, c, QuiesceLoad(e), Ready, holds);
      Returned(w, c, holds);
    } else {
      Load1(w, c, QuiesceLoad(e), QuiesceStore(e), holds);
      LastStore(w, c, QuiesceStore(e), w.(quiet := w.quiet[c := e]), holds);
    }
  }

  lemma SoloAck(w: Words, c: nat, op: Op, holds: bool)
    requires SizedWords(w) && c < MAX_CPUS && (op.Admit? || op.Quiesce? || op.Synchronize? || op.Publish?)
    ensures Solo(w, c, Entry(op), holds) == Outcome(Spec(w, c, op), holds, false)
  {
    hide Solo, Store;
    CheckSolo(w, c, op, holds);
    if Passes(w, c, op.e, Need(op)) {
      match op
      case Admit(e) => SoloAdmit(w, c, e, holds);
      case Quiesce(e) => SoloQuiesce(w, c, e, holds);
      case Synchronize(e) => SyncLast(w, c, e, holds);
      case Publish(e) => PublishLast(w, c, e, holds);
    }
  }

  lemma SyncLast(w: Words, c: nat, e: nat, holds: bool)
    requires SizedWords(w) && c < MAX_CPUS
    ensures Solo(w, c, SyncStore(e), holds) == Outcome(w.(synced := w.synced[c := e]), holds, false)
  {
    hide Solo;
    LastStore(w, c, SyncStore(e), w.(synced := w.synced[c := e]), holds);
  }

  lemma PublishLast(w: Words, c: nat, e: nat, holds: bool)
    requires SizedWords(w) && c < MAX_CPUS && w.phase == Replacing && w.epoch == e
    ensures Solo(w, c, PublishSwap(e), holds) == Outcome(w.(phase := Synchronizing, published := e), holds, false)
  {
    hide Solo;
    LastStore(w, c, PublishSwap(e), w.(phase := Synchronizing, published := e), holds);
  }

  lemma SoloScan(w: Words, c: nat, op: Op, holds: bool)
    requires SizedWords(w) && c < MAX_CPUS && (op.StartReplace? || op.Finish? || op.Write?)
    ensures Solo(w, c, Entry(op), holds) == Outcome(Spec(w, c, op), holds, Answer(w, c, op))
  {
    hide Solo, Store;
    CheckSolo(w, c, op, holds);
    ScanSolo(w, c, op, 0, holds);
    if Answer(w, c, op) {
      match op
      case StartReplace(e) => StartLast(w, c, e, holds);
      case Finish(e) => FinishLast(w, c, e, holds);
      case Write(_, _, _) => SoloReplace(w, c, op, holds);
    }
  }

  lemma StartLast(w: Words, c: nat, e: nat, holds: bool)
    requires SizedWords(w) && c < MAX_CPUS && w.phase == Quiescing && w.epoch == e
    ensures Solo(w, c, StartSwap(e), holds) == Outcome(w.(phase := Replacing, replaced := e), holds, false)
  {
    hide Solo;
    LastStore(w, c, StartSwap(e), w.(phase := Replacing, replaced := e), holds);
  }

  lemma FinishLast(w: Words, c: nat, e: nat, holds: bool)
    requires SizedWords(w) && c < MAX_CPUS && w.phase == Synchronizing && w.epoch == e
    ensures Solo(w, c, FinishSwap(e), holds)
         == Outcome(w.(phase := Complete, done := e, active := false, gate := 0), holds, false)
  {
    hide Solo;
    var mid := w.(phase := Complete, done := e, active := false);
    Store1(w, c, FinishSwap(e), mid, FinishOpen, holds);
    LastStore(mid, c, FinishOpen, mid.(gate := 0), holds);
  }

  lemma SoloReplace(w: Words, c: nat, op: Op, holds: bool)
    requires SizedWords(w) && c < MAX_CPUS && op.Write?
    ensures Solo(w, c, Break(op), holds)
         == Outcome(if w.leaf == Some(op.oldPa) && op.oldPa != op.newPa
                    then w.(leaf := Some(op.newPa), tlb := NoCopies(),
                            changes := w.changes + [Change(op.e, op.oldPa, op.newPa)])
                    else w, holds, false)
  {
    hide Solo, NoCopies;
    if w.leaf != Some(op.oldPa) || op.oldPa == op.newPa {
      LastStore(w, c, Break(op), w, holds);
    } else {
      var w1 := w.(leaf := None, changes := w.changes + [Change(op.e, op.oldPa, op.newPa)]);
      Store1(w, c, Break(op), w1, FlushBroken(op), holds);
      SoloMake(w1, c, op, holds);
    }
  }

  lemma SoloMake(w: Words, c: nat, op: Op, holds: bool)
    requires SizedWords(w) && c < MAX_CPUS && op.Write?
    ensures Solo(w, c, FlushBroken(op), holds)
         == Outcome(w.(leaf := Some(op.newPa), tlb := NoCopies()), holds, false)
  {
    hide Solo, NoCopies;
    var w1 := w.(tlb := NoCopies());
    var w2 := w1.(leaf := Some(op.newPa));
    Store1(w, c, FlushBroken(op), w1, Make(op), holds);
    Store1(w1, c, Make(op), w2, FlushMade(op), holds);
    LastStore(w2, c, FlushMade(op), w2, holds);
  }

  lemma SoloReusable(w: Words, c: nat, e: nat, holds: bool)
    requires SizedWords(w) && c < MAX_CPUS
    ensures Solo(w, c, ReuseEpoch(e), holds) == Outcome(w, holds, Answer(w, c, Reusable(e)))
  {
    hide Solo;
    Returned(w, c, holds);
    if e == 0 || w.epoch != e {
      Load1(w, c, ReuseEpoch(e), Ready, holds);
    } else {
      Load1(w, c, ReuseEpoch(e), ReusePhase(e), holds);
      if w.phase != Complete {
        Load1(w, c, ReusePhase(e), Ready, holds);
      } else {
        Load1(w, c, ReusePhase(e), AckMember(Reusable(e), 0), holds);
        ScanSolo(w, c, Reusable(e), 0, holds);
      }
    }
  }

  lemma SoloBegin(w: Words, c: nat, ms: set<nat>, holds: bool)
    requires SizedWords(w) && c < MAX_CPUS
    ensures Solo(w, c, BeginFailed(ms), holds) == Outcome(Spec(w, c, Begin(ms)), holds, false)
  {
    hide Solo, GoodMask, Eligible;
    GoodMaskMeans(ms);
    Returned(w, c, holds);
    if w.phase == Failed || !GoodMask(ms) {
      Load1(w, c, BeginFailed(ms), Ready, holds);
    } else {
      Load1(w, c, BeginFailed(ms), BeginGate(ms), holds);
      if w.gate != 0 {
        Store1(w, c, BeginGate(ms), w, Ready, holds);
      } else {
        var w1 := w.(gate := 1);
        Store1(w, c, BeginGate(ms), w1, BeginPhase(ms), holds);
        BeginLocked(w1, c, ms, holds);
      }
    }
  }

  lemma BeginLocked(w: Words, c: nat, ms: set<nat>, holds: bool)
    requires SizedWords(w) && c < MAX_CPUS && w.gate == 1 && w.phase != Failed
    ensures Solo(w, c, BeginPhase(ms), holds)
         == Outcome(if (w.phase == Idle || w.phase == Complete) && w.epoch + 1 < U64_LIMIT then Begun(w, ms)
                    else w.(phase := Failed), holds, false)
  {
    hide Solo, GoodMask;
    var failed := w.(phase := Failed);
    Store1(w, c, FailStore, failed, Ready, holds);
    Returned(failed, c, holds);
    if w.phase != Idle && w.phase != Complete {
      Load1(w, c, BeginPhase(ms), FailStore, holds);
    } else {
      var prior, at := w.phase, w.epoch;
      Load1(w, c, BeginPhase(ms), BeginEpoch(ms, prior), holds);
      if at + 1 >= U64_LIMIT {
        Load1(w, c, BeginEpoch(ms, prior), FailStore, holds);
      } else {
        Load1(w, c, BeginEpoch(ms, prior), BeginMembers(ms, prior, at), holds);
        BeginStores(w, c, ms, holds);
      }
    }
  }

  lemma BeginStores(w: Words, c: nat, ms: set<nat>, holds: bool)
    requires SizedWords(w) && c < MAX_CPUS && w.gate == 1
    ensures Solo(w, c, BeginMembers(ms, w.phase, w.epoch), holds) == Outcome(Begun(w, ms), holds, false)
  {
    hide Solo, GoodMask;
    var prior, at := w.phase, w.epoch;
    var w1 := w.(members := ms, pending := true);
    var w2 := w1.(epoch := at + 1, history := w.history + [ms], pending := false);
    Store1(w, c, BeginMembers(ms, prior, at), w1, BeginStore(ms, prior, at), holds);
    Store1(w1, c, BeginStore(ms, prior, at), w2, BeginSwap(prior), holds);
    BeginLast(w2, c, holds);
  }

  lemma BeginLast(w: Words, c: nat, holds: bool)
    requires SizedWords(w) && c < MAX_CPUS
    ensures Solo(w, c, BeginSwap(w.phase), holds) == Outcome(w.(phase := Quiescing, active := true), holds, false)
  {
    hide Solo;
    LastStore(w, c, BeginSwap(w.phase), w.(phase := Quiescing, active := true), holds);
  }

  lemma SoloTry(w: Words, c: nat, holds: bool)
    requires SizedWords(w) && c < MAX_CPUS
    ensures var takes := Takes(w, TryMembership);
            Solo(w, c, TryFailed, holds) == Outcome(if takes then w.(gate := 2) else w, holds || takes, false)
  {
    hide Solo, Store;
    Returned(w, c, holds);
    if w.phase == Failed {
      Load1(w, c, TryFailed, Ready, holds);
    } else {
      Load1(w, c, TryFailed, TrySwap, holds);
      SoloTake(w, c, holds);
    }
  }

  lemma SoloTake(w: Words, c: nat, holds: bool)
    requires SizedWords(w) && c < MAX_CPUS && w.phase != Failed
    ensures Solo(w, c, TrySwap, holds)
         == Outcome(if w.gate == 0 then w.(gate := 2) else w, holds || w.gate == 0, false)
  {
    hide Load, Store;
    var w1 := w.(gate := 2);
    assert Solo(w1, c, TryAgain, holds) == Solo(w1, c, Ready, true);
  }

  lemma SoloFail(w: Words, c: nat, holds: bool)
    requires SizedWords(w) && c < MAX_CPUS
    ensures Solo(w, c, FailStore, holds) == Outcome(w.(phase := Failed), holds, false)
  {
    hide Solo;
    LastStore(w, c, FailStore, w.(phase := Failed), holds);
  }

  /** Left alone, every call leaves the words its sequential specification gives, takes a membership
      change exactly if it is allowed, and finds all acknowledgements exactly if all members gave
      them: so `reusable(e)` answers yes if and only if `e` is the present epoch, it is complete and
      every member has synchronized at it. */
  lemma SoloTheorem(w: Words, c: nat, op: Op, holds: bool)
    requires SizedWords(w) && c < MAX_CPUS && !op.FinishMembership?
    ensures Solo(w, c, Entry(op), holds) == Outcome(Spec(w, c, op), holds || Takes(w, op), Answer(w, c, op))
  {
    hide Solo, Load, Store, Access;
    match op
    case Reusable(e) => SoloReusable(w, c, e, holds);
    case Begin(ms) => SoloBegin(w, c, ms, holds);
    case TryMembership => SoloTry(w, c, holds);
    case Fail => SoloFail(w, c, holds);
    case Write(_, _, _) => SoloScan(w, c, op, holds);
    case StartReplace(_) => SoloScan(w, c, op, holds);
    case Finish(_) => SoloScan(w, c, op, holds);
    case _ => SoloAck(w, c, op, holds);
  }
}
