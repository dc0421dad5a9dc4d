/** When the startup can succeed: exactly for a nonempty set of listed secondaries, if every listed
    release cell is zero, also of the CPUs that are not started. With luck on its side it then
    prepares, releases and verifies them one after another. */
module SecondaryProgress {
  import opened SecondaryBoot
  import opened SecondarySafety

  ghost predicate Leads(b: Boot, b': Boot) {
    Shape(b) && exists evs :: Runs(b, evs) && After(b, evs) == b'
  }

  lemma {:induction false} RunsSnoc(b: Boot, evs: seq<Event>, ev: Event)
    requires Shape(b) && Runs(b, evs) && Enabled(After(b, evs), ev)
    ensures Runs(b, evs + [ev]) && After(b, evs + [ev]) == Next(After(b, evs), ev)
    decreases |evs|
  {
    hide Next, Enabled;
    if evs == [] {
      assert evs + [ev] == [ev] && [ev][1..] == [];
      assert Runs(Next(b, ev), []) && After(Next(b, ev), []) == Next(b, ev);
    } else {
      RunsSnoc(Next(b, evs[0]), evs[1..], ev);
      assert (evs + [ev])[0] == evs[0] && (evs + [ev])[1..] == evs[1..] + [ev];
    }
  }

  lemma Start(b: Boot)
    requires Shape(b)
    ensures Leads(b, b)
  {
    assert Runs(b, []) && After(b, []) == b;
  }

  /** One more step. */
  lemma Go(b0: Boot, b: Boot, ev: Event)
    requires Leads(b0, b) && Shape(b) && Enabled(b, ev)
    ensures Leads(b0, Next(b, ev))
  {
    hide Next, Enabled;
    var evs :| Runs(b0, evs) && After(b0, evs) == b;
    RunsSnoc(b0, evs, ev);
  }

  const GOOD := Luck(true, false, false)

  /** CPU 0 takes one more step and what it tries works. */
  lemma Lucky(b0: Boot, b: Boot) returns (b': Boot)
    requires Leads(b0, b) && Shape(b) && b.pc != Resting && OwnId(b.pc)
    ensures Leads(b0, b') && Shape(b') && b' == Run(b, GOOD)
  {
    hide Run;
    Go(b0, b, Step(GOOD));
    b' := Run(b, GOOD);
  }

  // One CPU after the other.

  /** What a CPU's mailbox and cell go through. */
  function Untouched(): Cpu { Cpu(Offline, 0, false, 0, 0, 0, 0) }

  function Published(g: nat): Cpu { Cpu(Prepared, g, false, 0, 0, 0, 0) }

  function Entering(g: nat, cell: nat): Cpu { Cpu(Starting, g, false, 0, 0, 0, cell) }

  function AtRest(g: nat): Cpu { Cpu(Parked, g, true, 0, 0, 0, ENTRY) }

  /** Required CPUs before `id` are as `below` says, the others as `above` says. */
  predicate Split(b: Boot, id: nat, below: Cpu, above: Cpu)
    requires Shape(b)
  {
    forall j | j in b.required :: b.cpus[j] == if j < id then below else above
  }

  /** Only the procedure's place, its log and CPU `id` changed. */
  predicate Moved(b: Boot, b': Boot, id: nat, c: Cpu, pc: Pc)
    requires Shape(b) && id < MAX_CPUS
  {
    b' == b.(cpus := b.cpus[id := c], pc := pc, log := b'.log)
  }

  lemma NextSplit(b: Boot, b': Boot, id: nat, below: Cpu, above: Cpu)
    requires Shape(b) && Shape(b') && b'.required == b.required && id < MAX_CPUS
    requires Split(b, id, below, above)
    requires if id in b.required then b'.cpus == b.cpus[id := below] else b'.cpus == b.cpus
    ensures Split(b', id + 1, below, above)
  {
  }

  lemma PrepareOne(b0: Boot, b: Boot, id: nat) returns (b': Boot)
    requires Leads(b0, b) && Shape(b) && id < MAX_CPUS && b.pc == PrepareCpu(id) && b.cpus[id] == Untouched()
    requires b.generation != 0 && id in b.listed
    ensures Leads(b0, b') && Shape(b') && Moved(b, b', id, Published(b.generation), PrepareFrom(b.required, id + 1))
    ensures b'.log == b.log && forall j | 0 <= j < MAX_CPUS :: b'.cpus[j].cell == b.cpus[j].cell
  {
    hide Leads, NextId, ReleaseStep, WaitStep, VerifyStep;
    b' := Lucky(b0, b);
    b' := Lucky(b0, b');
  }

  lemma {:induction false} PrepareAll(b0: Boot, b: Boot, id: nat) returns (b': Boot)
    requires Leads(b0, b) && Shape(b) && 1 <= id <= MAX_CPUS && b.generation != 0 && b.required <= b.listed
    requires b.pc == PrepareFrom(b.required, id) && Split(b, id, Published(b.generation), Untouched())
    ensures Leads(b0, b') && Shape(b') && b' == b.(cpus := b'.cpus, pc := PublishAll)
    ensures Split(b', MAX_CPUS, Published(b.generation), Untouched())
    ensures forall j | 0 <= j < MAX_CPUS :: b'.cpus[j].cell == b.cpus[j].cell
    decreases MAX_CPUS - id
  {
    hide Leads, Split, Published, Untouched;
    b' := b;
    if id < MAX_CPUS {
      if id in b.required {
        assert b.cpus[id] == Untouched() by { SplitAt(b, id, id, Published(b.generation), Untouched()); }
        b' := PrepareOne(b0, b, id);
      }
      NextSplit(b, b', id, Published(b.generation), Untouched());
      b' := PrepareAll(b0, b', id + 1);
    }
  }

  lemma SplitAt(b: Boot, id: nat, j: nat, below: Cpu, above: Cpu)
    requires Shape(b) && Split(b, id, below, above) && j in b.required
    ensures b.cpus[j] == if j < id then below else above
  {
  }

  /** Before the first release every listed cell is zero. */
  lemma PublishedExpected(b: Boot)
    requires Shape(b) && b.attempted == {} && forall j | j in b.listed :: b.cpus[j].cell == 0
    ensures AsExpected(b)
  {
  }

  lemma PublishEverything(b0: Boot, b: Boot) returns (b': Boot)
    requires Leads(b0, b) && Shape(b) && b.pc == PublishAll && b.status == Preparing
    ensures Leads(b0, b') && Shape(b')
    ensures b' == b.(status := Releasing, pc := ReleaseFrom(b.required, 1), log := b'.log)
  {
    hide Leads, NextId, ReleaseStep, WaitStep, VerifyStep;
    b' := Lucky(b0, b);
    b' := Lucky(b0, b');
  }

  /** The release procedure up to the Starting transition. */
  lemma Begin(b0: Boot, b: Boot, id: nat) returns (b': Boot)
    requires Leads(b0, b) && Shape(b) && id < MAX_CPUS && b.pc == CheckFatal(id) && id !in b.attempted
    requires b.generation != 0 && b.cpus[id] == Published(b.generation)
    ensures Leads(b0, b') && Shape(b') && Moved(b, b', id, Entering(b.generation, 0), Barrier(id))
  {
    hide Leads, NextId, PrepareStep, WaitStep, VerifyStep;
    b' := Check(b0, b, id);
    b' := Lucky(b0, b');
    b' := Lucky(b0, b');
  }

  lemma Check(b0: Boot, b: Boot, id: nat) returns (b': Boot)
    requires Leads(b0, b) && Shape(b) && id < MAX_CPUS && b.pc == CheckFatal(id) && id !in b.attempted
    requires b.generation != 0 && b.cpus[id] == Published(b.generation)
    ensures Leads(b0, b') && Shape(b') && b' == b.(pc := FirstRead(id))
  {
    hide Leads, NextId, PrepareStep, WaitStep, VerifyStep;
    b' := Lucky(b0, b);
    b' := Lucky(b0, b');
    b' := Lucky(b0, b');
  }

  /** Up to the store. */
  lemma Release(b0: Boot, b: Boot, id: nat) returns (b': Boot)
    requires Leads(b0, b) && Shape(b) && id < MAX_CPUS && b.pc == Barrier(id) && id !in b.attempted
    requires b.cpus[id] == Entering(b.generation, 0)
    ensures Leads(b0, b') && Shape(b') && b'.attempted == b.attempted + {id}
    ensures Moved(b.(attempted := b'.attempted), b', id, Entering(b.generation, ENTRY), CleanLine(id))
  {
    hide Leads, NextId, PrepareStep, WaitStep, VerifyStep;
    b' := Lucky(b0, b);
    b' := Lucky(b0, b');
    b' := Lucky(b0, b');
    b' := Lucky(b0, b');
  }

  /** The CPU enters, claims and parks while CPU 0 finishes the release. */
  lemma Enter(b0: Boot, b: Boot, id: nat) returns (b': Boot)
    requires Leads(b0, b) && Shape(b) && id < MAX_CPUS && b.pc == CleanLine(id) && b.generation != 0
    requires b.cpus[id] == Entering(b.generation, ENTRY)
    ensures Leads(b0, b') && Shape(b') && Moved(b, b', id, AtRest(b.generation), PollState(id))
  {
    hide Leads, NextId, PrepareStep, WaitStep, VerifyStep;
    b' := Lucky(b0, b);
    b' := Lucky(b0, b');
    b' := Lucky(b0, b');
    b' := Arrival(b0, b', id);
  }

  lemma Arrival(b0: Boot, b: Boot, id: nat) returns (b': Boot)
    requires Leads(b0, b) && Shape(b) && id < MAX_CPUS && b.generation != 0
    requires b.cpus[id] == Entering(b.generation, ENTRY)
    ensures Leads(b0, b') && Shape(b') && Moved(b, b', id, AtRest(b.generation), b.pc)
  {
    hide Leads, Run;
    Go(b0, b, Arrive(id, b.generation));
    b' := Next(b, Arrive(id, b.generation));
    Go(b0, b', Claim(id));
    b' := Next(b', Claim(id));
    Go(b0, b', Park(id));
    b' := Next(b', Park(id));
  }

  /** Every listed cell holds what the readback demands. */
  predicate AsExpected(b: Boot)
    requires Shape(b)
  {
    forall j | j in b.listed :: b.cpus[j].cell == Expected(b, j)
  }

  lemma Wait(b0: Boot, b: Boot, id: nat) returns (b': Boot)
    requires Leads(b0, b) && Shape(b) && id < MAX_CPUS && b.pc == PollState(id) && b.generation != 0
    requires b.cpus[id] == AtRest(b.generation)
    ensures Leads(b0, b') && Shape(b') && b' == b.(pc := ReadFrom(b.required, b.listed, id, 0))
  {
    hide Leads, NextId, PrepareStep, ReleaseStep, VerifyStep;
    b' := Lucky(b0, b);
    b' := Lucky(b0, b');
    b' := Lucky(b0, b');
  }

  /** One listed cell after the other is read back. */
  lemma {:induction false} ReadAll(b0: Boot, b: Boot, id: nat, at: nat) returns (b': Boot)
    requires Leads(b0, b) && Shape(b) && id < MAX_CPUS && at <= MAX_CPUS && AsExpected(b)
    requires b.pc == ReadFrom(b.required, b.listed, id, at)
    ensures Leads(b0, b') && Shape(b') && b' == b.(pc := ReleaseFrom(b.required, id + 1), log := b'.log)
    decreases MAX_CPUS - at
  {
    hide Leads, AsExpected;
    b' := b;
    if at < MAX_CPUS {
      if at in b.listed {
        b' := ReadOneCell(b0, b, id, at);
        SameCells(b, b');
      }
      b' := ReadAll(b0, b', id, at + 1);
    }
  }

  lemma SameCells(b: Boot, b': Boot)
    requires Shape(b) && AsExpected(b) && b' == b.(pc := b'.pc, log := b'.log)
    ensures AsExpected(b')
  {
  }

  lemma ReadOneCell(b0: Boot, b: Boot, id: nat, at: nat) returns (b': Boot)
    requires Leads(b0, b) && Shape(b) && id < MAX_CPUS && at < MAX_CPUS && AsExpected(b) && at in b.listed
    requires b.pc == Readback(id, at)
    ensures Leads(b0, b') && Shape(b')
    ensures b' == b.(pc := ReadFrom(b.required, b.listed, id, at + 1), log := b'.log)
  {
    hide Leads, NextId, PrepareStep, ReleaseStep, VerifyStep;
    b' := Lucky(b0, b);
  }

  lemma ReleaseOne(b0: Boot, b: Boot, id: nat) returns (b': Boot)
    requires Leads(b0, b) && Shape(b) && id < MAX_CPUS && b.pc == CheckFatal(id) && id !in b.attempted
    requires b.generation != 0 && b.cpus[id] == Published(b.generation) && AsExpected(b)
    ensures Leads(b0, b') && Shape(b') && b'.attempted == b.attempted + {id} && AsExpected(b')
    ensures Moved(b.(attempted := b'.attempted), b', id, AtRest(b.generation), ReleaseFrom(b.required, id + 1))
  {
    hide Leads, NextId, Run, Published, Entering, AtRest, AsExpected;
    b' := Begin(b0, b, id);
    b' := Release(b0, b', id);
    b' := Enter(b0, b', id);
    NowExpected(b, b', id);
    b' := Wait(b0, b', id);
    SameCells(b'.(pc := PollState(id)), b');
    var b1 := b';
    b' := ReadAll(b0, b', id, 0);
    SameCells(b1, b');
  }

  lemma NowExpected(b: Boot, b': Boot, id: nat)
    requires Shape(b) && Shape(b') && AsExpected(b) && id < MAX_CPUS && b'.attempted == b.attempted + {id}
    requires b'.listed == b.listed && b'.cpus == b.cpus[id := AtRest(b.generation)]
    ensures AsExpected(b')
  {
  }

  /** Exactly the required CPUs before `id` have been attempted. */
  predicate AttemptedBelow(b: Boot, id: nat) {
    b.attempted <= b.required && forall j | j in b.required :: j in b.attempted <==> j < id
  }

  lemma {:induction false} ReleaseAll(b0: Boot, b: Boot, id: nat) returns (b': Boot)
    requires Leads(b0, b) && Shape(b) && 1 <= id <= MAX_CPUS && b.generation != 0
    requires AttemptedBelow(b, id) && AsExpected(b)
    requires b.pc == ReleaseFrom(b.required, id) && Split(b, id, AtRest(b.generation), Published(b.generation))
    ensures Leads(b0, b') && Shape(b') && Split(b', MAX_CPUS, AtRest(b.generation), Published(b.generation))
    ensures b' == b.(cpus := b'.cpus, pc := VerifyMask, attempted := b.required, log := b'.log)
    decreases MAX_CPUS - id
  {
    hide Leads, Split, Published, AtRest, AsExpected;
    b' := b;
    if id < MAX_CPUS {
      if id in b.required {
        SplitAt(b, id, id, AtRest(b.generation), Published(b.generation));
        b' := ReleaseOne(b0, b, id);
      }
      NextSplit(b, b', id, AtRest(b.generation), Published(b.generation));
      b' := ReleaseAll(b0, b', id + 1);
    }
  }

  lemma BeginVerify(b0: Boot, b: Boot) returns (b': Boot)
    requires Leads(b0, b) && Shape(b) && b.pc == VerifyMask && b.required == b.attempted != {} && b.status == Releasing
    ensures Leads(b0, b') && Shape(b') && b' == b.(pc := VerifyFrom(b.required, 1))
  {
    hide Leads, NextId, PrepareStep, ReleaseStep, WaitStep;
    b' := Lucky(b0, b);
    b' := Lucky(b0, b');
  }

  lemma See(b0: Boot, b: Boot, id: nat) returns (b': Boot)
    requires Leads(b0, b) && Shape(b) && id < MAX_CPUS && b.pc == VerifyCpu(id) && b.generation != 0
    requires b.cpus[id] == AtRest(b.generation)
    ensures Leads(b0, b') && Shape(b') && b' == b.(pc := VerifyFrom(b.required, id + 1), log := b'.log)
  {
    hide Leads, NextId, PrepareStep, ReleaseStep, WaitStep;
    b' := Lucky(b0, b);
    b' := Lucky(b0, b');
  }

  lemma {:induction false} SeeAll(b0: Boot, b: Boot, id: nat) returns (b': Boot)
    requires Leads(b0, b) && Shape(b) && 1 <= id <= MAX_CPUS && b.pc == VerifyFrom(b.required, id) && b.generation != 0
    requires forall j | j in b.required :: b.cpus[j] == AtRest(b.generation)
    ensures Leads(b0, b') && Shape(b') && b' == b.(pc := Finalize(Fine), log := b'.log)
    decreases MAX_CPUS - id
  {
    hide Leads, AtRest;
    b' := b;
    if id < MAX_CPUS {
      if id in b.required {
        b' := See(b0, b, id);
      }
      b' := SeeAll(b0, b', id + 1);
    }
  }

  lemma Finish(b0: Boot, b: Boot) returns (b': Boot)
    requires Leads(b0, b) && Shape(b) && b.pc == Finalize(Fine) && b.status == Releasing
    ensures Leads(b0, b') && b' == b.(pc := Resting, status := Ready)
  {
    hide Leads, NextId, PrepareStep, ReleaseStep, WaitStep;
    b' := Lucky(b0, b);
    b' := Lucky(b0, b');
  }

  /** Some run of boot on this platform authorizes the guest with this set and generation. */
  ghost predicate CanSucceed(cells: seq<nat>, listed: set<nat>, required: set<nat>, generation: nat)
    requires Platform(cells, listed)
  {
    exists evs ::
      && Runs(New(cells, listed), evs) && GuestAuthorized(After(New(cells, listed), evs), false)
      && After(New(cells, listed), evs).required == required
      && After(New(cells, listed), evs).generation == generation
  }

  lemma ZeroCellsSucceed(cells: seq<nat>, listed: set<nat>, required: set<nat>, generation: nat)
    requires Platform(cells, listed) && required <= listed && 0 !in required
    requires required != {} && generation != 0 && forall id | id in listed :: cells[id] == 0
    ensures CanSucceed(cells, listed, required, generation)
  {
    hide Leads, Run;
    var b0 := New(cells, listed);
    Start(b0);
    Go(b0, b0, StartAll(required, generation));
    var b := Next(b0, StartAll(required, generation));
    assert forall j | j in listed :: b.cpus[j].cell == 0;
    hide Next, Enabled, New, NextId;
    b := PrepareAll(b0, b, 1);
    b := PublishEverything(b0, b);
    PublishedExpected(b);
    b := ReleaseAll(b0, b, 1);
    b := BeginVerify(b0, b);
    b := SeeAll(b0, b, 1);
    b := Finish(b0, b);
    Witness(cells, listed, b);
  }

  lemma Witness(cells: seq<nat>, listed: set<nat>, b: Boot)
    requires Platform(cells, listed) && Leads(New(cells, listed), b) && b.status == Ready
    ensures CanSucceed(cells, listed, b.required, b.generation)
  {
    hide New, Shape;
    var evs :| Runs(New(cells, listed), evs) && After(New(cells, listed), evs) == b;
  }

  lemma SuccessNeedsZeroCells(cells: seq<nat>, listed: set<nat>, evs: seq<Event>)
    requires Platform(cells, listed) && Runs(New(cells, listed), evs)
    requires GuestAuthorized(After(New(cells, listed), evs), false)
    ensures var b := After(New(cells, listed), evs);
            && b.required != {} && b.required <= listed && b.generation != 0
            && forall id | id in listed :: cells[id] == 0
  {
    hide Next, Enabled, New, Verified;
    Authorization(cells, listed, evs, false);
    AuthorizedCells(cells, listed, evs, false);
    var b := After(New(cells, listed), evs);
    var id :| id in b.required;
    assert ObservesReady(b.cpus[id], b.generation);
  }

  /** Boot can authorize the guest exactly for a nonempty set of listed secondaries in a nonzero
      generation, if every listed release cell is zero, also those of CPUs that are not started. */
  lemma SucceedsIff(cells: seq<nat>, listed: set<nat>, required: set<nat>, generation: nat)
    requires Platform(cells, listed) && forall id | id in required :: 0 < id < MAX_CPUS
    ensures CanSucceed(cells, listed, required, generation)
       <==> && required != {} && required <= listed && generation != 0
            && forall id | id in listed :: cells[id] == 0
  {
    hide Next, Enabled, New;
    if required != {} && required <= listed && generation != 0 && forall id | id in listed :: cells[id] == 0 {
      ZeroCellsSucceed(cells, listed, required, generation);
    }
    forall evs | Runs(New(cells, listed), evs) && GuestAuthorized(After(New(cells, listed), evs), false)
      ensures var b := After(New(cells, listed), evs);
              && b.required != {} && b.required <= listed && b.generation != 0
              && forall id | id in listed :: cells[id] == 0
    {
      SuccessNeedsZeroCells(cells, listed, evs);
    }
  }
}
