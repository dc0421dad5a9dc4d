/** The channel works: each operation that is left alone does what its sequential specification says,
    and a submission can always be taken, acknowledged and retired, which leaves the slot free for
    the next one. */
module ManagementProgress {
  import opened Bits
  import opened Management
  import opened ManagementTheorems

  ghost predicate Leads(h: Channel, h': Channel) {
    exists evs :: Runs(h, evs) && After(h, evs) == h'
  }

  lemma {:induction false} RunsSnoc(h: Channel, evs: seq<Event>, ev: Event)
    requires Runs(h, evs) && Enabled(After(h, evs), ev)
    ensures Runs(h, evs + [ev]) && After(h, evs + [ev]) == Next(After(h, evs), ev)
    decreases |evs|
  {
    hide Next, Enabled;
    if evs == [] {
      assert evs + [ev] == [ev] && [ev][1..] == [];
      assert Runs(Next(h, ev), []) && After(Next(h, ev), []) == Next(h, ev);
    } else {
      RunsSnoc(Next(h, evs[0]), evs[1..], ev);
      assert (evs + [ev])[0] == evs[0] && (evs + [ev])[1..] == evs[1..] + [ev];
    }
  }

  lemma Start(h: Channel)
    ensures Leads(h, h)
  {
    assert Runs(h, []) && After(h, []) == h;
  }

  /** One more step. */
  lemma Go(h0: Channel, h: Channel, ev: Event) returns (h': Channel)
    requires Leads(h0, h) && Enabled(h, ev)
    ensures Leads(h0, h') && h' == Next(h, ev)
  {
    hide Next, Enabled;
    var evs :| Runs(h0, evs) && After(h0, evs) == h;
    RunsSnoc(h0, evs, ev);
    h' := Next(h, ev);
  }

  // Operations left alone.

  /** Who is in the middle of an operation. */
  datatype Party = SenderOf(c: nat) | Dispatcher | Poller(n: nat) | Executor(n: nat)

  predicate Present(h: Channel, p: Party) {
    match p
    case SenderOf(c) => c < |h.senders|
    case Dispatcher => Decodes(h.operation) || Rank(h, p) == 0 || (h.taker.LoadTaken? && h.taker.seen == h.taken)
    case Poller(n) => n in h.pendings
    case Executor(n) => n in h.requests
  }

  function Turn(p: Party): Event {
    match p
    case SenderOf(c) => Send(c)
    case Dispatcher => Dispatch
    case Poller(n) => TryResult(n)
    case Executor(n) => Complete(n)
  }

  function SenderRank(p: Sender): nat {
    match p
    case Idle => 0
    case Lock(_) => 7
    case LoadSequence(_) => 6
    case LoadRetired(_, _) => 5
    case StoreOperation(_, _) => 4
    case StoreArgument(_, _) => 3
    case StoreSequence(_, _) => 2
    case Unlock => 1
  }

  function TakerRank(t: Taker): nat {
    match t
    case Resting => 0
    case LoadTaken(_) => 4
    case SwapTaken(_, _) => 3
    case LoadOperation(_) => 2
    case LoadArgument(_, _) => 1
  }

  /** The accesses still to come at most; 0 between two operations. */
  function Rank(h: Channel, p: Party): nat {
    match p
    case SenderOf(c) => if c < |h.senders| then SenderRank(h.senders[c]) else 0
    case Dispatcher => TakerRank(h.taker)
    case Poller(n) =>
      if n !in h.pendings then 0
      else (match h.pendings[n] case LoadResult => 3 case LoadFailed(_) => 2 case Retire(_) => 1 case _ => 0)
    case Executor(n) =>
      if n !in h.requests then 0
      else (match h.requests[n].at case StoreResult(_) => 3 case StoreFailed(_) => 2 case StoreAck(_) => 1 case _ => 0)
  }

  lemma TurnRank(h: Channel, p: Party)
    requires Present(h, p) && Rank(h, p) > 0
    ensures Enabled(h, Turn(p)) && Present(Next(h, Turn(p)), p) && Rank(Next(h, Turn(p)), p) < Rank(h, p)
  {
  }

  /** The party finishes its operation, and nobody else does anything. */
  function Alone(h: Channel, p: Party): Channel
    requires Present(h, p)
    decreases Rank(h, p)
  {
    if Rank(h, p) == 0 then h
    else
      TurnRank(h, p);
      Alone(Next(h, Turn(p)), p)
  }

  lemma {:induction false} AloneLeads(h0: Channel, h: Channel, p: Party)
    requires Leads(h0, h) && Present(h, p)
    ensures Leads(h0, Alone(h, p))
    decreases Rank(h, p)
  {
    hide Leads, Rank, Present, Next;
    if Rank(h, p) > 0 {
      TurnRank(h, p);
      var h' := Go(h0, h, Turn(p));
      AloneLeads(h0, h', p);
    }
  }

  lemma One(h: Channel, p: Party, h': Channel)
    requires Present(h, p) && Rank(h, p) > 0 && Enabled(h, Turn(p)) && Next(h, Turn(p)) == h'
    ensures Present(h', p) && Alone(h, p) == Alone(h', p)
  {
    hide Rank, Present, Next;
    TurnRank(h, p);
  }

  /** Submission `m` is in the slot. */
  function Submitted(h: Channel, m: Message): Channel {
    h.(operation := m.op, argument := m.arg, sequence := h.sequence + 1, log := h.log + [m],
      pendings := h.pendings[h.sequence + 1 := Waiting])
  }

  /** `submit`: refused, without a trace, exactly if the lock is taken, the slot is in use or the
      counter is at its end. */
  lemma SubmitAlone(h: Channel, c: nat, m: Message)
    requires Enabled(h, Submit(c, m))
    ensures Present(Next(h, Submit(c, m)), SenderOf(c))
    ensures Alone(Next(h, Submit(c, m)), SenderOf(c))
         == if h.writer || h.sequence != h.retired || h.sequence + 1 >= U64_LIMIT then h else Submitted(h, m)
  {
    hide Alone;
    var p, h1 := SenderOf(c), h.(senders := h.senders[c := Lock(m)]);
    assert h.senders[c := Lock(m)][c := Idle] == h.senders;
    if h.writer {
      One(h1, p, h);
      Done(h, p);
    } else {
      var h2 := h.(writer := true, senders := h.senders[c := LoadSequence(m)]);
      assert h1.senders[c := LoadSequence(m)] == h2.senders;
      One(h1, p, h2);
      LockedAlone(h2, c, m);
      var last := h2.senders[c := Idle];
      assert last == h.senders;
    }
  }

  lemma Done(h: Channel, p: Party)
    requires Present(h, p) && Rank(h, p) == 0
    ensures Alone(h, p) == h
  {
  }

  /** Inside the section. */
  lemma LockedAlone(h: Channel, c: nat, m: Message)
    requires c < |h.senders| && h.senders[c] == LoadSequence(m)
    ensures var h' := h.(writer := false, senders := h.senders[c := Idle]);
            Alone(h, SenderOf(c))
              == if h.sequence != h.retired || h.sequence + 1 >= U64_LIMIT then h' else Submitted(h', m)
  {
    hide Alone;
    One(h, SenderOf(c), Put(h, c, LoadRetired(m, h.sequence)));
    DecideAlone(h, c, m);
  }

  lemma DecideAlone(h: Channel, c: nat, m: Message)
    requires c < |h.senders|
    ensures var h' := h.(writer := false, senders := h.senders[c := Idle]);
            Alone(Put(h, c, LoadRetired(m, h.sequence)), SenderOf(c))
              == if h.sequence != h.retired || h.sequence + 1 >= U64_LIMIT then h' else Submitted(h', m)
  {
    hide Alone;
    var h1 := Put(h, c, LoadRetired(m, h.sequence));
    if h.sequence != h.retired || h.sequence + 1 >= U64_LIMIT {
      One(h1, SenderOf(c), Put(h, c, Unlock));
      UnlockAlone(h, c);
    } else {
      One(h1, SenderOf(c), Put(h, c, StoreOperation(m, h.sequence)));
      StoreAlone(h, c, m);
    }
  }

  /** Sender `c` at position `s`. */
  function Put(h: Channel, c: nat, s: Sender): (h': Channel)
    requires c < |h.senders|
    ensures |h'.senders| == |h.senders| && h'.senders[c := Idle] == h.senders[c := Idle]
  {
    h.(senders := h.senders[c := s])
  }

  lemma UnlockAlone(h: Channel, c: nat)
    requires c < |h.senders|
    ensures Alone(Put(h, c, Unlock), SenderOf(c)) == h.(writer := false, senders := h.senders[c := Idle])
  {
    hide Alone;
    var h' := h.(writer := false, senders := h.senders[c := Idle]);
    One(Put(h, c, Unlock), SenderOf(c), h');
    Done(h', SenderOf(c));
  }

  lemma StoreAlone(h: Channel, c: nat, m: Message)
    requires c < |h.senders|
    ensures Alone(Put(h, c, StoreOperation(m, h.sequence)), SenderOf(c))
         == Submitted(h.(writer := false, senders := h.senders[c := Idle]), m)
  {
    hide Alone;
    var p, at := SenderOf(c), h.sequence;
    var h1 := h.(operation := m.op);
    var h2 := h1.(argument := m.arg);
    One(Put(h, c, StoreOperation(m, at)), p, Put(h1, c, StoreArgument(m, at)));
    One(Put(h1, c, StoreArgument(m, at)), p, Put(h2, c, StoreSequence(m, at)));
    One(Put(h2, c, StoreSequence(m, at)), p, Put(Submitted(h, m), c, Unlock));
    UnlockAlone(Submitted(h, m), c);
  }

  /** `take`: the next submission, if there is one, becomes a request with its message. */
  lemma TakeAlone(h: Channel)
    requires h.taker == Resting && (h.sequence != h.taken ==> Decodes(h.operation))
    ensures Present(Next(h, Take), Dispatcher)
    ensures Alone(Next(h, Take), Dispatcher)
         == if h.sequence == h.taken then h
            else h.(taken := h.sequence,
                    requests := h.requests[h.sequence := Request(Message(h.operation, h.argument), Held)])
  {
    hide Alone;
    var n := h.sequence;
    var h1 := h.(taker := LoadTaken(n));
    if n == h.taken {
      One(h1, Dispatcher, h);
      Done(h, Dispatcher);
    } else {
      var h2 := h.(taker := SwapTaken(n, h.taken));
      var h3 := h.(taken := n, taker := LoadOperation(n));
      var h4 := h.(taken := n, taker := LoadArgument(n, h.operation));
      var h5 := h.(taken := n, requests := h.requests[n := Request(Message(h.operation, h.argument), Held)]);
      One(h1, Dispatcher, h2);
      One(h2, Dispatcher, h3);
      One(h3, Dispatcher, h4);
      One(h4, Dispatcher, h5);
      Done(h5, Dispatcher);
    }
  }

  /** `acknowledge`: the reply is there, and the submission is acknowledged. */
  lemma AcknowledgeAlone(h: Channel, n: nat, reply: Reply)
    requires Enabled(h, Acknowledge(n, reply))
    ensures Present(Next(h, Acknowledge(n, reply)), Executor(n))
    ensures Alone(Next(h, Acknowledge(n, reply)), Executor(n))
         == h.(result := reply.value, failed := reply.failed, acked := n,
               requests := h.requests[n := h.requests[n].(at := Acked(reply))])
  {
    hide Alone;
    var p, m := Executor(n), h.requests[n].m;
    var h1 := h.(requests := h.requests[n := Request(m, StoreResult(reply))]);
    var h2 := h.(result := reply.value, requests := h.requests[n := Request(m, StoreFailed(reply))]);
    var h3 := h2.(failed := reply.failed, requests := h.requests[n := Request(m, StoreAck(reply))]);
    var h4 := h3.(acked := n, requests := h.requests[n := Request(m, Acked(reply))]);
    assert h1.requests[n := Request(m, StoreFailed(reply))] == h2.requests;
    assert h2.requests[n := Request(m, StoreAck(reply))] == h3.requests;
    assert h3.requests[n := Request(m, Acked(reply))] == h4.requests;
    One(h1, p, h2);
    One(h2, p, h3);
    One(h3, p, h4);
    Done(h4, p);
  }

  /** `try_result`: nothing happens before the acknowledgement; after it the reply is consumed and the
      slot is free. */
  lemma ResultAlone(h: Channel, n: nat)
    requires n in h.pendings && h.pendings[n] == Waiting
    ensures Present(Next(h, TryResult(n)), Poller(n))
    ensures Alone(Next(h, TryResult(n)), Poller(n))
         == if h.acked != n then h
            else h.(retired := n, pendings := h.pendings[n := Consumed(Reply(h.result, h.failed))])
  {
    hide Alone;
    var p := Poller(n);
    if h.acked != n {
      Done(h, p);
    } else {
      var h1 := h.(pendings := h.pendings[n := LoadResult]);
      var h2 := h.(pendings := h.pendings[n := LoadFailed(h.result)]);
      var h3 := h.(pendings := h.pendings[n := Retire(Reply(h.result, h.failed))]);
      var h4 := h.(retired := n, pendings := h.pendings[n := Consumed(Reply(h.result, h.failed))]);
      assert h1.pendings[n := LoadFailed(h.result)] == h2.pendings;
      assert h2.pendings[n := Retire(Reply(h.result, h.failed))] == h3.pendings;
      assert h3.pendings[n := Consumed(Reply(h.result, h.failed))] == h4.pendings;
      One(h1, p, h2);
      One(h2, p, h3);
      One(h3, p, h4);
      Done(h4, p);
    }
  }

  // Whole exchanges.

  lemma Do(h0: Channel, h: Channel, ev: Event, p: Party, h': Channel)
    requires Leads(h0, h) && Enabled(h, ev) && Present(Next(h, ev), p) && Alone(Next(h, ev), p) == h'
    ensures Leads(h0, h')
  {
    hide Leads, Present, Next, Alone, Enabled;
    var h1 := Go(h0, h, ev);
    AloneLeads(h0, h1, p);
  }

  /** Nobody is inside the channel and nothing is on its way. */
  ghost predicate Free(h: Channel) {
    && Inv(h) && (forall c | 0 <= c < |h.senders| :: h.senders[c] == Idle) && h.taker == Resting
    && h.sequence == h.retired
  }

  lemma FreeLock(h: Channel)
    requires Free(h)
    ensures !h.writer && h.taken == h.acked == h.sequence
  {
    hide Requests, Pendings, TakerOk;
  }

  /** The channel after message `m` was answered with `reply`. */
  function Answered(h: Channel, m: Message, reply: Reply): Channel {
    var n := h.sequence + 1;
    h.(operation := m.op, argument := m.arg, result := reply.value, failed := reply.failed,
      sequence := n, taken := n, acked := n, retired := n, log := h.log + [m],
      pendings := h.pendings[n := Consumed(reply)], requests := h.requests[n := Request(m, Acked(reply))])
  }

  /** From every free channel an undisturbed submission of any message, answered with any reply, leads
      back to a free channel: the request carried the message and the reply was consumed. */
  lemma Progress(h: Channel, c: nat, m: Message, reply: Reply)
    requires Free(h) && c < |h.senders| && h.sequence + 1 < U64_LIMIT
    ensures Leads(h, Answered(h, m, reply)) && Free(Answered(h, m, reply))
  {
    hide Leads, Alone, Inv, Next;
    var n := h.sequence + 1;
    FreeLock(h);
    Start(h);
    var h1 := Submitted(h, m);
    var h2 := h1.(taken := n, requests := h1.requests[n := Request(m, Held)]);
    var h3 := h2.(result := reply.value, failed := reply.failed, acked := n,
                  requests := h2.requests[n := Request(m, Acked(reply))]);
    var h4 := h3.(retired := n, pendings := h3.pendings[n := Consumed(reply)]);
    SubmitAlone(h, c, m);
    Do(h, h, Submit(c, m), SenderOf(c), h1);
    TakeAlone(h1);
    Do(h, h1, Take, Dispatcher, h2);
    AcknowledgeAlone(h2, n, reply);
    Do(h, h2, Acknowledge(n, reply), Executor(n), h3);
    ResultAlone(h3, n);
    Do(h, h3, TryResult(n), Poller(n), h4);
    assert h4.pendings == h.pendings[n := Consumed(reply)];
    assert h4.requests == h.requests[n := Request(m, Acked(reply))];
    LeadsInv(h, h4);
  }

  lemma LeadsInv(h: Channel, h': Channel)
    requires Inv(h) && Leads(h, h')
    ensures Inv(h')
  {
    hide Inv;
    var evs :| Runs(h, evs) && After(h, evs) == h';
    RunInv(h, evs);
  }

  /** Submission `n` carried `m`, and its sender consumed `reply`. */
  predicate Served(h: Channel, n: nat, m: Message, reply: Reply) {
    && n in h.pendings && h.pendings[n] == Consumed(reply)
    && n in h.requests && h.requests[n] == Request(m, Acked(reply))
  }

  /** From every free channel any number of submissions succeed one after the other, up to the end of
      the counter. */
  lemma {:induction false} ManyFrom(h: Channel, c: nat, ms: seq<Message>, replies: seq<Reply>) returns (h': Channel)
    requires Free(h) && c < |h.senders| && |replies| == |ms| && h.sequence + |ms| < U64_LIMIT
    ensures Leads(h, h') && Free(h') && h'.log == h.log + ms && h'.senders == h.senders
    ensures h'.sequence == h.sequence + |ms|
    ensures forall k | 0 <= k < |ms| :: Served(h', h.sequence + k + 1, ms[k], replies[k])
    decreases |ms|
  {
    hide Leads, Inv;
    if ms == [] {
      Start(h);
      h' := h;
    } else {
      var last := |ms| - 1;
      var before := ManyFrom(h, c, ms[..last], replies[..last]);
      OneMore(h, before, c, ms[last], replies[last]);
      h' := Answered(before, ms[last], replies[last]);
      assert ms == ms[..last] + [ms[last]];
      forall k | 0 <= k < |ms|
        ensures Served(h', h.sequence + k + 1, ms[k], replies[k])
      {
        if k < last {
          assert Served(before, h.sequence + k + 1, ms[..last][k], replies[..last][k]);
        }
      }
    }
  }

  /** So after every run that left no sender inside `submit`, no dispatcher inside `take` and nothing on
      its way, any number of submissions succeed, up to the end of the counter. */
  lemma ManySucceed(senders: nat, evs: seq<Event>, c: nat, ms: seq<Message>, replies: seq<Reply>) returns (h': Channel)
    requires Runs(New(senders), evs) && c < |After(New(senders), evs).senders|
    requires var h := After(New(senders), evs);
             && (forall d | 0 <= d < |h.senders| :: h.senders[d] == Idle) && h.taker == Resting
             && h.sequence == h.retired && |replies| == |ms| && h.sequence + |ms| < U64_LIMIT
    ensures var h := After(New(senders), evs);
            && Leads(h, h') && h'.log == h.log + ms && h'.retired == h.sequence + |ms|
            && forall k | 0 <= k < |ms| :: Served(h', h.sequence + k + 1, ms[k], replies[k])
  {
    hide Leads, Inv;
    NewInv(senders);
    RunInv(New(senders), evs);
    h' := ManyFrom(After(New(senders), evs), c, ms, replies);
  }

  lemma OneMore(h0: Channel, h: Channel, c: nat, m: Message, reply: Reply)
    requires Leads(h0, h) && Free(h) && c < |h.senders| && h.sequence + 1 < U64_LIMIT
    ensures Leads(h0, Answered(h, m, reply)) && Free(Answered(h, m, reply))
  {
    hide Leads, Inv;
    Progress(h, c, m, reply);
    Join(h0, h, Answered(h, m, reply));
  }

  lemma Join(a: Channel, b: Channel, c: Channel)
    requires Leads(a, b) && Leads(b, c)
    ensures Leads(a, c)
  {
    var x :| Runs(a, x) && After(a, x) == b;
    var y :| Runs(b, y) && After(b, y) == c;
    RunsConcat(a, x, y);
  }

  lemma {:induction false} RunsConcat(h: Channel, a: seq<Event>, b: seq<Event>)
    requires Runs(h, a) && Runs(After(h, a), b)
    ensures Runs(h, a + b) && After(h, a + b) == After(After(h, a), b)
    decreases |a|
  {
    hide Next, Enabled;
    if a == [] {
      assert a + b == b;
    } else {
      RunsConcat(Next(h, a[0]), a[1..], b);
      assert (a + b)[0] == a[0] && (a + b)[1..] == a[1..] + b;
    }
  }
}
