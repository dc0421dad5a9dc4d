/** The promises of the management channel, over every interleaving. */
module ManagementTheorems {
  import opened Management

  predicate Runs(h: Channel, evs: seq<Event>)
    decreases |evs|
  {
    evs == [] || (Enabled(h, evs[0]) && Runs(Next(h, evs[0]), evs[1..]))
  }

  function After(h: Channel, evs: seq<Event>): Channel
    requires Runs(h, evs)
    decreases |evs|
  {
    if evs == [] then h else After(Next(h, evs[0]), evs[1..])
  }

  lemma {:induction false} RunInv(h: Channel, evs: seq<Event>)
    requires Inv(h) && Runs(h, evs)
    ensures Inv(After(h, evs))
    decreases |evs|
  {
    hide Inv, Enabled, Next;
    if evs != [] {
      StepInv(h, evs[0]);
      RunInv(Next(h, evs[0]), evs[1..]);
    }
  }

  /** Every state of every run keeps the words in order, a consumed reply is the one given to the
      request that carried the message of that submission, and the writer lock is held exactly while
      a sender, and only one, is inside the section it protects. */
  lemma EveryRun(senders: nat, evs: seq<Event>)
    requires Runs(New(senders), evs)
    ensures var h := After(New(senders), evs);
            && h.retired <= h.acked <= h.taken <= h.sequence <= h.retired + 1
            && |h.log| == h.sequence
            && (forall n | n in h.requests :: 1 <= n <= h.sequence && h.requests[n].m == h.log[n - 1])
            && (forall n | n in h.pendings && h.pendings[n].Consumed? ::
                  n in h.requests && h.requests[n].at == Acked(h.pendings[n].reply))
            && (h.taker.LoadOperation? ==> Decodes(h.operation))
            && (h.writer <==> exists c | 0 <= c < |h.senders| :: Locked(h.senders[c]))
            && (forall c, d | 0 <= c < d < |h.senders| :: !(Locked(h.senders[c]) && Locked(h.senders[d])))
  {
    NewInv(senders);
    RunInv(New(senders), evs);
    Promises(After(New(senders), evs));
  }

  lemma Promises(h: Channel)
    requires Inv(h)
    ensures forall n | n in h.requests :: 1 <= n <= h.sequence && h.requests[n].m == h.log[n - 1]
    ensures forall n | n in h.pendings && h.pendings[n].Consumed? ::
              n in h.requests && h.requests[n].at == Acked(h.pendings[n].reply)
    ensures h.taker.LoadOperation? ==> Decodes(h.operation)
  {
    hide Senders;
    forall n | n in h.pendings && h.pendings[n].Consumed?
      ensures n in h.requests && h.requests[n].at == Acked(h.pendings[n].reply)
    {
      PendingAt(h, n);
    }
  }

  // Exactly once.

  /** The step hands request `n` to its executor. */
  predicate HandsOut(h: Channel, ev: Event, n: nat) {
    ev.Dispatch? && h.taker.LoadArgument? && h.taker.n == n
  }

  function HandOuts(h: Channel, evs: seq<Event>, n: nat): nat
    requires Runs(h, evs)
    decreases |evs|
  {
    if evs == [] then 0
    else (if HandsOut(h, evs[0], n) then 1 else 0) + HandOuts(Next(h, evs[0]), evs[1..], n)
  }

  lemma HandOutKeys(h: Channel, ev: Event, n: nat)
    requires Enabled(h, ev)
    ensures n in Next(h, ev).requests <==> n in h.requests || HandsOut(h, ev, n)
  {
    if ev.Dispatch? {
      assert HandsOut(h, ev, n) ==> n in Dispatch1(h).requests;
    }
  }

  lemma HandOutFresh(h: Channel, ev: Event, n: nat)
    requires Inv(h) && HandsOut(h, ev, n)
    ensures n !in h.requests
  {
    hide Senders, Pendings;
  }

  /** No run hands a submission out twice. */
  lemma {:induction false} ExactlyOnce(h: Channel, evs: seq<Event>, n: nat)
    requires Inv(h) && Runs(h, evs)
    ensures HandOuts(h, evs, n) <= 1
    ensures n in h.requests ==> HandOuts(h, evs, n) == 0
    ensures n in After(h, evs).requests <==> n in h.requests || HandOuts(h, evs, n) == 1
    decreases |evs|
  {
    hide Inv, Enabled, Next;
    if evs != [] {
      StepInv(h, evs[0]);
      HandOutKeys(h, evs[0], n);
      if HandsOut(h, evs[0], n) {
        HandOutFresh(h, evs[0], n);
      }
      ExactlyOnce(Next(h, evs[0]), evs[1..], n);
    }
  }

  // Dropped objects.

  /** Submission `n` is outstanding. */
  predicate Outstanding(h: Channel, n: nat) {
    h.sequence == n == h.retired + 1
  }

  lemma OutstandingStep(h: Channel, ev: Event, n: nat)
    requires Inv(h) && Enabled(h, ev) && Outstanding(h, n) && ev != TryResult(n)
    ensures Outstanding(Next(h, ev), n) && Next(h, ev).log == h.log
  {
    hide Requests, Senders, Pendings;
    if ev.Send? {
      SenderAt(h, ev.c);
    } else if ev.TryResult? {
      PendingAt(h, ev.n);
    }
  }

  /** A dropped `Pending` blocks the channel forever: unless it is polled, no submission succeeds. */
  lemma {:induction false} DroppedPendingBlocks(h: Channel, evs: seq<Event>, n: nat)
    requires Inv(h) && Runs(h, evs) && Outstanding(h, n) && TryResult(n) !in evs
    ensures Outstanding(After(h, evs), n) && After(h, evs).log == h.log
    decreases |evs|
  {
    hide Inv, Enabled, Next;
    if evs != [] {
      StepInv(h, evs[0]);
      OutstandingStep(h, evs[0], n);
      DroppedPendingBlocks(Next(h, evs[0]), evs[1..], n);
    }
  }

  lemma UnansweredStep(h: Channel, ev: Event, n: nat)
    requires Inv(h) && Enabled(h, ev) && Outstanding(h, n) && h.acked < n && ev != Complete(n)
    ensures var h' := Next(h, ev); Outstanding(h', n) && h'.acked < n && h'.log == h.log
  {
    hide Requests, Senders, Pendings;
    if ev.Send? {
      SenderAt(h, ev.c);
    } else if ev.TryResult? {
      PendingAt(h, ev.n);
    } else if ev.Complete? {
      RequestAt(h, ev.n);
    }
  }

  /** A dropped `Request` leaves its submission unanswered and the channel blocked forever. */
  lemma {:induction false} DroppedRequestBlocks(h: Channel, evs: seq<Event>, n: nat)
    requires Inv(h) && Runs(h, evs) && Outstanding(h, n) && h.acked < n && Complete(n) !in evs
    ensures Outstanding(After(h, evs), n) && After(h, evs).acked < n && After(h, evs).log == h.log
    decreases |evs|
  {
    hide Inv, Enabled, Next;
    if evs != [] {
      StepInv(h, evs[0]);
      UnansweredStep(h, evs[0], n);
      DroppedRequestBlocks(Next(h, evs[0]), evs[1..], n);
    }
  }
}
