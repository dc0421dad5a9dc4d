/** The management request channel as a step system.

One slot carries requests from any number of senders to one receiver. Every atomic access is one
step. A pending reply and a taken request are objects of their own, stepped whenever their owner
chooses, or never again if they were dropped. There is one taker, and it does not reenter itself.
*/
module Management {
  import opened Bits

  /** Operation codes run from 1 to 6. */
  type Operation = k: nat | 1 <= k <= 6 witness 1

  datatype Message = Message(op: Operation, arg: nat)

  datatype Reply = Reply(value: nat, failed: bool)

  /** A sender inside `submit`: the next access and the values loaded. */
  datatype Sender =
    | Idle
    | Lock(m: Message) | LoadSequence(m: Message) | LoadRetired(m: Message, seen: nat)
    | StoreOperation(m: Message, seen: nat) | StoreArgument(m: Message, seen: nat)
    | StoreSequence(m: Message, seen: nat)
    | Unlock

  /** A `Pending` and its `try_result`. */
  datatype Poll = Waiting | LoadResult | LoadFailed(value: nat) | Retire(reply: Reply) | Consumed(reply: Reply)

  /** The dispatcher inside `take`. */
  datatype Taker =
    | Resting | LoadTaken(seen: nat) | SwapTaken(seen: nat, before: nat)
    | LoadOperation(n: nat) | LoadArgument(n: nat, op: Operation)

  /** A `Request` and its `acknowledge`. */
  datatype Progress =
    | Held | StoreResult(reply: Reply) | StoreFailed(reply: Reply) | StoreAck(reply: Reply) | Acked(reply: Reply)

  datatype Request = Request(m: Message, at: Progress)

  /** The words of the channel, the parties, and the messages submitted so far. */
  datatype Channel = Channel(
    writer: bool, sequence: nat, retired: nat, taken: nat, acked: nat,
    operation: nat, argument: nat, result: nat, failed: bool,
    senders: seq<Sender>, taker: Taker, pendings: map<nat, Poll>, requests: map<nat, Request>,
    log: seq<Message>)

  datatype Event =
    | Submit(c: nat, m: Message) | Send(c: nat)
    | Take | Dispatch
    | TryResult(n: nat)
    | Acknowledge(n: nat, reply: Reply) | Complete(n: nat)

  function New(senders: nat): Channel {
    Channel(false, 0, 0, 0, 0, 0, 0, 0, false, seq(senders, _ => Idle), Resting, map[], map[], [])
  }

  predicate Enabled(h: Channel, ev: Event) {
    match ev
    case Submit(c, m) => c < |h.senders| && h.senders[c] == Idle
    case Send(c) => c < |h.senders| && h.senders[c] != Idle
    case Take => h.taker == Resting
    case Dispatch => h.taker != Resting
    case TryResult(n) => n in h.pendings && !h.pendings[n].Consumed?
    case Acknowledge(n, _) => n in h.requests && h.requests[n].at == Held
    case Complete(n) => n in h.requests && !h.requests[n].at.Held? && !h.requests[n].at.Acked?
  }

  function Send1(h: Channel, c: nat): Channel
    requires c < |h.senders|
  {
    match h.senders[c]
    case Idle => h
    case Lock(m) =>
      if h.writer then h.(senders := h.senders[c := Idle])
      else h.(writer := true, senders := h.senders[c := LoadSequence(m)])
    case LoadSequence(m) => h.(senders := h.senders[c := LoadRetired(m, h.sequence)])
    case LoadRetired(m, seen) =>
      var next := if h.retired != seen || seen + 1 >= U64_LIMIT then Unlock else StoreOperation(m, seen);
      h.(senders := h.senders[c := next])
    case StoreOperation(m, seen) => h.(operation := m.op, senders := h.senders[c := StoreArgument(m, seen)])
    case StoreArgument(m, seen) => h.(argument := m.arg, senders := h.senders[c := StoreSequence(m, seen)])
    case StoreSequence(m, seen) =>
      h.(sequence := seen + 1, log := h.log + [m], pendings := h.pendings[seen + 1 := Waiting],
        senders := h.senders[c := Unlock])
    case Unlock => h.(writer := false, senders := h.senders[c := Idle])
  }

  /** The operation code the dispatcher decodes; any other value is the source's unreachable arm. */
  predicate Decodes(code: nat) {
    1 <= code <= 6
  }

  function Dispatch1(h: Channel): Channel {
    match h.taker
    case Resting => h
    case LoadTaken(seen) => h.(taker := if seen == h.taken then Resting else SwapTaken(seen, h.taken))
    case SwapTaken(seen, before) =>
      if h.taken == before then h.(taken := seen, taker := LoadOperation(seen)) else h.(taker := Resting)
    case LoadOperation(n) => if Decodes(h.operation) then h.(taker := LoadArgument(n, h.operation)) else h
    case LoadArgument(n, op) =>
      h.(requests := h.requests[n := Request(Message(op, h.argument), Held)], taker := Resting)
  }

  function TryResult1(h: Channel, n: nat): Channel
    requires n in h.pendings
  {
    match h.pendings[n]
    case Waiting => if h.acked != n then h else h.(pendings := h.pendings[n := LoadResult])
    case LoadResult => h.(pendings := h.pendings[n := LoadFailed(h.result)])
    case LoadFailed(value) => h.(pendings := h.pendings[n := Retire(Reply(value, h.failed))])
    case Retire(reply) => h.(retired := n, pendings := h.pendings[n := Consumed(reply)])
    case Consumed(_) => h
  }

  function Complete1(h: Channel, n: nat): Channel
    requires n in h.requests
  {
    var r := h.requests[n];
    match r.at
    case StoreResult(reply) => h.(result := reply.value, requests := h.requests[n := r.(at := StoreFailed(reply))])
    case StoreFailed(reply) => h.(failed := reply.failed, requests := h.requests[n := r.(at := StoreAck(reply))])
    case StoreAck(reply) => h.(acked := n, requests := h.requests[n := r.(at := Acked(reply))])
    case _ => h
  }

  function Next(h: Channel, ev: Event): Channel
    requires Enabled(h, ev)
  {
    match ev
    case Submit(c, m) => h.(senders := h.senders[c := Lock(m)])
    case Send(c) => Send1(h, c)
    case Take => h.(taker := LoadTaken(h.sequence))
    case Dispatch => Dispatch1(h)
    case TryResult(n) => TryResult1(h, n)
    case Acknowledge(n, reply) => h.(requests := h.requests[n := h.requests[n].(at := StoreResult(reply))])
    case Complete(n) => Complete1(h, n)
  }

  // The invariant.

  predicate Chain(h: Channel) {
    && h.retired <= h.acked <= h.taken <= h.sequence <= h.retired + 1
    && |h.log| == h.sequence
  }

  /** The slot holds the message that is on its way. */
  predicate Slot(h: Channel)
    requires Chain(h)
  {
    h.sequence > h.retired ==> h.operation == h.log[h.sequence - 1].op && h.argument == h.log[h.sequence - 1].arg
  }

  predicate Locked(p: Sender) {
    !p.Idle? && !p.Lock?
  }

  predicate SenderOk(h: Channel, p: Sender) {
    match p
    case LoadRetired(m, seen) => seen == h.sequence
    case StoreOperation(m, seen) => seen == h.sequence == h.retired
    case StoreArgument(m, seen) => seen == h.sequence == h.retired && h.operation == m.op
    case StoreSequence(m, seen) => seen == h.sequence == h.retired && h.operation == m.op && h.argument == m.arg
    case _ => true
  }

  predicate Senders(h: Channel) {
    && (forall c | 0 <= c < |h.senders| :: SenderOk(h, h.senders[c]) && (Locked(h.senders[c]) ==> h.writer))
    && (forall c, d | 0 <= c < d < |h.senders| :: !(Locked(h.senders[c]) && Locked(h.senders[d])))
    && (h.writer ==> Occupied(h.senders))
  }

  /** Some sender is inside the section that the lock protects. */
  predicate Occupied(senders: seq<Sender>) {
    exists c | 0 <= c < |senders| :: Locked(senders[c])
  }

  predicate TakerOk(h: Channel)
    requires Chain(h)
  {
    match h.taker
    case Resting => true
    case LoadTaken(seen) => h.taken <= seen <= h.sequence
    case SwapTaken(seen, before) => before == h.taken && h.taken < seen <= h.sequence
    case LoadOperation(n) => n == h.taken == h.sequence == h.acked + 1
    case LoadArgument(n, op) => n == h.taken == h.sequence == h.acked + 1 && op == h.log[n - 1].op
  }

  /** The number of requests handed out: a taken one is not out yet while it is being loaded. */
  function Out(h: Channel): int {
    if h.taker.LoadOperation? || h.taker.LoadArgument? then h.taken - 1 else h.taken
  }

  predicate RequestOk(h: Channel, n: nat, at: Progress) {
    && (at.Acked? <==> n <= h.acked)
    && (at.StoreFailed? || at.StoreAck? ==> h.result == at.reply.value)
    && (at.StoreAck? ==> h.failed == at.reply.failed)
    && (at.Acked? && n == Out(h) ==> h.result == at.reply.value && h.failed == at.reply.failed)
  }

  ghost predicate Requests(h: Channel) {
    && (forall n :: n in h.requests <==> 1 <= n <= Out(h))
    && (forall n | n in h.requests ::
          1 <= n <= |h.log| && h.requests[n].m == h.log[n - 1] && RequestOk(h, n, h.requests[n].at))
  }

  predicate PendingOk(h: Channel, n: nat, p: Poll) {
    && (p.Consumed? <==> n <= h.retired)
    && (p.Waiting? || p.Consumed? || h.acked == n)
    && (p.LoadFailed? ==> h.result == p.value)
    && (p.Retire? ==> p.reply == Reply(h.result, h.failed))
    && (p.Consumed? ==> n in h.requests && h.requests[n].at == Acked(p.reply))
  }

  ghost predicate Pendings(h: Channel) {
    && (forall n :: n in h.pendings <==> 1 <= n <= h.sequence)
    && (forall n | n in h.pendings :: PendingOk(h, n, h.pendings[n]))
  }

  ghost predicate Inv(h: Channel) {
    Chain(h) && Slot(h) && Senders(h) && TakerOk(h) && Requests(h) && Pendings(h)
  }

  lemma NewInv(senders: nat)
    ensures Inv(New(senders))
  {
  }

  // What a step leaves alone.

  lemma RequestsKept(h: Channel, h': Channel)
    requires Chain(h) && Requests(h) && h'.requests == h.requests && h.log <= h'.log
    requires h'.acked == h.acked && h'.result == h.result && h'.failed == h.failed && Out(h') == Out(h)
    ensures Requests(h')
  {
  }

  lemma PendingsKept(h: Channel, h': Channel)
    requires Chain(h) && Pendings(h) && h'.pendings == h.pendings && h'.sequence == h.sequence
    requires h'.retired == h.retired
    requires h'.acked == h.acked && h'.result == h.result && h'.failed == h.failed
    requires forall n | n in h.requests && n <= h.retired :: n in h'.requests && h'.requests[n] == h.requests[n]
    ensures Pendings(h')
  {
  }

  lemma SendersKept(h: Channel, h': Channel)
    requires Senders(h) && h'.senders == h.senders && h'.writer == h.writer
    requires h'.sequence == h.sequence && h'.operation == h.operation && h'.argument == h.argument
    requires h'.retired == h.retired || h.sequence != h.retired
    ensures Senders(h')
  {
  }

  // The steps.

  lemma SendKeepsSenders(h: Channel, c: nat)
    requires Chain(h) && Senders(h) && c < |h.senders|
    ensures Senders(Send1(h, c))
  {
    hide Occupied;
    assert SenderOk(h, h.senders[c]);
    assert Locked(h.senders[c]) ==> forall d | 0 <= d < |h.senders| && d != c :: !Locked(h.senders[d]);
    SendOccupies(h.senders, c, Send1(h, c).senders[c]);
  }

  /** The section stays occupied unless its occupant leaves it. */
  lemma SendOccupies(senders: seq<Sender>, c: nat, p: Sender)
    requires c < |senders|
    ensures Locked(p) ==> Occupied(senders[c := p])
    ensures Occupied(senders) && !Locked(senders[c]) ==> Occupied(senders[c := p])
  {
    if Occupied(senders) && !Locked(senders[c]) {
      var d :| 0 <= d < |senders| && Locked(senders[d]);
      assert senders[c := p][d] == senders[d];
    }
    assert senders[c := p][c] == p;
  }

  lemma SendKeepsPendings(h: Channel, c: nat)
    requires Chain(h) && Senders(h) && Pendings(h) && c < |h.senders|
    ensures Pendings(Send1(h, c))
  {
    assert SenderOk(h, h.senders[c]);
    if !h.senders[c].StoreSequence? {
      PendingsKept(h, Send1(h, c));
    }
  }

  lemma SendStep(h: Channel, c: nat)
    requires Inv(h) && c < |h.senders|
    ensures Inv(Send1(h, c))
  {
    hide Requests, Pendings, Senders, Send1, Chain, Slot, TakerOk;
    SenderAt(h, c);
    SendKeepsWords(h, c);
    SendKeepsPendings(h, c);
    RequestsKept(h, Send1(h, c));
    SendKeepsSenders(h, c);
  }

  lemma SendKeepsWords(h: Channel, c: nat)
    requires Chain(h) && Slot(h) && TakerOk(h) && c < |h.senders| && SenderOk(h, h.senders[c])
    ensures var h' := Send1(h, c);
            && Chain(h') && Slot(h') && TakerOk(h')
            && h'.requests == h.requests && h.log <= h'.log && Out(h') == Out(h)
            && h'.acked == h.acked && h'.result == h.result && h'.failed == h.failed
  {
    hide Send1, Chain, Slot, TakerOk, Out;
    if h.senders[c].StoreSequence? {
      SendPublishes(h, c);
    } else {
      SendPrepares(h, c);
      SameWords(h, Send1(h, c));
    }
  }

  /** Before the sequence is stored only the slot is written, and only while it is free. */
  lemma SendPrepares(h: Channel, c: nat)
    requires c < |h.senders| && SenderOk(h, h.senders[c]) && !h.senders[c].StoreSequence?
    ensures var h' := Send1(h, c);
            && h'.(writer := h.writer, operation := h.operation, argument := h.argument, senders := h.senders) == h
            && (h.sequence == h.retired || (h'.operation == h.operation && h'.argument == h.argument))
  {
  }

  lemma SameWords(h: Channel, h': Channel)
    requires Chain(h) && Slot(h) && TakerOk(h)
    requires h'.(writer := h.writer, operation := h.operation, argument := h.argument, senders := h.senders) == h
    requires h.sequence == h.retired || (h'.operation == h.operation && h'.argument == h.argument)
    ensures Chain(h') && Slot(h') && TakerOk(h') && Out(h') == Out(h)
  {
  }

  lemma SendPublishes(h: Channel, c: nat)
    requires Chain(h) && TakerOk(h) && c < |h.senders| && SenderOk(h, h.senders[c]) && h.senders[c].StoreSequence?
    ensures var h' := Send1(h, c);
            && Chain(h') && Slot(h') && TakerOk(h')
            && h'.requests == h.requests && h.log <= h'.log && Out(h') == Out(h)
            && h'.acked == h.acked && h'.result == h.result && h'.failed == h.failed
  {
  }

  lemma SenderAt(h: Channel, c: nat)
    requires Senders(h) && c < |h.senders|
    ensures SenderOk(h, h.senders[c])
  {
  }

  lemma DispatchKeepsRequests(h: Channel)
    requires Chain(h) && Slot(h) && TakerOk(h) && Requests(h)
    ensures Requests(Dispatch1(h))
  {
    hide Requests;
    if h.taker.LoadArgument? {
      HandOut(h);
    } else {
      RequestsKept(h, Dispatch1(h));
    }
  }

  lemma HandOut(h: Channel)
    requires Chain(h) && Slot(h) && TakerOk(h) && Requests(h) && h.taker.LoadArgument?
    ensures Requests(Dispatch1(h))
  {
  }

  lemma DispatchStep(h: Channel)
    requires Inv(h)
    ensures Inv(Dispatch1(h))
  {
    hide Senders, Pendings, Requests;
    DispatchKeepsRequests(h);
    SendersKept(h, Dispatch1(h));
    DispatchKeepsPendings(h);
  }

  lemma DispatchKeepsPendings(h: Channel)
    requires Chain(h) && TakerOk(h) && Pendings(h)
    ensures Pendings(Dispatch1(h))
  {
    hide Pendings;
    PendingsKept(h, Dispatch1(h));
  }

  lemma TryResultKeepsPendings(h: Channel, n: nat)
    requires Chain(h) && TakerOk(h) && Requests(h) && Pendings(h) && n in h.pendings
    ensures Pendings(TryResult1(h, n))
  {
    assert PendingOk(h, n, h.pendings[n]);
    assert h.acked == n ==> n in h.requests && RequestOk(h, n, h.requests[n].at);
  }

  lemma TryResultStep(h: Channel, n: nat)
    requires Inv(h) && n in h.pendings
    ensures Inv(TryResult1(h, n))
  {
    hide Senders, Requests, Pendings;
    PendingAt(h, n);
    TryResultKeepsPendings(h, n);
    SendersKept(h, TryResult1(h, n));
    RequestsKept(h, TryResult1(h, n));
  }

  lemma PendingAt(h: Channel, n: nat)
    requires Pendings(h) && n in h.pendings
    ensures PendingOk(h, n, h.pendings[n]) && 1 <= n <= h.sequence
  {
  }

  lemma CompleteKeepsRequests(h: Channel, n: nat)
    requires Chain(h) && TakerOk(h) && Requests(h) && n in h.requests
    ensures Requests(Complete1(h, n))
  {
  }

  lemma CompleteKeepsPendings(h: Channel, n: nat)
    requires Chain(h) && TakerOk(h) && Requests(h) && Pendings(h) && n in h.requests
    ensures Pendings(Complete1(h, n))
  {
  }

  lemma CompleteStep(h: Channel, n: nat)
    requires Inv(h) && n in h.requests
    ensures Inv(Complete1(h, n))
  {
    hide Senders, Pendings, Requests;
    SendersKept(h, Complete1(h, n));
    CompleteKeepsRequests(h, n);
    CompleteKeepsPendings(h, n);
    RequestAt(h, n);
  }

  lemma RequestAt(h: Channel, n: nat)
    requires Requests(h) && n in h.requests
    ensures 1 <= n <= Out(h) && RequestOk(h, n, h.requests[n].at)
  {
  }

  lemma AcknowledgeStep(h: Channel, n: nat, reply: Reply)
    requires Inv(h) && Enabled(h, Acknowledge(n, reply))
    ensures Inv(Next(h, Acknowledge(n, reply)))
  {
    hide Senders, Pendings;
    SendersKept(h, Next(h, Acknowledge(n, reply)));
    PendingsKept(h, Next(h, Acknowledge(n, reply)));
  }

  lemma SubmitStep(h: Channel, c: nat, m: Message)
    requires Inv(h) && Enabled(h, Submit(c, m))
    ensures Inv(Next(h, Submit(c, m)))
  {
    hide Requests, Pendings, Occupied;
    RequestsKept(h, Next(h, Submit(c, m)));
    PendingsKept(h, Next(h, Submit(c, m)));
    SendOccupies(h.senders, c, Lock(m));
  }

  lemma TakeStep(h: Channel)
    requires Inv(h) && Enabled(h, Take)
    ensures Inv(Next(h, Take))
  {
    hide Requests, Pendings, Senders;
    RequestsKept(h, Next(h, Take));
    PendingsKept(h, Next(h, Take));
    SendersKept(h, Next(h, Take));
  }

  /** Every step of every party keeps the invariant. */
  lemma StepInv(h: Channel, ev: Event)
    requires Inv(h) && Enabled(h, ev)
    ensures Inv(Next(h, ev))
  {
    hide Inv;
    match ev
    case Submit(c, m) => SubmitStep(h, c, m);
    case Send(c) => SendStep(h, c);
    case Take => TakeStep(h);
    case Dispatch => DispatchStep(h);
    case TryResult(n) => TryResultStep(h, n);
    case Acknowledge(n, reply) => AcknowledgeStep(h, n, reply);
    case Complete(n) => CompleteStep(h, n);
  }
}
