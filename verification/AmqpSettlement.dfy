/** Settlement of AMQP deliveries by the consumer of `src/gateway/amqp.rs` with manual
    acknowledgement: each delivery is forwarded to a webhook, then acked, requeued or dropped.

    The broker hands out messages from its queue, puts a requeued one back at a place of its choosing
    with the redelivered flag set, and takes back everything unsettled when a session is lost. Webhook
    outcomes, losses and settlements that never reach the broker are arbitrary. */
module AmqpSettlement {
  datatype Delivery = Delivery(id: nat, redelivered: bool)

  /** The delivery at the head of `inFlight` is waiting for its webhook, or its outcome is known. */
  datatype Phase = Idle | Forwarded(ok: bool)

  /** What the consumer and the broker did, for the record. */
  datatype Act =
    | Forward(id: nat, redelivered: bool, ok: bool)
    | Ack(id: nat)
    | Requeue(id: nat)
    | Drop(id: nat)

  datatype State = State(
    published: seq<nat>,
    queue: seq<Delivery>,
    inFlight: seq<Delivery>,      // handed to the session, oldest first
    phase: Phase,
    unsettled: seq<Delivery>,     // settled by the consumer, but the broker never heard of it
    acked: seq<nat>,
    dropped: seq<nat>,
    acts: seq<Act>,
    deliveries: nat,
    relost: nat)                  // redelivered messages handed out and taken back by losses

  const INITIAL := State([], [], [], Idle, [], [], [], [], 0, 0)

  datatype Event =
    | Publish(id: nat)
    | Deliver
    | Post(ok: bool)                            // the webhook call returns; `ok` means a 2xx status
    | Settle(reachesBroker: bool, place: nat)   // ack or nack
    | Lose                                      // the session ends

  predicate Allowed(s: State, e: Event) {
    match e
    case Publish(id) => id !in s.published
    case Deliver => s.queue != []
    case Post(_) => s.inFlight != [] && s.phase == Idle
    case Settle(_, place) => s.inFlight != [] && s.phase.Forwarded? && place <= |s.queue|
    case Lose => true
  }

  function InsertAt(q: seq<Delivery>, place: nat, d: Delivery): seq<Delivery>
    requires place <= |q|
  {
    q[..place] + [d] + q[place..]
  }

  /** The consumer's decision: ack a forwarded message, requeue a failed one on its first delivery
      only, drop one that fails again. */
  function Decide(d: Delivery, ok: bool): Act {
    if ok then Ack(d.id)
    else if !d.redelivered then Requeue(d.id)
    else Drop(d.id)
  }

  function Again(s: seq<Delivery>): (r: seq<Delivery>)
    ensures |r| == |s| && forall i :: 0 <= i < |s| ==> r[i] == Delivery(s[i].id, true)
  {
    seq(|s|, i requires 0 <= i < |s| => Delivery(s[i].id, true))
  }

  /** The broker's view of the decision. */
  function Apply(s: State, d: Delivery, act: Act, place: nat): State
    requires place <= |s.queue|
  {
    match act
    case Ack(id) => s.(acked := s.acked + [id])
    case Requeue(id) => s.(queue := InsertAt(s.queue, place, Delivery(id, true)))
    case _ => s.(dropped := s.dropped + [d.id])
  }

  function Next(s: State, e: Event): State
    requires Allowed(s, e)
  {
    match e
    case Publish(id) => s.(published := s.published + [id], queue := s.queue + [Delivery(id, false)])
    case Deliver => s.(queue := s.queue[1..], inFlight := s.inFlight + [s.queue[0]], deliveries := s.deliveries + 1)
    case Post(ok) =>
      var d := s.inFlight[0];
      s.(phase := Forwarded(ok), acts := s.acts + [Forward(d.id, d.redelivered, ok)])
    case Settle(reachesBroker, place) =>
      var d := s.inFlight[0];
      var act := Decide(d, s.phase.ok);
      var t := s.(inFlight := s.inFlight[1..], phase := Idle, acts := s.acts + [act]);
      if reachesBroker then Apply(t, d, act, place) else t.(unsettled := s.unsettled + [d])
    case Lose =>
      var back := s.unsettled + s.inFlight;
      s.(queue := Again(back) + s.queue, inFlight := [], unsettled := [], phase := Idle,
         relost := s.relost + Sum(back, 0, 1))
  }

  ghost predicate Legal(s: State, run: seq<Event>)
    decreases |run|
  {
    run != [] ==> Allowed(s, run[0]) && Legal(Next(s, run[0]), run[1..])
  }

  ghost function Final(s: State, run: seq<Event>): State
    requires Legal(s, run)
    decreases |run|
  {
    if run == [] then s else Final(Next(s, run[0]), run[1..])
  }

  /** What the broker and the network may do at any time: take a new message, which queues up as a first
      delivery; hand out the head of the queue, however many are in flight; lose the session. And a
      delivery in flight is posted with either outcome, or then settled, with or without the broker
      hearing of it. */
  lemma AnythingCanHappen(s: State, id: nat)
    ensures id !in s.published ==>
              && Allowed(s, Publish(id)) && Next(s, Publish(id)).queue == s.queue + [Delivery(id, false)]
              && Next(s, Publish(id)).published == s.published + [id]
    ensures s.queue != [] ==> Allowed(s, Deliver) && Next(s, Deliver).inFlight == s.inFlight + [s.queue[0]]
    ensures Allowed(s, Lose) && Next(s, Lose).inFlight == [] && Next(s, Lose).unsettled == []
    ensures s.inFlight != [] && s.phase == Idle ==> Allowed(s, Post(true)) && Allowed(s, Post(false))
    ensures s.inFlight != [] && s.phase.Forwarded? ==> Allowed(s, Settle(true, 0)) && Allowed(s, Settle(false, 0))
  {
    hide Sum;
  }

  // ----- sums over deliveries -----

  /** The total weight, with `first` for a first delivery and `again` for a redelivered one. */
  function Sum(s: seq<Delivery>, first: nat, again: nat): nat {
    if s == [] then 0 else (if s[0].redelivered then again else first) + Sum(s[1..], first, again)
  }

  function Copies(s: seq<Delivery>, id: nat): nat {
    if s == [] then 0 else (if s[0].id == id then 1 else 0) + Copies(s[1..], id)
  }

  lemma {:induction false} Concat(a: seq<Delivery>, b: seq<Delivery>, first: nat, again: nat, id: nat)
    ensures Sum(a + b, first, again) == Sum(a, first, again) + Sum(b, first, again)
    ensures Copies(a + b, id) == Copies(a, id) + Copies(b, id)
  {
    if a == [] {
      assert a + b == b;
    } else {
      assert (a + b)[1..] == a[1..] + b;
      Concat(a[1..], b, first, again, id);
    }
  }

  lemma Single(d: Delivery, first: nat, again: nat, id: nat)
    ensures Sum([d], first, again) == if d.redelivered then again else first
    ensures Copies([d], id) == if d.id == id then 1 else 0
  {
  }

  lemma Inserted(q: seq<Delivery>, place: nat, d: Delivery, first: nat, again: nat, id: nat)
    requires place <= |q|
    ensures Sum(InsertAt(q, place, d), first, again) == Sum(q, first, again) + Sum([d], first, again)
    ensures Copies(InsertAt(q, place, d), id) == Copies(q, id) + Copies([d], id)
  {
    hide Sum, Copies;
    Concat(q[..place] + [d], q[place..], first, again, id);
    Concat(q[..place], [d], first, again, id);
    Concat(q[..place], q[place..], first, again, id);
    assert q == q[..place] + q[place..];
  }

  lemma HeadTail(s: seq<Delivery>, first: nat, again: nat, id: nat)
    requires s != []
    ensures Sum(s, first, again) == Sum([s[0]], first, again) + Sum(s[1..], first, again)
    ensures Copies(s, id) == Copies([s[0]], id) + Copies(s[1..], id)
  {
    hide Sum, Copies;
    assert s == [s[0]] + s[1..];
    Concat([s[0]], s[1..], first, again, id);
  }

  /** Taken back, a first delivery keeps its weight of one and a repeated one regains it. */
  lemma {:induction false} TakenBack(s: seq<Delivery>, id: nat)
    ensures Sum(Again(s), 2, 1) == Sum(s, 1, 0) + Sum(s, 0, 1)
    ensures Copies(Again(s), id) == Copies(s, id)
  {
    if s != [] {
      assert Again(s)[1..] == Again(s[1..]);
      TakenBack(s[1..], id);
    }
  }

  // ----- conservation -----

  function Count(s: seq<nat>, id: nat): nat {
    multiset(s)[id]
  }

  /** In how many places a message is: queued, in flight, unsettled, acked or dropped. */
  function Places(s: State, id: nat): nat {
    Copies(s.queue, id) + Copies(s.inFlight, id) + Copies(s.unsettled, id) + Count(s.acked, id) + Count(s.dropped, id)
  }

  ghost predicate Conserved(s: State) {
    forall id: nat :: Places(s, id) == if id in s.published then 1 else 0
  }

  lemma CountAppend(s: seq<nat>, x: nat, id: nat)
    ensures Count(s + [x], id) == Count(s, id) + if x == id then 1 else 0
  {
  }

  lemma SettlePlaces(s: State, reachesBroker: bool, place: nat, id: nat)
    requires Allowed(s, Settle(reachesBroker, place))
    ensures Places(Next(s, Settle(reachesBroker, place)), id) == Places(s, id)
  {
    hide Copies, Count, Sum, InsertAt;
    var d := s.inFlight[0];
    HeadTail(s.inFlight, 0, 0, id);
    Single(d, 0, 0, id);
    Single(Delivery(d.id, true), 0, 0, id);
    Inserted(s.queue, place, Delivery(d.id, true), 0, 0, id);
    Concat(s.unsettled, [d], 0, 0, id);
    CountAppend(s.acked, d.id, id);
    CountAppend(s.dropped, d.id, id);
  }

  lemma ConservedStep(s: State, e: Event)
    requires Conserved(s) && Allowed(s, e)
    ensures Conserved(Next(s, e))
  {
    hide Copies, Count, Sum, InsertAt, Apply;
    var t := Next(s, e);
    forall id: nat ensures Places(t, id) == if id in t.published then 1 else 0 {
      assert Places(s, id) == if id in s.published then 1 else 0;
      match e
      case Publish(x) =>
        Concat(s.queue, [Delivery(x, false)], 0, 0, id);
        Single(Delivery(x, false), 0, 0, id);
      case Deliver =>
        HeadTail(s.queue, 0, 0, id);
        Concat(s.inFlight, [s.queue[0]], 0, 0, id);
      case Post(_) =>
      case Settle(b, place) => SettlePlaces(s, b, place, id); SettleKeepsPublished(s, b, place);
      case Lose =>
        var back := s.unsettled + s.inFlight;
        Concat(Again(back), s.queue, 0, 0, id);
        TakenBack(back, id);
        Concat(s.unsettled, s.inFlight, 0, 0, id);
        Nothing(id);
    }
  }

  lemma SettleKeepsPublished(s: State, reachesBroker: bool, place: nat)
    requires Allowed(s, Settle(reachesBroker, place))
    ensures Next(s, Settle(reachesBroker, place)).published == s.published
  {
  }

  lemma Nothing(id: nat)
    ensures Copies([], id) == 0 && Sum([], 1, 0) == 0 && Sum([], 2, 1) == 0 && Sum([], 5, 2) == 0
  {
  }

  // ----- what an ack, a requeue and a drop presuppose -----

  /** A known outcome is that of the delivery at the head, and nothing was done since. */
  ghost predicate PostKnown(s: State) {
    s.phase.Forwarded? ==>
      && s.inFlight != [] && s.acts != []
      && s.acts[|s.acts| - 1] == Forward(s.inFlight[0].id, s.inFlight[0].redelivered, s.phase.ok)
  }

  /** Each settlement directly follows the forward of the very delivery it settles: an ack a 2xx one, a
      requeue a failed one of a first delivery, a drop a failed one of a redelivered delivery. */
  predicate JustifiedAt(acts: seq<Act>, k: nat)
    requires k < |acts|
  {
    match acts[k]
    case Forward(_, _, _) => true
    case Ack(id) => k > 0 && acts[k - 1].Forward? && acts[k - 1].id == id && acts[k - 1].ok
    case Requeue(id) => k > 0 && acts[k - 1] == Forward(id, false, false)
    case Drop(id) => k > 0 && acts[k - 1] == Forward(id, true, false)
  }

  ghost predicate Justified(s: State) {
    && (forall k :: 0 <= k < |s.acts| ==> JustifiedAt(s.acts, k))
    && (forall id :: id in s.acked ==> Ack(id) in s.acts)
    && (forall id :: id in s.dropped ==> Drop(id) in s.acts)
  }

  lemma JustifiedStep(s: State, e: Event)
    requires PostKnown(s) && Justified(s) && Allowed(s, e)
    ensures PostKnown(Next(s, e)) && Justified(Next(s, e))
  {
    hide InsertAt, Again, Sum;
    var t := Next(s, e);
    forall k | 0 <= k < |t.acts| ensures JustifiedAt(t.acts, k) {
      if k < |s.acts| {
        assert JustifiedAt(s.acts, k) && t.acts[k] == s.acts[k] && (k > 0 ==> t.acts[k - 1] == s.acts[k - 1]);
      }
    }
  }

  // ----- requeued at most once -----

  ghost predicate AllAgain(s: seq<Delivery>, id: nat) {
    forall i :: 0 <= i < |s| && s[i].id == id ==> s[i].redelivered
  }

  /** A message is nacked with requeue at most once, because afterwards it only travels as redelivered. */
  ghost predicate RequeuedOnce(s: State) {
    forall id: nat ::
      && multiset(s.acts)[Requeue(id)] <= 1
      && (Requeue(id) in s.acts ==> AllAgain(s.queue, id) && AllAgain(s.inFlight, id))
  }

  lemma {:induction false} NoCopies(s: seq<Delivery>, id: nat)
    requires Copies(s, id) == 0
    ensures forall i :: 0 <= i < |s| ==> s[i].id != id
  {
    if s != [] {
      NoCopies(s[1..], id);
    }
  }

  lemma ActCount(acts: seq<Act>, a: Act, b: Act)
    ensures multiset(acts + [a])[b] == multiset(acts)[b] + if a == b then 1 else 0
    ensures b in acts + [a] <==> b in acts || a == b
    ensures multiset(acts)[b] > 0 <==> b in acts
  {
  }

  /** The message being settled is nowhere else. */
  lemma OnlyCopy(s: State, id: nat)
    requires Conserved(s) && s.inFlight != [] && s.inFlight[0].id == id
    ensures AllAgain(s.queue, id) && AllAgain(s.inFlight[1..], id)
  {
    hide Count;
    assert Places(s, id) <= 1;
    HeadTail(s.inFlight, 0, 0, id);
    Single(s.inFlight[0], 0, 0, id);
    NoCopies(s.queue, id);
    NoCopies(s.inFlight[1..], id);
  }

  lemma SettleOnce(s: State, reachesBroker: bool, place: nat, id: nat)
    requires RequeuedOnce(s) && Conserved(s) && Allowed(s, Settle(reachesBroker, place))
    ensures var t := Next(s, Settle(reachesBroker, place));
            && multiset(t.acts)[Requeue(id)] <= 1
            && (Requeue(id) in t.acts ==> AllAgain(t.queue, id) && AllAgain(t.inFlight, id))
  {
    hide Conserved;
    var d := s.inFlight[0];
    ActCount(s.acts, Decide(d, s.phase.ok), Requeue(id));
    OnlyCopy(s, d.id);
    assert Requeue(id) in s.acts ==> AllAgain(s.queue, id) && AllAgain(s.inFlight, id);
  }

  /** Only published messages are ever settled. */
  ghost predicate ActsKnown(s: State) {
    forall id :: Requeue(id) in s.acts ==> id in s.published
  }

  lemma RequeuedOnceStep(s: State, e: Event)
    requires RequeuedOnce(s) && Conserved(s) && ActsKnown(s) && Allowed(s, e)
    ensures RequeuedOnce(Next(s, e))
  {
    hide Conserved, InsertAt, Apply, Sum;
    var t := Next(s, e);
    forall id: nat
      ensures multiset(t.acts)[Requeue(id)] <= 1
      ensures Requeue(id) in t.acts ==> AllAgain(t.queue, id) && AllAgain(t.inFlight, id)
    {
      assert Requeue(id) in s.acts ==> AllAgain(s.queue, id) && AllAgain(s.inFlight, id);
      match e
      case Settle(b, place) => SettleOnce(s, b, place, id);
      case Post(ok) => ActCount(s.acts, Forward(s.inFlight[0].id, s.inFlight[0].redelivered, ok), Requeue(id));
      case _ =>
    }
  }

  lemma ActsKnownStep(s: State, e: Event)
    requires ActsKnown(s) && Conserved(s) && Allowed(s, e)
    ensures ActsKnown(Next(s, e))
  {
    hide InsertAt, Again, Sum;
    if e.Settle? {
      var d := s.inFlight[0];
      HeadTail(s.inFlight, 0, 0, d.id);
      Single(d, 0, 0, d.id);
      assert Places(s, d.id) >= 1;
    }
  }

  // ----- the delivery budget -----

  /** Deliveries still possible: two for a first delivery in the queue, one for a redelivered one. */
  function Budget(s: State): nat {
    Sum(s.queue, 2, 1) + Sum(s.inFlight, 1, 0) + Sum(s.unsettled, 1, 0)
  }

  ghost predicate WithinBudget(s: State) {
    s.deliveries + Budget(s) <= 2 * |s.published| + s.relost
  }

  lemma SettleBudget(s: State, reachesBroker: bool, place: nat)
    requires Allowed(s, Settle(reachesBroker, place))
    ensures var t := Next(s, Settle(reachesBroker, place));
            Budget(t) <= Budget(s) && t.deliveries == s.deliveries && t.relost == s.relost
  {
    hide Sum, InsertAt;
    var d := s.inFlight[0];
    HeadTail(s.inFlight, 1, 0, 0);
    Single(d, 1, 0, 0);
    Single(Delivery(d.id, true), 2, 1, 0);
    Inserted(s.queue, place, Delivery(d.id, true), 2, 1, 0);
    Concat(s.unsettled, [d], 1, 0, 0);
  }

  lemma BudgetStep(s: State, e: Event)
    requires WithinBudget(s) && Allowed(s, e)
    ensures WithinBudget(Next(s, e))
  {
    hide Sum, InsertAt, Apply;
    match e
    case Publish(x) =>
      Concat(s.queue, [Delivery(x, false)], 2, 1, 0);
      Single(Delivery(x, false), 2, 1, 0);
    case Deliver =>
      HeadTail(s.queue, 2, 1, 0);
      Concat(s.inFlight, [s.queue[0]], 1, 0, 0);
      Single(s.queue[0], 2, 1, 0);
      Single(s.queue[0], 1, 0, 0);
    case Post(_) =>
    case Settle(b, place) => SettleBudget(s, b, place); SettleKeepsPublished(s, b, place);
    case Lose =>
      var back := s.unsettled + s.inFlight;
      Concat(Again(back), s.queue, 2, 1, 0);
      TakenBack(back, 0);
      Concat(s.unsettled, s.inFlight, 1, 0, 0);
      Nothing(0);
  }

  // ----- every run -----

  ghost predicate Inv(s: State) {
    Conserved(s) && PostKnown(s) && Justified(s) && ActsKnown(s) && RequeuedOnce(s) && WithinBudget(s)
  }

  lemma StepKeepsInv(s: State, e: Event)
    requires Inv(s) && Allowed(s, e)
    ensures Inv(Next(s, e))
  {
    hide Conserved, PostKnown, Justified, RequeuedOnce, WithinBudget, Next;
    ConservedStep(s, e);
    JustifiedStep(s, e);
    ActsKnownStep(s, e);
    RequeuedOnceStep(s, e);
    BudgetStep(s, e);
  }

  lemma {:induction false} RunKeepsInv(s: State, run: seq<Event>)
    requires Inv(s) && Legal(s, run)
    ensures Inv(Final(s, run))
    decreases |run|
  {
    hide Inv, Next, Allowed;
    if run != [] {
      StepKeepsInv(s, run[0]);
      RunKeepsInv(Next(s, run[0]), run[1..]);
    }
  }

  lemma InitialInv()
    ensures Inv(INITIAL)
  {
  }

  /** Over any run, with arbitrary webhook outcomes, losses and settlements that never arrive: every
      published message is in exactly one place; an ack needs a 2xx forward of that delivery, a drop a
      failed forward of it as a redelivered one, a requeue a failed forward of it as a first one; no
      message is requeued twice; and without losses of redelivered messages the deliveries number at most twice the
      messages. */
  lemma SettlementSafety(run: seq<Event>)
    requires Legal(INITIAL, run)
    ensures var s := Final(INITIAL, run);
            && (forall id: nat :: Places(s, id) == if id in s.published then 1 else 0)
            && (forall k :: 0 <= k < |s.acts| ==> JustifiedAt(s.acts, k))
            && (forall id :: id in s.acked ==> Ack(id) in s.acts)
            && (forall id :: id in s.dropped ==> Drop(id) in s.acts)
            && (forall id: nat :: multiset(s.acts)[Requeue(id)] <= 1)
            && s.deliveries <= 2 * |s.published| + s.relost
  {
    hide Places, JustifiedAt, Budget, RequeuedOnce, ActsKnown, Legal, Final, Next;
    InitialInv();
    RunKeepsInv(INITIAL, run);
    RequeuesCounted(Final(INITIAL, run));
  }

  lemma RequeuesCounted(s: State)
    requires RequeuedOnce(s)
    ensures forall id: nat :: multiset(s.acts)[Requeue(id)] <= 1
  {
  }

  // ----- without losses everything is settled -----

  /** Steps of a session that stays up and whose settlements arrive. */
  predicate Smooth(e: Event) {
    e.Deliver? || e.Post? || (e.Settle? && e.reachesBroker)
  }

  /** Smooth steps still possible: deliver, forward and settle, twice for a first delivery. */
  function Work(s: State): int {
    Sum(s.queue, 6, 3) + Sum(s.inFlight, 5, 2) - if s.phase.Forwarded? then 1 else 0
  }

  lemma SmoothStep(s: State, e: Event)
    requires Smooth(e) && Allowed(s, e)
    ensures Work(Next(s, e)) + 1 <= Work(s)
    ensures var t := Next(s, e);
            && t.published == s.published && t.unsettled == s.unsettled
            && t.deliveries + Budget(t) <= s.deliveries + Budget(s)
  {
    hide Sum, InsertAt;
    match e
    case Deliver =>
      HeadTail(s.queue, 6, 3, 0);
      HeadTail(s.queue, 2, 1, 0);
      Concat(s.inFlight, [s.queue[0]], 5, 2, 0);
      Concat(s.inFlight, [s.queue[0]], 1, 0, 0);
      Single(s.queue[0], 6, 3, 0);
      Single(s.queue[0], 5, 2, 0);
      Single(s.queue[0], 2, 1, 0);
      Single(s.queue[0], 1, 0, 0);
    case Post(_) =>
    case Settle(b, place) =>
      var d := s.inFlight[0];
      SettleBudget(s, b, place);
      HeadTail(s.inFlight, 5, 2, 0);
      Single(d, 5, 2, 0);
      Single(Delivery(d.id, true), 6, 3, 0);
      Inserted(s.queue, place, Delivery(d.id, true), 6, 3, 0);
  }

  ghost predicate AllSmooth(run: seq<Event>) {
    forall i :: 0 <= i < |run| ==> Smooth(run[i])
  }

  lemma {:induction false} SmoothRun(s: State, run: seq<Event>)
    requires Legal(s, run) && AllSmooth(run)
    ensures var t := Final(s, run);
            && |run| + Work(t) <= Work(s)
            && t.published == s.published && t.unsettled == s.unsettled
            && t.deliveries + Budget(t) <= s.deliveries + Budget(s)
    decreases |run|
  {
    hide Next, Work, Budget, Allowed;
    if run != [] {
      SmoothStep(s, run[0]);
      SmoothRun(Next(s, run[0]), run[1..]);
    }
  }

  /** Everything published is acked or dropped. */
  ghost predicate AllSettled(s: State) {
    forall id: nat :: id in s.published ==> Count(s.acked, id) + Count(s.dropped, id) == 1
  }

  /** In a session that stays up, after any history that left `n` first deliveries in the queue and
      nothing else open: at most `2n` deliveries and `6n` steps happen, and when no further step is
      possible every message has been acked or dropped. */
  lemma SmoothSessionSettles(before: seq<Event>, run: seq<Event>)
    requires Legal(INITIAL, before)
    requires var s := Final(INITIAL, before);
             && s.inFlight == [] && s.unsettled == [] && s.phase == Idle
             && (forall i :: 0 <= i < |s.queue| ==> !s.queue[i].redelivered)
             && Legal(s, run) && AllSmooth(run)
    ensures var s := Final(INITIAL, before);
            var t := Final(s, run);
            && t.deliveries - s.deliveries <= 2 * |s.queue| && |run| <= 6 * |s.queue|
            && ((forall e :: Smooth(e) ==> !Allowed(t, e)) ==> AllSettled(t))
  {
    hide Inv;
    var s := Final(INITIAL, before);
    InitialInv();
    RunKeepsInv(INITIAL, before);
    var t := Final(s, run);
    SmoothRun(s, run);
    RunKeepsInv(s, run);
    FirstDeliveries(s.queue);
    Nothing(0);
    WorkNonNegative(t);
    if forall e :: Smooth(e) ==> !Allowed(t, e) {
      QuietIsSettled(t);
    }
  }

  lemma {:induction false} FirstDeliveries(q: seq<Delivery>)
    requires forall i :: 0 <= i < |q| ==> !q[i].redelivered
    ensures Sum(q, 2, 1) == 2 * |q| && Sum(q, 6, 3) == 6 * |q|
  {
    if q != [] {
      FirstDeliveries(q[1..]);
    }
  }

  lemma WorkNonNegative(s: State)
    requires Inv(s)
    ensures Work(s) >= 0
  {
    if s.phase.Forwarded? {
      HeadTail(s.inFlight, 5, 2, 0);
      Single(s.inFlight[0], 5, 2, 0);
    }
  }

  lemma QuietIsSettled(s: State)
    requires Inv(s) && s.unsettled == [] && forall e :: Smooth(e) ==> !Allowed(s, e)
    ensures AllSettled(s)
  {
    assert !Allowed(s, Deliver) && !Allowed(s, Post(true)) && !Allowed(s, Settle(true, 0));
    assert s.queue == [] && s.inFlight == [];
    forall id: nat | id in s.published ensures Count(s.acked, id) + Count(s.dropped, id) == 1 {
      assert Places(s, id) == 1;
      Nothing(id);
    }
  }
}
