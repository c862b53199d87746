/** `DefaultGateway::start` and `stop` (`src/core/gateway.rs`) over the shutdown latch, called by any
    number of callers at once, together with the tasks they spawn: the server, the metrics ticker and
    one supervised listener per configured entry (`src/gateway/amqp.rs`, `mqtt.rs`, `zmq.rs`).

    `RuntimeHandles` is only touched under its lock, so it is a record of plain values here; what
    interleaves is the lock, the atomic flag, the notification, the spawned tasks and the joins. */
module GatewayLifecycle {
  import opened Text
  import opened ShutdownLatch

  // ----- tasks -----

  datatype Kind = Server | Metrics | Listener(index: nat)

  /** The two `select!` blocks of a listener's supervisor loop; other tasks stay in the first. */
  datatype Phase = Session | Backoff

  datatype Task =
    | Running(kind: Kind, phase: Phase, waiter: Waiter)
    | Draining(kind: Kind)     // the server, finishing its open connections
    | Finished(kind: Kind)

  /** The other branch of the task's `select!` may win: a session ends, a tick fires, a backoff sleep
      is over. `select!` polls its branches in random order, so that branch can win before `wait` was
      polled at all; but a sleep that was only just created is never ready at its first poll. */
  predicate OtherBranchReady(t: Task) {
    && t.Running? && (t.waiter.Outside? || t.waiter.Parked?)
    && match t.kind
       case Server => false
       case Metrics => true
       case Listener(_) => t.phase == Session || t.waiter.Parked?
  }

  function OtherBranch(t: Task): Task
    requires OtherBranchReady(t)
  {
    match t.kind
    case Listener(_) => Running(t.kind, if t.phase == Session then Backoff else Session, Outside)
    case _ => Running(t.kind, Session, Outside)
  }

  // ----- callers -----

  /** The next thing a caller of `start` or `stop` does. */
  datatype Caller =
    | StartLock | StartCheck | StartReset | StartBind
    | StartSpawnMetrics | StartSpawnListener(next: nat) | StartSetRunning
    | StopLock | StopCheck | StopStore | StopNotify | StopTake | StopJoin(queue: seq<nat>)
    | Done

  predicate HoldsLock(c: Caller) {
    match c
    case StartLock | StopLock | StopJoin(_) | Done => false
    case _ => true
  }

  datatype Gateway = Gateway(
    configured: nat,               // number of listener entries
    latch: Latch,
    lock: Option<nat>,
    running: bool,
    server: Option<nat>,
    metrics: Option<nat>,
    listeners: seq<nat>,
    callers: seq<Caller>,
    tasks: seq<Task>,              // every task ever spawned; its index is its handle
    joined: seq<nat>,
    dropped: seq<nat>)

  function NewGateway(configured: nat): Gateway {
    Gateway(configured, Latch(false, 0), None, false, None, None, [], [], [], [], [])
  }

  function Opt(o: Option<nat>): seq<nat> {
    match o case None => [] case Some(h) => [h]
  }

  /** The handles in the runtime record, in the order `stop` joins them. */
  function Record(g: Gateway): seq<nat> {
    Opt(g.server) + Opt(g.metrics) + g.listeners
  }

  // ----- steps -----

  /** What a task can do next. */
  datatype Move =
    | PollWait       // its `wait` takes its next step
    | TakeOther      // the other branch of its `select!` wins
    | Exit           // its `wait` returned: it leaves its loop
    | Drained        // the server's last connection ends
    | Crash          // it ends for a reason of its own

  datatype Event =
    | CallStart
    | CallStop
    | CallerStep(caller: nat, bindOk: bool)
    | Abandon(caller: nat)         // the caller's future is dropped at an await point
    | TaskStep(task: nat, move: Move)

  predicate CallerCanStep(g: Gateway, c: Caller) {
    match c
    case StartLock | StopLock => g.lock == None
    case StopJoin(q) => q == [] || (q[0] < |g.tasks| && g.tasks[q[0]].Finished?)
    case Done => false
    case _ => true
  }

  predicate TaskAllowed(t: Task, l: Latch, m: Move) {
    match m
    case PollWait => t.Running? && CanStep(t.waiter, l)
    case TakeOther => OtherBranchReady(t)
    case Exit => t.Running? && t.waiter.Returned?
    case Drained => t.Draining?
    case Crash => t.Running?
  }

  function TaskAfter(t: Task, l: Latch, m: Move): (r: Task)
    requires TaskAllowed(t, l, m)
    ensures r.kind == t.kind
  {
    match m
    case PollWait => t.(waiter := Poll(t.waiter, l))
    case TakeOther => OtherBranch(t)
    case Exit => if t.kind == Server then Draining(t.kind) else Finished(t.kind)
    case Drained | Crash => Finished(t.kind)
  }

  predicate Allowed(g: Gateway, e: Event) {
    match e
    case CallStart | CallStop => true
    case CallerStep(i, _) => i < |g.callers| && CallerCanStep(g, g.callers[i])
    case Abandon(i) => i < |g.callers| && AtAwait(g.callers[i])
    case TaskStep(t, m) => t < |g.tasks| && TaskAllowed(g.tasks[t], g.latch, m)
  }

  predicate AtAwait(c: Caller) {
    c.StartLock? || c.StartBind? || c.StopLock? || c.StopJoin?
  }

  function Spawn(g: Gateway, kind: Kind): Gateway {
    g.(tasks := g.tasks + [Running(kind, Session, Outside)])
  }

  /** Where the caller goes next. */
  function NextAction(g: Gateway, c: Caller, bindOk: bool): Caller {
    match c
    case StartLock => StartCheck
    case StartCheck => if g.running then Done else StartReset
    case StartReset => StartBind
    case StartBind => if bindOk then StartSpawnMetrics else Done
    case StartSpawnMetrics => StartSpawnListener(0)
    case StartSpawnListener(k) => if k < g.configured then StartSpawnListener(k + 1) else StartSetRunning
    case StartSetRunning => Done
    case StopLock => StopCheck
    case StopCheck => if g.running then StopStore else Done
    case StopStore => StopNotify
    case StopNotify => StopTake
    case StopTake => StopJoin(Record(g))
    case StopJoin(q) => if q == [] then Done else StopJoin(q[1..])
    case Done => Done
  }

  /** What the action changes besides the caller and the lock. */
  function Effect(g: Gateway, c: Caller): Gateway {
    var handle := |g.tasks|;
    match c
    case StartReset => g.(latch := g.latch.(triggered := false))
    case StartSpawnMetrics => Spawn(g, Metrics).(metrics := Some(handle))
    case StartSpawnListener(k) =>
      if k < g.configured then Spawn(g, Listener(k)).(listeners := g.listeners + [handle])
      else Spawn(g, Server).(server := Some(handle))
    case StartSetRunning => g.(running := true)
    case StopStore => g.(latch := g.latch.(triggered := true))
    case StopNotify => g.(latch := g.latch.(notifications := g.latch.notifications + 1))
    case StopTake => g.(running := false, server := None, metrics := None, listeners := [])
    case StopJoin(q) => if q == [] then g else g.(joined := g.joined + [q[0]])
    case _ => g
  }

  /** The lock is taken on entering the critical section and given up on leaving it. */
  function LockAfter(lock: Option<nat>, i: nat, before: Caller, after: Caller): Option<nat> {
    if HoldsLock(before) == HoldsLock(after) then lock
    else if HoldsLock(after) then Some(i)
    else None
  }

  function StepCaller(g: Gateway, i: nat, bindOk: bool): Gateway
    requires i < |g.callers| && CallerCanStep(g, g.callers[i])
  {
    var c := g.callers[i];
    var c' := NextAction(g, c, bindOk);
    Effect(g, c).(callers := g.callers[i := c'], lock := LockAfter(g.lock, i, c, c'))
  }

  function Abandoned(g: Gateway, i: nat): Gateway
    requires i < |g.callers| && AtAwait(g.callers[i])
  {
    var c := g.callers[i];
    var t := g.(callers := g.callers[i := Done], lock := LockAfter(g.lock, i, c, Done));
    if c.StopJoin? then t.(dropped := g.dropped + c.queue) else t
  }

  function Next(g: Gateway, e: Event): Gateway
    requires Allowed(g, e)
  {
    match e
    case CallStart => g.(callers := g.callers + [StartLock])
    case CallStop => g.(callers := g.callers + [StopLock])
    case CallerStep(i, bindOk) => StepCaller(g, i, bindOk)
    case Abandon(i) => Abandoned(g, i)
    case TaskStep(t, m) => g.(tasks := g.tasks[t := TaskAfter(g.tasks[t], g.latch, m)])
  }

  ghost predicate Legal(g: Gateway, run: seq<Event>)
    decreases |run|
  {
    run != [] ==> Allowed(g, run[0]) && Legal(Next(g, run[0]), run[1..])
  }

  ghost function Final(g: Gateway, run: seq<Event>): Gateway
    requires Legal(g, run)
    decreases |run|
  {
    if run == [] then g else Final(Next(g, run[0]), run[1..])
  }

  // ----- the lock -----

  /** The lock is held by exactly the caller that is inside its critical section. */
  ghost predicate LockView(g: Gateway) {
    && (forall i :: 0 <= i < |g.callers| ==> (HoldsLock(g.callers[i]) <==> g.lock == Some(i)))
    && (g.lock.Some? ==> g.lock.value < |g.callers|)
  }

  /** A caller's step moves that caller alone, and takes or gives up the lock with its section. */
  lemma CallerMoves(g: Gateway, i: nat, bindOk: bool)
    requires i < |g.callers| && CallerCanStep(g, g.callers[i])
    ensures var t := StepCaller(g, i, bindOk);
            && t.callers == g.callers[i := t.callers[i]]
            && (HoldsLock(t.callers[i]) ==> t.lock == (if HoldsLock(g.callers[i]) then g.lock else Some(i)))
            && (!HoldsLock(t.callers[i]) ==> t.lock == (if HoldsLock(g.callers[i]) then None else g.lock))
            && (HoldsLock(t.callers[i]) && !HoldsLock(g.callers[i]) ==> g.lock == None)
  {
    hide Record;
  }

  lemma AbandonMoves(g: Gateway, i: nat)
    requires i < |g.callers| && AtAwait(g.callers[i])
    ensures var t := Abandoned(g, i);
            && t.callers == g.callers[i := Done]
            && t.lock == (if HoldsLock(g.callers[i]) then None else g.lock)
  {
  }

  lemma LockStep(g: Gateway, e: Event)
    requires LockView(g) && Allowed(g, e)
    ensures LockView(Next(g, e))
  {
    hide StepCaller, Abandoned, TaskAfter, HoldsLock;
    match e
    case CallerStep(i, b) => CallerMoves(g, i, b);
    case Abandon(i) => AbandonMoves(g, i); DoneIsOutside();
    case _ => DoneIsOutside();
  }

  lemma DoneIsOutside()
    ensures !HoldsLock(Done) && !HoldsLock(StartLock) && !HoldsLock(StopLock)
  {
  }

  // ----- the runtime record -----

  predicate HasKind(g: Gateway, h: nat, kind: Kind) {
    h < |g.tasks| && g.tasks[h].kind == kind
  }

  ghost predicate FirstListeners(g: Gateway, k: nat) {
    |g.listeners| == k <= g.configured && forall i :: 0 <= i < k ==> HasKind(g, g.listeners[i], Listener(i))
  }

  /** Server, metrics task and one listener per configured entry, each in its own slot. */
  ghost predicate Full(g: Gateway) {
    && g.server.Some? && HasKind(g, g.server.value, Server)
    && g.metrics.Some? && HasKind(g, g.metrics.value, Metrics)
    && FirstListeners(g, g.configured)
  }

  ghost predicate Empty(g: Gateway) {
    g.server == None && g.metrics == None && g.listeners == []
  }

  /** What the lock holder, if there is one, is about to do. */
  function Holder(g: Gateway): Caller {
    if g.lock.Some? && g.lock.value < |g.callers| then g.callers[g.lock.value] else Done
  }

  /** What the record holds when `c` is the holder's next action. */
  ghost predicate RecordFor(g: Gateway, c: Caller) {
    match c
    case StartReset | StartBind | StartSpawnMetrics => !g.running && Empty(g)
    case StartSpawnListener(k) =>
      !g.running && g.server == None && g.metrics.Some? && HasKind(g, g.metrics.value, Metrics) && FirstListeners(g, k)
    case StartSetRunning => !g.running && Full(g)
    case StopStore => g.running && Full(g)
    case StopNotify | StopTake => g.running && Full(g) && g.latch.triggered
    case _ => if g.running then Full(g) else Empty(g)
  }

  ghost predicate RecordView(g: Gateway) {
    RecordFor(g, Holder(g))
  }

  ghost predicate SameRecord(g: Gateway, t: Gateway) {
    && t.configured == g.configured && t.running == g.running
    && t.server == g.server && t.metrics == g.metrics && t.listeners == g.listeners
  }

  ghost predicate KindsKept(g: Gateway, t: Gateway) {
    |g.tasks| <= |t.tasks| && forall h :: 0 <= h < |g.tasks| ==> t.tasks[h].kind == g.tasks[h].kind
  }

  lemma RecordForKept(g: Gateway, t: Gateway, c: Caller)
    requires RecordFor(g, c) && SameRecord(g, t) && KindsKept(g, t)
    requires g.latch.triggered ==> t.latch.triggered
    ensures RecordFor(t, c)
  {
    assert forall k :: FirstListeners(g, k) ==> FirstListeners(t, k);
  }

  lemma ListenerSpawned(g: Gateway, k: nat)
    requires FirstListeners(g, k) && k < g.configured
    ensures FirstListeners(Spawn(g, Listener(k)).(listeners := g.listeners + [|g.tasks|]), k + 1)
  {
  }

  lemma SpawnKeeps(g: Gateway, kind: Kind, k: nat)
    ensures HasKind(Spawn(g, kind), |g.tasks|, kind)
    ensures FirstListeners(g, k) ==> FirstListeners(Spawn(g, kind), k)
    ensures g.metrics.Some? && HasKind(g, g.metrics.value, Metrics) ==>
              HasKind(Spawn(g, kind), g.metrics.value, Metrics)
  {
  }

  /** Only the tasks and the listener slots matter to these predicates. */
  lemma SlotsOnly(g: Gateway, t: Gateway)
    requires g.tasks == t.tasks && g.configured == t.configured
    ensures forall h, kind :: HasKind(g, h, kind) <==> HasKind(t, h, kind)
    ensures g.listeners == t.listeners ==> forall k :: FirstListeners(g, k) <==> FirstListeners(t, k)
  {
  }

  lemma StartRecordStep(g: Gateway, i: nat, bindOk: bool)
    requires i < |g.callers| && CallerCanStep(g, g.callers[i]) && RecordFor(g, g.callers[i])
    requires g.callers[i].StartSpawnMetrics? || g.callers[i].StartSpawnListener? || g.callers[i].StartSetRunning?
    ensures RecordFor(StepCaller(g, i, bindOk), StepCaller(g, i, bindOk).callers[i])
  {
    hide HasKind, FirstListeners;
    var t := StepCaller(g, i, bindOk);
    match g.callers[i]
    case StartSpawnMetrics =>
      SpawnKeeps(g, Metrics, 0);
      NoListeners(t);
      SlotsOnly(Spawn(g, Metrics), t);
    case StartSpawnListener(k) =>
      if k < g.configured {
        var u := Spawn(g, Listener(k)).(listeners := g.listeners + [|g.tasks|]);
        ListenerSpawned(g, k);
        SpawnKeeps(g, Listener(k), k);
        SlotsOnly(u, t);
        SlotsOnly(Spawn(g, Listener(k)), t);
      } else {
        SpawnKeeps(g, Server, k);
        ListenersCounted(g, k);
        SlotsOnly(Spawn(g, Server), t);
      }
    case StartSetRunning => SlotsOnly(g, t);
  }

  lemma NoListeners(g: Gateway)
    ensures g.listeners == [] ==> FirstListeners(g, 0)
  {
  }

  lemma ListenersCounted(g: Gateway, k: nat)
    requires FirstListeners(g, k)
    ensures k <= g.configured
  {
  }

  lemma OtherRecordStep(g: Gateway, i: nat, bindOk: bool)
    requires i < |g.callers| && CallerCanStep(g, g.callers[i]) && HoldsLock(g.callers[i]) && RecordFor(g, g.callers[i])
    requires !g.callers[i].StartSpawnMetrics? && !g.callers[i].StartSpawnListener? && !g.callers[i].StartSetRunning?
    ensures var t := StepCaller(g, i, bindOk);
            RecordFor(t, if HoldsLock(t.callers[i]) then t.callers[i] else Done)
  {
    hide HasKind, FirstListeners, Record;
    SlotsOnly(g, StepCaller(g, i, bindOk));
  }

  lemma RecordStep(g: Gateway, e: Event)
    requires RecordView(g) && LockView(g) && Allowed(g, e)
    ensures RecordView(Next(g, e))
  {
    hide RecordFor, StepCaller, Abandoned, TaskAfter, HoldsLock, CallerCanStep;
    var t := Next(g, e);
    match e
    case CallerStep(i, b) => CallerRecordStep(g, i, b);
    case Abandon(i) => AbandonRecordStep(g, i);
    case TaskStep(_, _) => RecordForKept(g, t, Holder(g));
    case _ => RecordForKept(g, t, Holder(g));
  }

  lemma AbandonRecordStep(g: Gateway, i: nat)
    requires RecordView(g) && LockView(g) && i < |g.callers| && AtAwait(g.callers[i])
    ensures RecordView(Abandoned(g, i))
  {
    hide HasKind, FirstListeners;
    AbandonMoves(g, i);
    var t := Abandoned(g, i);
    SlotsOnly(g, t);
    assert g.callers[i].StartBind? ==> Holder(g) == StartBind && Holder(t) == Done;
    assert !g.callers[i].StartBind? ==> Holder(t) == Holder(g);
  }

  lemma CallerRecordStep(g: Gateway, i: nat, bindOk: bool)
    requires RecordView(g) && LockView(g) && i < |g.callers| && CallerCanStep(g, g.callers[i])
    ensures RecordView(StepCaller(g, i, bindOk))
  {
    hide RecordFor, StepCaller;
    var c, t := g.callers[i], StepCaller(g, i, bindOk);
    CallerMoves(g, i, bindOk);
    if HoldsLock(c) {
      assert Holder(g) == c && Holder(t) == if HoldsLock(t.callers[i]) then t.callers[i] else Done;
      if c.StartSpawnMetrics? || c.StartSpawnListener? || c.StartSetRunning? {
        StartRecordStep(g, i, bindOk);
        SetRunningEnds(g, i, bindOk);
      } else {
        OtherRecordStep(g, i, bindOk);
      }
    } else {
      FreeRecordStep(g, i, bindOk);
    }
  }

  lemma SetRunningEnds(g: Gateway, i: nat, bindOk: bool)
    requires i < |g.callers| && CallerCanStep(g, g.callers[i])
    ensures var c := StepCaller(g, i, bindOk).callers[i];
            g.callers[i].StartSpawnMetrics? || g.callers[i].StartSpawnListener? ==> HoldsLock(c)
    ensures g.callers[i].StartSetRunning? ==> StepCaller(g, i, bindOk).callers[i] == Done
  {
  }

  /** Taking the lock, joining and returning leave the record alone. */
  lemma FreeRecordStep(g: Gateway, i: nat, bindOk: bool)
    requires RecordView(g) && LockView(g)
    requires i < |g.callers| && CallerCanStep(g, g.callers[i]) && !HoldsLock(g.callers[i])
    ensures RecordView(StepCaller(g, i, bindOk))
  {
    hide HasKind, FirstListeners;
    var t := StepCaller(g, i, bindOk);
    SlotsOnly(g, t);
    CallerMoves(g, i, bindOk);
  }

  // ----- ownership of the handles -----

  function Queue(c: Caller): seq<nat> {
    if c.StopJoin? then c.queue else []
  }

  function Copies(s: seq<nat>, h: nat): nat {
    multiset(s)[h]
  }

  /** How often `h` waits in the queues of the callers that are joining. */
  function QueueCopies(callers: seq<Caller>, h: nat): nat {
    if callers == [] then 0
    else QueueCopies(callers[..|callers| - 1], h) + Copies(Queue(callers[|callers| - 1]), h)
  }

  /** How often `h` is owned: by the record, by a joining caller, or given up by a join or a drop. */
  function Owners(g: Gateway, h: nat): nat {
    Copies(Record(g), h) + QueueCopies(g.callers, h) + Copies(g.joined, h) + Copies(g.dropped, h)
  }

  /** Every handle of a spawned task is in exactly one place, once. */
  ghost predicate OwnerView(g: Gateway) {
    forall h: nat :: Owners(g, h) == if h < |g.tasks| then 1 else 0
  }

  lemma CopiesConcat(a: seq<nat>, b: seq<nat>, h: nat)
    ensures Copies(a + b, h) == Copies(a, h) + Copies(b, h)
  {
    assert multiset(a + b) == multiset(a) + multiset(b);
  }

  lemma CopiesOne(x: nat, h: nat)
    ensures Copies([x], h) == (if x == h then 1 else 0) && Copies([], h) == 0
  {
  }

  lemma {:induction false} QueueMoves(callers: seq<Caller>, i: nat, c: Caller, h: nat)
    requires i < |callers|
    ensures QueueCopies(callers[i := c], h) + Copies(Queue(callers[i]), h) ==
            QueueCopies(callers, h) + Copies(Queue(c), h)
  {
    hide Copies, Queue;
    var n := |callers| - 1;
    var after := callers[i := c];
    if i < n {
      QueueMoves(callers[..n], i, c, h);
      assert after[..n] == callers[..n][i := c] && after[n] == callers[n];
    } else {
      assert after[..n] == callers[..n];
    }
  }

  lemma QueueArrives(callers: seq<Caller>, c: Caller, h: nat)
    ensures QueueCopies(callers + [c], h) == QueueCopies(callers, h) + Copies(Queue(c), h)
  {
    assert (callers + [c])[..|callers|] == callers;
  }

  lemma RecordCopies(g: Gateway, h: nat)
    ensures Copies(Record(g), h) == Copies(Opt(g.server), h) + Copies(Opt(g.metrics), h) + Copies(g.listeners, h)
  {
    CopiesConcat(Opt(g.server) + Opt(g.metrics), g.listeners, h);
    CopiesConcat(Opt(g.server), Opt(g.metrics), h);
  }

  /** A spawned task's handle goes into the one slot that was free for it. */
  lemma SpawnOwners(g: Gateway, c: Caller, h: nat)
    requires RecordFor(g, c) && (c.StartSpawnMetrics? || c.StartSpawnListener?)
    ensures var t := Effect(g, c);
            && Copies(Record(t), h) == Copies(Record(g), h) + (if h == |g.tasks| then 1 else 0)
            && |t.tasks| == |g.tasks| + 1 && t.joined == g.joined && t.dropped == g.dropped
  {
    hide FirstListeners, HasKind, Copies, Record;
    RecordCopies(g, h);
    RecordCopies(Effect(g, c), h);
    CopiesOne(|g.tasks|, h);
    CopiesConcat(g.listeners, [|g.tasks|], h);
  }

  lemma CallerOwners(g: Gateway, i: nat, bindOk: bool, h: nat)
    requires i < |g.callers| && CallerCanStep(g, g.callers[i])
    requires HoldsLock(g.callers[i]) ==> RecordFor(g, g.callers[i])
    ensures var t := StepCaller(g, i, bindOk);
            Owners(t, h) - Owners(g, h) == if |t.tasks| > |g.tasks| == h then 1 else 0
    ensures |g.tasks| <= |StepCaller(g, i, bindOk).tasks| <= |g.tasks| + 1
  {
    hide Copies, Record, RecordFor, QueueCopies;
    var c := g.callers[i];
    var c', t := NextAction(g, c, bindOk), StepCaller(g, i, bindOk);
    QueueMoves(g.callers, i, c', h);
    SameSlots(t, Effect(g, c), h);
    CopiesOne(0, h);
    match c
    case StartSpawnMetrics => SpawnOwners(g, c, h);
    case StartSpawnListener(_) => SpawnOwners(g, c, h);
    case StopTake =>
      RecordCopies(t, h);
    case StopJoin(q) =>
      SameSlots(t, g, h);
      if q != [] {
        assert q == [q[0]] + q[1..];
        CopiesConcat([q[0]], q[1..], h);
        CopiesConcat(g.joined, [q[0]], h);
      }
    case _ => SameSlots(t, g, h);
  }

  lemma SameSlots(t: Gateway, g: Gateway, h: nat)
    ensures t.server == g.server && t.metrics == g.metrics && t.listeners == g.listeners ==>
              Record(t) == Record(g)
  {
  }

  lemma OwnerStep(g: Gateway, e: Event)
    requires OwnerView(g) && RecordView(g) && LockView(g) && Allowed(g, e)
    ensures OwnerView(Next(g, e))
  {
    hide Owners, RecordFor, StepCaller, Abandoned, TaskAfter, HoldsLock, CallerCanStep;
    var t := Next(g, e);
    forall h: nat ensures Owners(t, h) == if h < |t.tasks| then 1 else 0 {
      assert Owners(g, h) == if h < |g.tasks| then 1 else 0;
      match e
      case CallerStep(i, b) => CallerOwners(g, i, b, h);
      case Abandon(i) => AbandonOwners(g, i, h);
      case TaskStep(_, _) => TaskOwners(g, t, h);
      case CallStart => ArriveOwners(g, StartLock, h);
      case CallStop => ArriveOwners(g, StopLock, h);
    }
  }

  lemma TaskOwners(g: Gateway, t: Gateway, h: nat)
    requires t == g.(tasks := t.tasks)
    ensures Owners(t, h) == Owners(g, h)
  {
  }

  lemma ArriveOwners(g: Gateway, c: Caller, h: nat)
    requires !c.StopJoin?
    ensures Owners(g.(callers := g.callers + [c]), h) == Owners(g, h)
  {
    hide Copies, QueueCopies;
    QueueArrives(g.callers, c, h);
    CopiesOne(0, h);
  }

  lemma AbandonOwners(g: Gateway, i: nat, h: nat)
    requires i < |g.callers| && AtAwait(g.callers[i])
    ensures Owners(Abandoned(g, i), h) == Owners(g, h)
    ensures |Abandoned(g, i).tasks| == |g.tasks|
  {
    hide Copies, QueueCopies, Record;
    QueueMoves(g.callers, i, Done, h);
    CopiesOne(0, h);
    SameSlots(Abandoned(g, i), g, h);
    if g.callers[i].StopJoin? {
      CopiesConcat(g.dropped, g.callers[i].queue, h);
    }
  }

  // ----- joins -----

  /** Only finished tasks are ever joined. */
  ghost predicate JoinView(g: Gateway) {
    forall k :: 0 <= k < |g.joined| ==> g.joined[k] < |g.tasks| && g.tasks[g.joined[k]].Finished?
  }

  lemma JoinStep(g: Gateway, e: Event)
    requires JoinView(g) && Allowed(g, e)
    ensures JoinView(Next(g, e))
  {
    hide Record, NextAction, LockAfter;
  }

  // ----- the latch -----

  ghost predicate TaskSeen(t: Task, l: Latch) {
    t.Running? ==> SeenInRange(t.waiter, l)
  }

  predicate Sleeps(t: Task, l: Latch) {
    t.Running? && Asleep(t.waiter, l)
  }

  /** A task sleeps under a set flag only while the stopping caller still owes the notification. */
  ghost predicate LatchView(g: Gateway) {
    && (forall h :: 0 <= h < |g.tasks| ==> TaskSeen(g.tasks[h], g.latch))
    && (g.latch.triggered && !Holder(g).StopNotify? ==> forall h :: 0 <= h < |g.tasks| ==> !Sleeps(g.tasks[h], g.latch))
  }

  lemma TaskLatch(t: Task, l: Latch, m: Move)
    requires TaskAllowed(t, l, m) && TaskSeen(t, l)
    ensures TaskSeen(TaskAfter(t, l, m), l)
    ensures l.triggered && Sleeps(TaskAfter(t, l, m), l) ==> Sleeps(t, l)
  {
  }

  lemma EffectLatch(g: Gateway, c: Caller)
    requires forall h :: 0 <= h < |g.tasks| ==> TaskSeen(g.tasks[h], g.latch)
    ensures var t := Effect(g, c);
            && (forall h :: 0 <= h < |t.tasks| ==> TaskSeen(t.tasks[h], t.latch))
            && (c.StopNotify? ==> forall h :: 0 <= h < |t.tasks| ==> !Sleeps(t.tasks[h], t.latch))
            && (!c.StopNotify? ==> t.latch.notifications == g.latch.notifications)
            && (!c.StopStore? && t.latch.triggered ==> g.latch.triggered)
            && |g.tasks| <= |t.tasks| && (forall h :: 0 <= h < |g.tasks| ==> t.tasks[h] == g.tasks[h])
            && (forall h :: |g.tasks| <= h < |t.tasks| ==> !Sleeps(t.tasks[h], t.latch))
  {
  }

  lemma CallerLatch(g: Gateway, i: nat, bindOk: bool)
    requires LatchView(g) && LockView(g) && i < |g.callers| && CallerCanStep(g, g.callers[i])
    ensures LatchView(StepCaller(g, i, bindOk))
  {
    hide Effect, Record, TaskSeen, LockAfter, HoldsLock;
    var c, t := g.callers[i], StepCaller(g, i, bindOk);
    EffectLatch(g, c);
    CallerMoves(g, i, bindOk);
    HolderMoves(g, i, bindOk);
    if t.latch.triggered && !Holder(t).StopNotify? && !c.StopNotify? {
      forall h | 0 <= h < |t.tasks| ensures !Sleeps(t.tasks[h], t.latch) {
        if h < |g.tasks| {
          assert !Sleeps(g.tasks[h], g.latch);
        }
      }
    }
  }

  lemma HolderMoves(g: Gateway, i: nat, bindOk: bool)
    requires LockView(g) && i < |g.callers| && CallerCanStep(g, g.callers[i])
    ensures var t := StepCaller(g, i, bindOk);
            && (g.callers[i].StopStore? ==> Holder(t).StopNotify?)
            && (!Holder(t).StopNotify? && !g.callers[i].StopNotify? ==> !Holder(g).StopNotify?)
  {
    hide Effect, Record;
    CallerMoves(g, i, bindOk);
  }

  lemma LatchStep(g: Gateway, e: Event)
    requires LatchView(g) && LockView(g) && Allowed(g, e)
    ensures LatchView(Next(g, e))
  {
    hide StepCaller, TaskAfter, TaskSeen, Sleeps, HoldsLock, CallerCanStep, LockAfter;
    match e
    case CallerStep(i, b) => CallerLatch(g, i, b);
    case Abandon(i) => AbandonHolder(g, i);
    case TaskStep(h, m) => TaskLatch(g.tasks[h], g.latch, m);
    case _ =>
  }

  lemma AbandonHolder(g: Gateway, i: nat)
    requires LockView(g) && i < |g.callers| && AtAwait(g.callers[i])
    ensures Holder(g).StopNotify? ==> Holder(Abandoned(g, i)).StopNotify?
  {
  }

  // ----- every interleaving -----

  ghost predicate Inv(g: Gateway) {
    LockView(g) && RecordView(g) && OwnerView(g) && JoinView(g) && LatchView(g)
  }

  lemma NewGatewayInv(configured: nat)
    ensures Inv(NewGateway(configured))
  {
    var g := NewGateway(configured);
    forall h: nat ensures Owners(g, h) == 0 {
      CopiesOne(0, h);
    }
  }

  lemma StepKeepsInv(g: Gateway, e: Event)
    requires Inv(g) && Allowed(g, e)
    ensures Inv(Next(g, e))
  {
    hide LockView, RecordView, OwnerView, JoinView, LatchView, Next;
    LockStep(g, e);
    RecordStep(g, e);
    OwnerStep(g, e);
    JoinStep(g, e);
    LatchStep(g, e);
  }

  lemma {:induction false} RunKeepsInv(g: Gateway, run: seq<Event>)
    requires Inv(g) && Legal(g, run)
    ensures Inv(Final(g, run))
    decreases |run|
  {
    hide Inv, Next;
    if run != [] {
      StepKeepsInv(g, run[0]);
      RunKeepsInv(Next(g, run[0]), run[1..]);
    }
  }

  /** Over all interleavings of `start` and `stop`: every spawned task's handle is in exactly one
      place (the record, one joining caller, joined, or dropped by a cancelled `stop`), so it is joined
      at most once, and only when finished; and whenever the lock is free a set `running` flag means
      server, metrics and one handle per configured listener are held, a clear one that none is. */
  lemma LifecycleOwnership(configured: nat, run: seq<Event>)
    requires Legal(NewGateway(configured), run)
    ensures var g := Final(NewGateway(configured), run);
            && (forall h: nat :: Owners(g, h) == if h < |g.tasks| then 1 else 0)
            && (forall h: nat :: Copies(g.joined, h) <= 1)
            && (forall k :: 0 <= k < |g.joined| ==> g.joined[k] < |g.tasks| && g.tasks[g.joined[k]].Finished?)
            && (g.lock == None ==> if g.running then Full(g) else Empty(g))
  {
    hide Copies, QueueCopies;
    NewGatewayInv(configured);
    RunKeepsInv(NewGateway(configured), run);
    var g := Final(NewGateway(configured), run);
    forall h: nat ensures Copies(g.joined, h) <= 1 {
      assert Owners(g, h) <= 1;
    }
  }

  // ----- a start that cannot bind -----

  /** No step of caller `i` in the run spawns a task or touches the runtime record. */
  ghost predicate LeavesNothing(g: Gateway, run: seq<Event>, i: nat)
    requires Legal(g, run)
    decreases |run|
  {
    run != [] ==>
      var t := Next(g, run[0]);
      && (run[0].CallerStep? && run[0].caller == i ==> t.tasks == g.tasks && SameRecord(g, t))
      && LeavesNothing(t, run[1..], i)
  }

  ghost predicate CannotBind(run: seq<Event>, i: nat) {
    forall k :: 0 <= k < |run| && run[k].CallerStep? && run[k].caller == i ==> !run[k].bindOk
  }

  /** Where a `start` can be as long as it cannot bind. */
  predicate Unbound(c: Caller) {
    c.StartLock? || c.StartCheck? || c.StartReset? || c.StartBind? || c.Done?
  }

  lemma UnboundStep(g: Gateway, e: Event, i: nat)
    requires Allowed(g, e) && i < |g.callers| && Unbound(g.callers[i])
    requires e.CallerStep? && e.caller == i ==> !e.bindOk
    ensures var t := Next(g, e);
            && i < |t.callers| && Unbound(t.callers[i])
            && (e.CallerStep? && e.caller == i ==> t.tasks == g.tasks && SameRecord(g, t))
  {
    hide Record, LockAfter, TaskAfter;
  }

  lemma {:induction false} UnboundRun(g: Gateway, run: seq<Event>, i: nat)
    requires Legal(g, run) && i < |g.callers| && Unbound(g.callers[i]) && CannotBind(run, i)
    ensures LeavesNothing(g, run, i)
    ensures i < |Final(g, run).callers| && Unbound(Final(g, run).callers[i])
    decreases |run|
  {
    hide Next, Allowed, SameRecord, Unbound;
    if run != [] {
      UnboundStep(g, run[0], i);
      UnboundRun(Next(g, run[0]), run[1..], i);
    }
  }

  /** A `start` that cannot bind, from its call on and in every interleaving: it spawns no task, leaves
      the runtime record as it finds it, and gives the lock back when it returns; and when its bind
      fails the gateway is stopped and the record empty. */
  lemma FailedBindLeavesNothing(g: Gateway, run: seq<Event>)
    requires Inv(g) && Legal(Next(g, CallStart), run) && CannotBind(run, |g.callers|)
    ensures var i, s := |g.callers|, Next(g, CallStart);
            var t := Final(s, run);
            && LeavesNothing(s, run, i)
            && i < |t.callers| && Unbound(t.callers[i])
            && (t.callers[i].Done? ==> t.lock != Some(i))
            && (t.callers[i].StartBind? ==>
                 var u := StepCaller(t, i, false);
                 u.tasks == t.tasks && u.lock == None && !u.running && Empty(u) && u.callers[i] == Done)
  {
    hide RecordView, OwnerView, JoinView, LatchView, StepCaller;
    var i, s := |g.callers|, Next(g, CallStart);
    StepKeepsInv(g, CallStart);
    RunKeepsInv(s, run);
    UnboundRun(s, run, i);
    var t := Final(s, run);
    if t.callers[i].StartBind? {
      FailedBind(t, i);
    }
  }

  lemma FailedBind(g: Gateway, i: nat)
    requires Inv(g) && i < |g.callers| && g.callers[i] == StartBind
    ensures var t := StepCaller(g, i, false);
            t.tasks == g.tasks && t.lock == None && !t.running && Empty(t) && t.callers[i] == Done
  {
    assert Holder(g) == StartBind;
  }
}
