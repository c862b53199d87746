/** What happens to a draining `stop` when a `start` clears the flag: joins happen after `stop` has
    released the lock, so a `start` may run meanwhile and clear the flag before a notified task has read
    it again. That task goes back to sleep, and the `stop` waits for it. The `stop` can complete on its
    own exactly when every task it still joins is past its `wait` when the flag is cleared.

    `start` clears the flag before it binds, and while the old server still listens the bind fails. The
    gateway is then not running, so no later `stop` sends the signal again: the waiting one is wedged. */
module OverlappingStart {
  import opened Text
  import opened ShutdownLatch
  import opened GatewayLifecycle
  import opened GatewayDrain

  ghost predicate Reachable(configured: nat, g: Gateway) {
    exists run: seq<Event> :: Legal(NewGateway(configured), run) && Final(NewGateway(configured), run) == g
  }

  lemma {:induction false} Extend(g: Gateway, run: seq<Event>, e: Event)
    requires Legal(g, run) && Allowed(Final(g, run), e)
    ensures Legal(g, run + [e]) && Final(g, run + [e]) == Next(Final(g, run), e)
    decreases |run|
  {
    hide Next, Allowed;
    var longer := run + [e];
    if run == [] {
      assert longer == [e] && longer[1..] == [];
    } else {
      assert longer[0] == run[0] && longer[1..] == run[1..] + [e];
      Extend(Next(g, run[0]), run[1..], e);
    }
  }

  lemma Reach(configured: nat, g: Gateway, e: Event)
    requires Reachable(configured, g) && Allowed(g, e)
    ensures Reachable(configured, Next(g, e))
  {
    hide Next, Allowed;
    var run :| Legal(NewGateway(configured), run) && Final(NewGateway(configured), run) == g;
    Extend(NewGateway(configured), run, e);
  }

  // ----- tasks that need no signal any more -----

  predicate PastWait(t: Task) {
    t.Finished? || t.Draining? || (t.Running? && t.waiter.Returned?)
  }

  lemma PastWaitDrains(t: Task, l: Latch, m: Move)
    requires TaskAllowed(t, l, m) && PastWait(t)
    ensures PastWait(TaskAfter(t, l, m)) && StepsToEnd(TaskAfter(t, l, m)) + 1 <= StepsToEnd(t) <= 2
  {
  }

  predicate Waiting(g: Gateway, h: nat) {
    h < |g.tasks| && !PastWait(g.tasks[h])
  }

  /** `stop` number `c` is joining, or has returned, and every task it still joins is past its `wait`. */
  ghost predicate AllPast(g: Gateway, c: nat) {
    QueueKnown(g, c) && forall h :: h in Queue(g.callers[c]) ==> !Waiting(g, h)
  }

  lemma PastTaskStep(g: Gateway, h: nat, m: Move, c: nat)
    requires AllPast(g, c) && h < |g.tasks| && TaskAllowed(g.tasks[h], g.latch, m)
    ensures var e := TaskStep(h, m);
            var t := Next(g, e);
            AllPast(t, c) && DrainLeft(t, c) + (if DrainStep(g, c, e) then 1 else 0) <= DrainLeft(g, c)
  {
    hide StepsToEnd, TaskAfter, TaskAllowed, PastWait;
    var q := Queue(g.callers[c]);
    if h in q {
      PastWaitDrains(g.tasks[h], g.latch, m);
    }
    QueueStepsMove(g.tasks, h, TaskAfter(g.tasks[h], g.latch, m), q);
  }

  lemma PastCallerStep(g: Gateway, i: nat, b: bool, c: nat)
    requires AllPast(g, c) && i < |g.callers| && CallerCanStep(g, g.callers[i])
    ensures var e := CallerStep(i, b);
            var t := Next(g, e);
            AllPast(t, c) && DrainLeft(t, c) + (if DrainStep(g, c, e) then 1 else 0) <= DrainLeft(g, c)
  {
    hide StepsToEnd, PastWait, DrainLeft, LockAfter, Record;
    if i == c {
      DrainOwnStep(g, b, c);
      var q, t := Queue(g.callers[c]), StepCaller(g, i, b);
      assert t.tasks == g.tasks && forall h :: h in Queue(t.callers[c]) ==> h in q;
    } else {
      DrainOtherStep(g, i, b, c);
    }
  }

  /** Resets included, nothing but cancelling the `stop` holds its drain up. */
  lemma PastOneStep(g: Gateway, e: Event, c: nat)
    requires AllPast(g, c) && Allowed(g, e) && e != Abandon(c)
    ensures var t := Next(g, e);
            AllPast(t, c) && DrainLeft(t, c) + (if DrainStep(g, c, e) then 1 else 0) <= DrainLeft(g, c)
  {
    hide StepCaller, TaskAfter, StepsToEnd, LockAfter, CallerCanStep, PastWait;
    match e
    case CallerStep(i, b) => PastCallerStep(g, i, b, c);
    case TaskStep(h, m) => PastTaskStep(g, h, m, c);
    case Abandon(i) => assert Next(g, e).callers[c] == g.callers[c];
    case _ => assert Next(g, e).callers[c] == g.callers[c];
  }

  lemma {:induction false} PastRun(g: Gateway, run: seq<Event>, c: nat)
    requires AllPast(g, c) && Legal(g, run) && Abandon(c) !in run
    ensures AllPast(Final(g, run), c)
    ensures DrainSteps(g, run, c) + DrainLeft(Final(g, run), c) <= DrainLeft(g, c)
    decreases |run|
  {
    hide Next, AllPast, DrainLeft, DrainStep, Allowed;
    if run != [] {
      PastOneStep(g, run[0], c);
      PastRun(Next(g, run[0]), run[1..], c);
    }
  }

  lemma PastProgress(g: Gateway, c: nat)
    requires AllPast(g, c)
    ensures var e := NextDrain(g, c);
            g.callers[c].Done? || (Allowed(g, e) && DrainStep(g, c, e) && !Rescue(g, e, c))
    ensures DrainLeft(g, c) == 0 <==> g.callers[c].Done?
  {
    hide QueueSteps;
    var q := Queue(g.callers[c]);
    if q != [] {
      assert q[0] in q && PastWait(g.tasks[q[0]]);
    }
  }

  lemma {:induction false} PastBound(tasks: seq<Task>, q: seq<nat>)
    requires forall k :: 0 <= k < |q| ==> q[k] < |tasks| && PastWait(tasks[q[k]])
    ensures QueueSteps(tasks, q) <= 3 * |q|
  {
    if q != [] {
      assert PastWait(tasks[q[0]]);
      PastBound(tasks, q[1..]);
    }
  }

  /** A `stop` all of whose tasks are past their `wait` completes in every run, whatever `start` does:
      at most three steps per task and one more, and one is possible until it has returned. */
  lemma PastStopCompletes(g: Gateway, c: nat, run: seq<Event>)
    requires AllPast(g, c) && Legal(g, run) && Abandon(c) !in run
    ensures var t := Final(g, run);
            var bound := 3 * |Queue(g.callers[c])| + 1;
            && DrainSteps(g, run, c) <= bound
            && c < |t.callers|
            && (t.callers[c].Done? || (Allowed(t, NextDrain(t, c)) && DrainStep(t, c, NextDrain(t, c))))
            && (DrainSteps(g, run, c) == bound ==> t.callers[c].Done?)
  {
    hide PastWait, StepsToEnd, NextDrain, DrainStep;
    PastRun(g, run, c);
    var q := Queue(g.callers[c]);
    forall k | 0 <= k < |q| ensures PastWait(g.tasks[q[k]]) {
      assert q[k] in q && !Waiting(g, q[k]);
    }
    PastBound(g.tasks, Queue(g.callers[c]));
    PastProgress(Final(g, run), c);
  }

  // ----- a stuck stop -----

  /** `stop` number `c` is joining under a clear flag, and a task it waits for is not past its `wait`. */
  ghost predicate Stuck(g: Gateway, c: nat) {
    && !g.latch.triggered && QueueKnown(g, c) && g.callers[c].StopJoin?
    && exists h :: h in Queue(g.callers[c]) && Waiting(g, h)
  }

  /** A new trigger, a crash of a task being joined, or dropping the caller: the only ways out. */
  predicate Rescue(g: Gateway, e: Event, c: nat)
    requires c < |g.callers|
  {
    match e
    case CallerStep(i, _) => i < |g.callers| && g.callers[i].StopStore?
    case TaskStep(h, m) => m.Crash? && h in Queue(g.callers[c])
    case Abandon(i) => i == c
    case _ => false
  }

  /** A clear flag lets no task past its `wait`. */
  lemma StillWaiting(t: Task, l: Latch, m: Move)
    requires TaskAllowed(t, l, m) && !PastWait(t) && !l.triggered && !m.Crash?
    ensures !PastWait(TaskAfter(t, l, m))
  {
  }

  lemma StuckCaller(g: Gateway, i: nat, b: bool, c: nat)
    requires Stuck(g, c) && i < |g.callers| && CallerCanStep(g, g.callers[i]) && !g.callers[i].StopStore?
    ensures Stuck(StepCaller(g, i, b), c)
  {
    hide Record, LockAfter;
    var t, q := StepCaller(g, i, b), Queue(g.callers[c]);
    var h :| h in q && Waiting(g, h);
    assert Waiting(t, h);
    if i == c {
      assert q == [q[0]] + q[1..] && h in q[1..] && t.callers[c] == StopJoin(q[1..]);
    } else {
      assert t.callers[c] == g.callers[c];
    }
  }

  lemma StuckStep(g: Gateway, e: Event, c: nat)
    requires Stuck(g, c) && Allowed(g, e) && !Rescue(g, e, c)
    ensures Stuck(Next(g, e), c)
  {
    hide StepCaller, TaskAfter, TaskAllowed, CallerCanStep, LockAfter, PastWait;
    var t := Next(g, e);
    var w :| w in Queue(g.callers[c]) && Waiting(g, w);
    match e
    case CallerStep(i, b) => StuckCaller(g, i, b, c);
    case TaskStep(h, m) =>
      if h == w {
        StillWaiting(g.tasks[h], g.latch, m);
      }
      assert t.callers[c] == g.callers[c] && Waiting(t, w);
    case _ => assert t.callers[c] == g.callers[c] && Waiting(t, w);
  }

  ghost predicate NoRescue(g: Gateway, run: seq<Event>, c: nat)
    requires Legal(g, run)
    decreases |run|
  {
    run != [] ==> (c < |g.callers| ==> !Rescue(g, run[0], c)) && NoRescue(Next(g, run[0]), run[1..], c)
  }

  lemma {:induction false} StuckForGood(g: Gateway, run: seq<Event>, c: nat)
    requires Stuck(g, c) && Legal(g, run) && NoRescue(g, run, c)
    ensures Stuck(Final(g, run), c)
    decreases |run|
  {
    hide Next, Allowed, Rescue, PastWait;
    if run != [] {
      StuckStep(g, run[0], c);
      StuckForGood(Next(g, run[0]), run[1..], c);
    }
  }

  // ----- exactly when a stop completes under a clear flag -----

  /** Some run without a rescue brings `stop` number `c` to its end. */
  ghost predicate CanComplete(g: Gateway, c: nat) {
    exists run: seq<Event> :: Completes(g, run, c)
  }

  ghost predicate Completes(g: Gateway, run: seq<Event>, c: nat) {
    Legal(g, run) && NoRescue(g, run, c) && c < |Final(g, run).callers| && Final(g, run).callers[c].Done?
  }

  /** The run that does nothing but drain. */
  lemma {:induction false} DrainAlone(g: Gateway, c: nat) returns (run: seq<Event>)
    requires AllPast(g, c)
    ensures Completes(g, run, c)
    decreases DrainLeft(g, c)
  {
    hide Next, Allowed, DrainLeft, Rescue, NextDrain, PastWait;
    PastProgress(g, c);
    if g.callers[c].Done? {
      run := [];
    } else {
      var e := NextDrain(g, c);
      NotAbandoned(g, c);
      PastOneStep(g, e, c);
      var rest := DrainAlone(Next(g, e), c);
      run := [e] + rest;
      assert run[0] == e && run[1..] == rest;
    }
  }

  lemma NotAbandoned(g: Gateway, c: nat)
    requires c < |g.callers|
    ensures !NextDrain(g, c).Abandon?
  {
  }

  /** Under a clear flag a joining `stop` can complete without a rescue exactly when every task it still
      joins is past its `wait`; otherwise it stays stuck in every such run. */
  lemma ClearFlagCompletion(g: Gateway, c: nat)
    requires QueueKnown(g, c) && g.callers[c].StopJoin? && !g.latch.triggered
    ensures CanComplete(g, c) <==> AllPast(g, c)
    ensures !AllPast(g, c) <==> Stuck(g, c)
    ensures !AllPast(g, c) ==> forall run :: Legal(g, run) && NoRescue(g, run, c) ==> Stuck(Final(g, run), c)
  {
    hide PastWait, Legal, Final, NoRescue;
    if AllPast(g, c) {
      var run := DrainAlone(g, c);
    } else {
      forall run | Legal(g, run) && NoRescue(g, run, c) ensures Stuck(Final(g, run), c) {
        StuckForGood(g, run, c);
      }
    }
  }

  /** So the moment that decides is the reset inside an overlapping `start`: a draining `stop` can
      complete on its own afterwards exactly when all its tasks were past their `wait` before. */
  lemma ResetDecides(g: Gateway, i: nat, b: bool, c: nat)
    requires QueueKnown(g, c) && g.callers[c].StopJoin? && i < |g.callers| && g.callers[i].StartReset?
    ensures CanComplete(StepCaller(g, i, b), c) <==> AllPast(g, c)
  {
    hide Record, LockAfter, CanComplete, PastWait;
    ClearFlagCompletion(StepCaller(g, i, b), c);
  }

  // ----- no later stop helps -----

  /** A `start` that has bound and is spawning tasks. */
  predicate Starting(c: Caller) {
    c.StartSpawnMetrics? || c.StartSpawnListener? || c.StartSetRunning?
  }

  /** A stuck `stop` in a gateway that is not running, with no `start` past its bind. */
  ghost predicate Wedged(g: Gateway, c: nat) {
    Inv(g) && Stuck(g, c) && !g.running && forall i :: 0 <= i < |g.callers| ==> !Starting(g.callers[i])
  }

  predicate Binds(g: Gateway, e: Event) {
    e.CallerStep? && e.bindOk && e.caller < |g.callers| && g.callers[e.caller].StartBind?
  }

  /** A successful bind, a crash of a task being joined, or dropping the caller. */
  predicate WayOut(g: Gateway, e: Event, c: nat)
    requires c < |g.callers|
  {
    match e
    case CallerStep(i, _) => Binds(g, e)
    case TaskStep(h, m) => m.Crash? && h in Queue(g.callers[c])
    case Abandon(i) => i == c
    case _ => false
  }

  /** In a stopped gateway nobody is about to send the signal. */
  lemma NobodyTriggers(g: Gateway, i: nat)
    requires Inv(g) && !g.running && i < |g.callers|
    ensures !g.callers[i].StopStore? && !g.callers[i].StopNotify? && !g.callers[i].StopTake?
  {
    hide OwnerView, JoinView, LatchView, Full, Empty;
    assert HoldsLock(g.callers[i]) ==> Holder(g) == g.callers[i];
  }

  lemma StaysStopped(g: Gateway, e: Event, c: nat)
    requires Wedged(g, c) && Allowed(g, e) && !WayOut(g, e, c)
    ensures var t := Next(g, e);
            !t.running && forall i :: 0 <= i < |t.callers| ==> !Starting(t.callers[i])
  {
    hide Inv, Stuck, Record, LockAfter, TaskAfter;
  }

  /** Nothing but a way out ends it; no trigger is ever possible. */
  lemma WedgedStep(g: Gateway, e: Event, c: nat)
    requires Wedged(g, c) && Allowed(g, e) && !WayOut(g, e, c)
    ensures Wedged(Next(g, e), c)
  {
    hide Inv, Stuck, Next, Allowed;
    StepKeepsInv(g, e);
    StaysStopped(g, e, c);
    if e.CallerStep? && e.caller < |g.callers| {
      NobodyTriggers(g, e.caller);
    }
    StuckStep(g, e, c);
  }

  ghost predicate NoWayOut(g: Gateway, run: seq<Event>, c: nat)
    requires Legal(g, run)
    decreases |run|
  {
    run != [] ==> (c < |g.callers| ==> !WayOut(g, run[0], c)) && NoWayOut(Next(g, run[0]), run[1..], c)
  }

  lemma WedgedExists(g: Gateway, c: nat)
    requires Wedged(g, c)
    ensures c < |g.callers| && !g.callers[c].Done?
  {
  }

  /** However often `start` and `stop` are called, the wedged `stop` does not return. */
  lemma {:induction false} WedgedForGood(g: Gateway, run: seq<Event>, c: nat)
    requires Wedged(g, c) && Legal(g, run) && NoWayOut(g, run, c)
    ensures Wedged(Final(g, run), c)
    decreases |run|
  {
    hide Next, Allowed, Wedged, WayOut;
    if run != [] {
      WedgedExists(g, c);
      WedgedStep(g, run[0], c);
      WedgedForGood(Next(g, run[0]), run[1..], c);
    }
  }

  /** A server that has not been told to stop owns the port. */
  predicate Listens(t: Task) {
    t.kind == Server && t.Running? && !t.waiter.Returned?
  }

  /** Binds succeed only while no server listens on the port; no joined task crashes, and `stop` number
      `c` is not cancelled. */
  ghost predicate PortTaken(g: Gateway, run: seq<Event>, c: nat)
    requires Legal(g, run)
    decreases |run|
  {
    run != [] ==>
      && (Binds(g, run[0]) ==> forall h :: 0 <= h < |g.tasks| ==> !Listens(g.tasks[h]))
      && (c < |g.callers| && !run[0].CallerStep? ==> !WayOut(g, run[0], c))
      && PortTaken(Next(g, run[0]), run[1..], c)
  }

  /** A joined server of the wedged `stop` keeps listening. */
  ghost predicate ServerSleeps(g: Gateway, c: nat, h: nat) {
    c < |g.callers| && h in Queue(g.callers[c]) && h < |g.tasks| && Listens(g.tasks[h])
  }

  lemma ServerSleepsOn(g: Gateway, e: Event, c: nat, h: nat)
    requires Wedged(g, c) && ServerSleeps(g, c, h) && Allowed(g, e) && !WayOut(g, e, c)
    ensures ServerSleeps(Next(g, e), c, h)
  {
    hide Inv, Record, LockAfter;
    if e.CallerStep? && e.caller == c {
      var q := Queue(g.callers[c]);
      assert q == [q[0]] + q[1..] && h != q[0];
    }
  }

  /** When the sleeper is the old server, its port makes every further bind fail: then only a crash or a
      cancellation ever ends the `stop`. */
  lemma {:induction false} WedgedByServer(g: Gateway, run: seq<Event>, c: nat, h: nat)
    requires Wedged(g, c) && ServerSleeps(g, c, h) && Legal(g, run) && PortTaken(g, run, c)
    ensures Wedged(Final(g, run), c) && ServerSleeps(Final(g, run), c, h)
    decreases |run|
  {
    hide Next, Allowed, Wedged;
    if run != [] {
      WedgedExists(g, c);
      assert !Binds(g, run[0]);
      WedgedStep(g, run[0], c);
      ServerSleepsOn(g, run[0], c, h);
      WedgedByServer(Next(g, run[0]), run[1..], c, h);
    }
  }

  // ----- a run that gets there, in a gateway without listeners -----

  /** A whole `start` of a stopped gateway, with nothing interleaved. */
  function AfterStart(g: Gateway): Gateway {
    var n := |g.tasks|;
    g.(latch := g.latch.(triggered := false), callers := g.callers + [Done], running := true,
       metrics := Some(n), server := Some(n + 1),
       tasks := g.tasks + [Running(Metrics, Session, Outside), Running(Server, Session, Outside)])
  }

  /** The gateway part-way through it: the caller's next action and the lock it holds. */
  function During(g: Gateway, c: Caller): Gateway {
    g.(callers := g.callers + [c], lock := Some(|g.callers|))
  }

  lemma DuringStep(g: Gateway, t: Gateway, c: Caller)
    requires Reachable(0, During(g, c)) && HoldsLock(c) && c != StartSetRunning
    requires t == Effect(g, c) && HoldsLock(NextAction(g, c, true))
    requires !c.StopTake?
    ensures Reachable(0, During(t, NextAction(g, c, true)))
  {
    var d, i := During(g, c), |g.callers|;
    var e := CallerStep(i, true);
    assert d.callers[i] == c;
    Reach(0, d, e);
    assert d.callers[i := NextAction(g, c, true)] == g.callers + [NextAction(g, c, true)];
    assert Next(d, e) == During(t, NextAction(g, c, true));
  }

  /** A `start` of a stopped gateway up to its bind. */
  lemma ReachBind(g: Gateway)
    requires Reachable(0, g) && g.lock == None && !g.running
    ensures Reachable(0, During(g.(latch := g.latch.(triggered := false)), StartBind))
  {
    hide Reachable;
    Reach(0, g, CallStart);
    var g0, i := Next(g, CallStart), |g.callers|;
    Reach(0, g0, CallerStep(i, true));
    assert g0.callers[i := StartCheck] == g.callers + [StartCheck];
    assert Next(g0, CallerStep(i, true)) == During(g, StartCheck);
    DuringStep(g, g, StartCheck);
    var g1 := g.(latch := g.latch.(triggered := false));
    DuringStep(g, g1, StartReset);
  }

  lemma ReachAfterStart(g: Gateway)
    requires Reachable(0, g) && g.lock == None && !g.running && g.configured == 0 && Empty(g)
    ensures Reachable(0, AfterStart(g))
  {
    hide Reachable;
    ReachBind(g);
    var g1 := g.(latch := g.latch.(triggered := false));
    DuringStep(g1, g1, StartBind);
    var g2 := Effect(g1, StartSpawnMetrics);
    DuringStep(g1, g2, StartSpawnMetrics);
    var g3 := Effect(g2, StartSpawnListener(0));
    DuringStep(g2, g3, StartSpawnListener(0));
    StartEnds(g3);
    assert g3.tasks == AfterStart(g).tasks;
  }

  lemma StartEnds(g: Gateway)
    requires Reachable(0, During(g, StartSetRunning))
    ensures Reachable(0, g.(callers := g.callers + [Done], running := true, lock := None))
  {
    var d, e := During(g, StartSetRunning), CallerStep(|g.callers|, true);
    Reach(0, d, e);
    assert d.callers[|g.callers| := Done] == g.callers + [Done];
  }

  /** A whole `stop` up to its joins. */
  function AfterTake(g: Gateway): Gateway {
    g.(latch := Latch(true, g.latch.notifications + 1), callers := g.callers + [StopJoin(Record(g))],
       running := false, server := None, metrics := None, listeners := [])
  }

  lemma ReachAfterTake(g: Gateway)
    requires Reachable(0, g) && g.lock == None && g.running
    ensures Reachable(0, AfterTake(g))
  {
    hide Record;
    Reach(0, g, CallStop);
    var g0, i := Next(g, CallStop), |g.callers|;
    Reach(0, g0, CallerStep(i, true));
    assert g0.callers[i := StopCheck] == g.callers + [StopCheck];
    assert Next(g0, CallerStep(i, true)) == During(g, StopCheck);
    DuringStep(g, g, StopCheck);
    var g1 := Effect(g, StopStore);
    DuringStep(g, g1, StopStore);
    var g2 := Effect(g1, StopNotify);
    DuringStep(g1, g2, StopNotify);
    TakeEnds(g2);
    assert g2 == g.(latch := g2.latch);
    RecordOfSlots(g, g2);
  }

  lemma RecordOfSlots(g: Gateway, t: Gateway)
    requires t == g.(latch := t.latch)
    ensures Record(t) == Record(g)
  {
  }

  lemma TakeEnds(g: Gateway)
    requires Reachable(0, During(g, StopTake))
    ensures Reachable(0, g.(callers := g.callers + [StopJoin(Record(g))], running := false, server := None,
                            metrics := None, listeners := [], lock := None))
  {
    var d, e := During(g, StopTake), CallerStep(|g.callers|, true);
    Reach(0, d, e);
    assert Record(d) == Record(g);
    assert d.callers[|g.callers| := StopJoin(Record(g))] == g.callers + [StopJoin(Record(g))];
  }

  /** One step of task 1, the first server. */
  lemma ReachPoll(g: Gateway, w: Waiter)
    requires Reachable(0, g) && |g.tasks| > 1 && g.tasks[1] == Running(Server, Session, w) && CanStep(w, g.latch)
    ensures Reachable(0, g.(tasks := g.tasks[1 := Running(Server, Session, Poll(w, g.latch))]))
  {
    Reach(0, g, TaskStep(1, PollWait));
  }

  /** Task 1 at a given point of its `wait`. */
  function At(g: Gateway, w: Waiter): Gateway
    requires |g.tasks| > 1
  {
    g.(tasks := g.tasks[1 := Running(Server, Session, w)])
  }

  lemma ReachParked(g: Gateway)
    requires Reachable(0, g) && |g.tasks| > 1 && g.tasks[1] == Running(Server, Session, Outside) && !g.latch.triggered
    ensures Reachable(0, At(g, Parked(g.latch.notifications)))
  {
    hide Reachable;
    var k := g.latch.notifications;
    ReachPoll(g, Outside);
    ReachPoll(At(g, Created(k)), Created(k));
    assert At(At(g, Created(k)), Enabled(k)) == At(g, Enabled(k));
    ReachPoll(At(g, Enabled(k)), Enabled(k));
    assert At(At(g, Enabled(k)), Parked(k)) == At(g, Parked(k));
  }

  /** A whole `start` of a stopped gateway that fails to bind. */
  function AfterFailedStart(g: Gateway): Gateway {
    g.(latch := g.latch.(triggered := false), callers := g.callers + [Done])
  }

  lemma ReachAfterFailedStart(g: Gateway)
    requires Reachable(0, g) && g.lock == None && !g.running
    ensures Reachable(0, AfterFailedStart(g))
  {
    hide Reachable;
    ReachBind(g);
    var cleared, i := g.(latch := g.latch.(triggered := false)), |g.callers|;
    var d, e := During(cleared, StartBind), CallerStep(i, false);
    assert d.callers[i] == StartBind;
    Reach(0, d, e);
    assert d.callers[i := Done] == g.callers + [Done];
  }

  /** A reachable state in which a `stop` has set the flag, notified and taken its handles, and yet is
      wedged: a `start` cleared the flag and then failed to bind, because the old server, which had been
      notified but had not read the flag again, still listened. In every continuation in which that port
      stays taken while its server listens, no call of `start` or `stop` ever lets it return. */
  lemma OverlapBlocksStop() returns (g: Gateway)
    ensures Reachable(0, g) && !g.running && g.lock == None
    ensures |g.callers| > 1 && g.callers[1] == StopJoin([1, 0]) && Wedged(g, 1)
    ensures forall run: seq<Event> :: Legal(g, run) && PortTaken(g, run, 1) ==> Wedged(Final(g, run), 1)
  {
    hide Reachable, Stuck, Wedged, Record;
    var blank := NewGateway(0);
    FreshReachable();
    ReachAfterStart(blank);
    var started := AfterStart(blank);
    ReachParked(started);
    var waiting := At(started, Parked(0));
    ReachAfterTake(waiting);
    RecordOfTwo(waiting);
    var stopping := AfterTake(waiting);
    ReachPoll(stopping, Parked(0));
    var woken := At(stopping, Woken);
    ReachAfterFailedStart(woken);
    var failed := AfterFailedStart(woken);
    ReachPoll(failed, Woken);
    ReachParked(At(failed, Outside));
    g := At(At(failed, Outside), Parked(1));
    IsWedged(g);
    forall run: seq<Event> | Legal(g, run) && PortTaken(g, run, 1) ensures Wedged(Final(g, run), 1) {
      WedgedByServer(g, run, 1, 1);
    }
  }

  lemma RecordOfTwo(g: Gateway)
    requires g.server == Some(1) && g.metrics == Some(0) && g.listeners == []
    ensures Record(g) == [1, 0]
  {
  }

  lemma FreshReachable()
    ensures Reachable(0, NewGateway(0))
  {
    assert Legal(NewGateway(0), []) && Final(NewGateway(0), []) == NewGateway(0);
  }

  lemma IsWedged(g: Gateway)
    requires Reachable(0, g) && !g.latch.triggered && !g.running
    requires g.callers == [Done, StopJoin([1, 0]), Done]
    requires |g.tasks| > 1 && g.tasks[1] == Running(Server, Session, Parked(1))
    ensures Wedged(g, 1) && ServerSleeps(g, 1, 1)
  {
    hide Inv, Legal, Final;
    assert Queue(g.callers[1]) == [1, 0] && [1, 0][0] == 1 && Waiting(g, 1);
    NewGatewayInv(0);
    var run :| Legal(NewGateway(0), run) && Final(NewGateway(0), run) == g;
    RunKeepsInv(NewGateway(0), run);
  }
}
