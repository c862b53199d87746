/** What `start` and `stop` (`src/core/gateway.rs`) bring about when they are left to finish, in every
    interleaving and for every number of listeners: a `start` that finds the gateway stopped and binds
    leaves it running with one fresh task per slot; a `stop` that finds it running has joined every
    task of the record by the time it returns. */
module StartAndStop {
  import opened Text
  import opened ShutdownLatch
  import opened GatewayLifecycle
  import opened GatewayDrain

  // ----- start -----

  /** The own steps a `start` that binds still takes. */
  function StartLeft(c: Caller, configured: nat): int {
    match c
    case StartCheck => configured + 6
    case StartReset => configured + 5
    case StartBind => configured + 4
    case StartSpawnMetrics => configured + 3
    case StartSpawnListener(k) => configured - k + 2
    case StartSetRunning => 1
    case _ => 0
  }

  /** The tasks a `start` has spawned by now. */
  function SpawnedBy(c: Caller, configured: nat): int {
    match c
    case StartSpawnListener(k) => 1 + k
    case StartSetRunning => configured + 2
    case _ => 0
  }

  /** `start` number `i` has the lock and is on its way; `n` tasks existed when it got it. */
  ghost predicate OnTheWay(g: Gateway, i: nat, n: nat) {
    && Inv(g) && i < |g.callers| && g.lock == Some(i) && !g.running
    && 0 < StartLeft(g.callers[i], g.configured)
    && |g.tasks| == n + SpawnedBy(g.callers[i], g.configured)
    && (!g.callers[i].StartCheck? && !g.callers[i].StartReset? ==> !g.latch.triggered)
  }

  /** The gateway runs: a server, a metrics task and one listener per entry are held, the flag is clear,
      the lock is free, and exactly these tasks were spawned since there were `n`. */
  ghost predicate Started(g: Gateway, n: nat) {
    && g.running && g.lock == None && !g.latch.triggered
    && g.server.Some? && HasKind(g, g.server.value, Server)
    && g.metrics.Some? && HasKind(g, g.metrics.value, Metrics)
    && |g.listeners| == g.configured
    && (forall k :: 0 <= k < g.configured ==> HasKind(g, g.listeners[k], Listener(k)))
    && |g.tasks| == n + g.configured + 2
  }

  /** Its own step: one nearer to the end, and the gateway started at the last. */
  lemma StartOwnStep(g: Gateway, i: nat, n: nat)
    requires OnTheWay(g, i, n)
    ensures CallerCanStep(g, g.callers[i])
    ensures var t := StepCaller(g, i, true);
            && t.configured == g.configured && i < |t.callers|
            && (Inv(t) ==> if StartLeft(g.callers[i], g.configured) == 1
                           then t.callers[i] == Done && Started(t, n)
                           else OnTheWay(t, i, n)
                                && StartLeft(t.callers[i], t.configured) == StartLeft(g.callers[i], g.configured) - 1)
  {
    hide OwnerView, JoinView, LatchView, HasKind, Record;
    assert Holder(g) == g.callers[i];
  }

  /** Nobody else can interfere while it has the lock. */
  lemma StartOtherStep(g: Gateway, e: Event, i: nat, n: nat)
    requires OnTheWay(g, i, n) && Allowed(g, e) && e != Abandon(i) && !(e.CallerStep? && e.caller == i)
    ensures var t := Next(g, e);
            && t.configured == g.configured && i < |t.callers| && t.callers[i] == g.callers[i]
            && (Inv(t) ==> OnTheWay(t, i, n))
  {
    hide RecordView, OwnerView, JoinView, LatchView, Record, TaskAfter, StartLeft, SpawnedBy;
    OtherStep(g, e, i);
    if e.CallerStep? {
      assert !HoldsLock(g.callers[e.caller]);
    }
  }

  /** The first step after which `start` number `i` has returned finds the gateway started. */
  ghost predicate ReturnsStarted(g: Gateway, run: seq<Event>, i: nat, n: nat)
    requires Legal(g, run)
    decreases |run|
  {
    run != [] && i < |g.callers| && !g.callers[i].Done? ==>
      var t := Next(g, run[0]);
      if i < |t.callers| && t.callers[i].Done? then Started(t, n) else ReturnsStarted(t, run[1..], i, n)
  }

  ghost predicate Binding(run: seq<Event>, i: nat) {
    forall k :: 0 <= k < |run| && run[k].CallerStep? && run[k].caller == i ==> run[k].bindOk
  }

  lemma {:induction false} ReturnedStays(g: Gateway, run: seq<Event>, i: nat)
    requires Legal(g, run) && i < |g.callers| && g.callers[i].Done?
    ensures OwnSteps(run, i) == 0 && i < |Final(g, run).callers| && Final(g, run).callers[i].Done?
    decreases |run|
  {
    hide Next;
    if run != [] {
      DoneStays(g, run[0], i);
      ReturnedStays(Next(g, run[0]), run[1..], i);
    }
  }

  lemma DoneStays(g: Gateway, e: Event, i: nat)
    requires Allowed(g, e) && i < |g.callers| && g.callers[i].Done?
    ensures var t := Next(g, e); i < |t.callers| && t.callers[i].Done? && !(e.CallerStep? && e.caller == i)
  {
    hide StepCaller, TaskAfter;
    OtherStep(g, e, i);
  }

  lemma {:induction false} StartRun(g: Gateway, run: seq<Event>, i: nat, n: nat)
    requires OnTheWay(g, i, n) && Legal(g, run) && Abandon(i) !in run && Binding(run, i)
    ensures var t := Final(g, run);
            var left := StartLeft(g.callers[i], g.configured);
            && ReturnsStarted(g, run, i, n) && i < |t.callers|
            && OwnSteps(run, i) <= left
            && (t.callers[i].Done? <==> OwnSteps(run, i) == left)
            && (!t.callers[i].Done? ==> forall b :: Allowed(t, CallerStep(i, b)))
    decreases |run|
  {
    hide Next, Inv, StartLeft, SpawnedBy, Started;
    if run == [] {
      OnTheWayCanStep(g, i, n);
    } else {
      var e := run[0];
      assert e == Abandon(i) ==> e in run;
      StepKeepsInv(g, e);
      OnTheWayCanStep(g, i, n);
      if e.CallerStep? && e.caller == i {
        NextIsOwn(g, i);
        StartOwnStep(g, i, n);
        if StartLeft(g.callers[i], g.configured) == 1 {
          ReturnedStays(Next(g, e), run[1..], i);
        } else {
          OnTheWayCanStep(Next(g, e), i, n);
          StartRun(Next(g, e), run[1..], i, n);
        }
      } else {
        StartOtherStep(g, e, i, n);
        StartRun(Next(g, e), run[1..], i, n);
      }
    }
  }

  lemma NextIsOwn(g: Gateway, i: nat)
    requires Allowed(g, CallerStep(i, true))
    ensures Next(g, CallerStep(i, true)) == StepCaller(g, i, true)
  {
  }

  lemma OnTheWayCanStep(g: Gateway, i: nat, n: nat)
    requires OnTheWay(g, i, n)
    ensures !g.callers[i].Done? && forall b :: Allowed(g, CallerStep(i, b))
  {
    hide Inv;
  }

  /** A `start` that gets the lock of a stopped gateway and can bind, in every continuation that does not
      cancel it: it can always take its next step, returns after exactly `listeners + 6` steps of its
      own from there, and the gateway is started at the moment it does. */
  lemma StartStarts(g: Gateway, run: seq<Event>, i: nat)
    requires Inv(g) && i < |g.callers| && g.callers[i] == StartLock && g.lock == None && !g.running
    requires Legal(g, [CallerStep(i, true)] + run) && Abandon(i) !in run && Binding(run, i)
    ensures Allowed(g, CallerStep(i, true))
    ensures var s := Next(g, CallerStep(i, true));
            && Legal(s, run) && ReturnsStarted(s, run, i, |g.tasks|)
            && var t := Final(s, run);
               && i < |t.callers| && OwnSteps(run, i) <= g.configured + 6
               && (t.callers[i].Done? <==> OwnSteps(run, i) == g.configured + 6)
               && (!t.callers[i].Done? ==> forall b :: Allowed(t, CallerStep(i, b)))
  {
    hide Inv, ReturnsStarted, Started;
    var e := CallerStep(i, true);
    LockGiven(g, i);
    var all := [e] + run;
    assert all[0] == e && all[1..] == run;
    StepKeepsInv(g, e);
    StartRun(Next(g, e), run, i, |g.tasks|);
  }

  lemma LockGiven(g: Gateway, i: nat)
    requires i < |g.callers| && g.callers[i] == StartLock && g.lock == None && !g.running
    ensures Allowed(g, CallerStep(i, true))
    ensures var s := Next(g, CallerStep(i, true));
            && s.configured == g.configured && i < |s.callers|
            && StartLeft(s.callers[i], s.configured) == g.configured + 6
            && (Inv(s) ==> OnTheWay(s, i, |g.tasks|))
            && s.tasks == g.tasks
  {
    hide Inv;
  }

  // ----- its tasks are up -----

  /** The tasks spawned since there were `n` are running and have not been told to stop. */
  ghost predicate Up(g: Gateway, n: nat) {
    forall h :: n <= h < |g.tasks| ==> g.tasks[h].Running? && !g.tasks[h].waiter.Returned?
  }

  ghost predicate NoCrash(run: seq<Event>) {
    forall k :: 0 <= k < |run| && run[k].TaskStep? ==> !run[k].move.Crash?
  }

  lemma UpStep(g: Gateway, e: Event, n: nat)
    requires Up(g, n) && Allowed(g, e) && n <= |g.tasks| && (e.TaskStep? ==> !e.move.Crash? && !g.latch.triggered)
    ensures Up(Next(g, e), n) && n <= |Next(g, e).tasks|
  {
    hide NextAction, LockAfter, Record;
  }

  /** As long as `start` number `i` has not returned, and when it returns, its tasks are up. */
  ghost predicate ReturnsUp(g: Gateway, run: seq<Event>, i: nat, n: nat)
    requires Legal(g, run)
    decreases |run|
  {
    && Up(g, n)
    && (run != [] && i < |g.callers| && !g.callers[i].Done? ==> ReturnsUp(Next(g, run[0]), run[1..], i, n))
  }

  lemma {:induction false} UpRun(g: Gateway, run: seq<Event>, i: nat, n: nat)
    requires OnTheWay(g, i, n) && Up(g, n) && n <= |g.tasks|
    requires Legal(g, run) && Abandon(i) !in run && Binding(run, i) && NoCrash(run)
    ensures ReturnsUp(g, run, i, n)
    decreases |run|
  {
    hide Next, Inv, StartLeft, SpawnedBy, Started, Up;
    if run != [] {
      var e := run[0];
      assert e == Abandon(i) ==> e in run;
      StepKeepsInv(g, e);
      OnTheWayCanStep(g, i, n);
      if e.TaskStep? && (g.callers[i].StartCheck? || g.callers[i].StartReset?) {
        NothingNew(g, e, i, n);
      } else {
        UpStep(g, e, n);
      }
      if e.CallerStep? && e.caller == i {
        NextIsOwn(g, i);
        StartOwnStep(g, i, n);
        if StartLeft(g.callers[i], g.configured) != 1 {
          UpRun(Next(g, e), run[1..], i, n);
        }
      } else {
        StartOtherStep(g, e, i, n);
        UpRun(Next(g, e), run[1..], i, n);
      }
    }
  }

  /** Before the bind no task is new. */
  lemma NothingNew(g: Gateway, e: Event, i: nat, n: nat)
    requires OnTheWay(g, i, n) && Allowed(g, e) && e.TaskStep?
    requires g.callers[i].StartCheck? || g.callers[i].StartReset?
    ensures Up(Next(g, e), n) && n <= |Next(g, e).tasks|
  {
    hide Inv;
  }

  /** And unless one of them crashes on its own, all tasks of a `start` are up when it returns. */
  lemma StartedTasksAreUp(g: Gateway, run: seq<Event>, i: nat)
    requires Inv(g) && i < |g.callers| && g.callers[i] == StartLock && g.lock == None && !g.running
    requires Legal(g, [CallerStep(i, true)] + run) && Abandon(i) !in run && Binding(run, i) && NoCrash(run)
    ensures var s := Next(g, CallerStep(i, true)); Legal(s, run) && ReturnsUp(s, run, i, |g.tasks|)
  {
    hide Inv, ReturnsUp;
    var e := CallerStep(i, true);
    LockGiven(g, i);
    var all := [e] + run;
    assert all[0] == e && all[1..] == run;
    StepKeepsInv(g, e);
    UpRun(Next(g, e), run, i, |g.tasks|);
  }

  /** A `start` of a running gateway returns at once and changes nothing. */
  lemma StartRefusedWhenRunning(g: Gateway, i: nat, b: bool)
    requires i < |g.callers| && g.callers[i] == StartCheck && g.running && g.lock == Some(i)
    ensures StepCaller(g, i, b) == g.(callers := g.callers[i := Done], lock := None)
  {
  }

  // ----- stop -----

  /** `stop` number `c` and the handles `r` that the record held when it got the lock: still there, or in
      its queue, or joined. */
  ghost predicate Keeps(g: Gateway, c: nat, r: seq<nat>) {
    && Inv(g) && c < |g.callers|
    && match g.callers[c]
       case StopCheck | StopStore | StopNotify | StopTake => g.lock == Some(c) && g.running && Record(g) == r
       case StopJoin(q) =>
         |q| <= |r| && q == r[|r| - |q|..] && forall k :: 0 <= k < |r| - |q| ==> r[k] in g.joined
       case Done => forall k :: 0 <= k < |r| ==> r[k] in g.joined
       case _ => false
  }

  lemma StopOwnKeeps(g: Gateway, b: bool, c: nat, r: seq<nat>)
    requires Keeps(g, c, r) && CallerCanStep(g, g.callers[c])
    ensures Inv(StepCaller(g, c, b)) ==> Keeps(StepCaller(g, c, b), c, r)
  {
    hide Inv;
    var t := StepCaller(g, c, b);
    match g.callers[c]
    case StopJoin(q) =>
      if q != [] {
        forall k | 0 <= k < |r| - |q[1..]| ensures r[k] in t.joined {
          assert k < |r| - |q| ==> r[k] in g.joined;
          assert t.joined == g.joined + [q[0]] && q[0] == r[|r| - |q|];
        }
      }
    case StopTake => assert r[|r| - |r|..] == r;
    case _ =>
  }

  lemma StopOtherKeeps(g: Gateway, e: Event, c: nat, r: seq<nat>)
    requires Keeps(g, c, r) && Allowed(g, e) && e != Abandon(c) && !(e.CallerStep? && e.caller == c)
    ensures Inv(Next(g, e)) ==> Keeps(Next(g, e), c, r)
  {
    hide RecordView, OwnerView, JoinView, LatchView, TaskAfter, NextAction;
    OtherStep(g, e, c);
    JoinedGrows(g, e);
    if e.CallerStep? && g.lock == Some(c) {
      assert !HoldsLock(g.callers[e.caller]);
    }
  }

  lemma JoinedGrows(g: Gateway, e: Event)
    requires Allowed(g, e)
    ensures forall h :: h in g.joined ==> h in Next(g, e).joined
  {
    hide NextAction, Record, LockAfter, TaskAfter;
  }

  lemma {:induction false} KeepsRun(g: Gateway, run: seq<Event>, c: nat, r: seq<nat>)
    requires Keeps(g, c, r) && Legal(g, run) && Abandon(c) !in run
    ensures Keeps(Final(g, run), c, r)
    decreases |run|
  {
    hide Next, Allowed, Keeps;
    if run != [] {
      var e := run[0];
      assert e == Abandon(c) ==> e in run;
      KeepsStep(g, e, c, r);
      KeepsRun(Next(g, e), run[1..], c, r);
    }
  }

  lemma KeepsStep(g: Gateway, e: Event, c: nat, r: seq<nat>)
    requires Keeps(g, c, r) && Allowed(g, e) && e != Abandon(c)
    ensures Keeps(Next(g, e), c, r)
  {
    hide Inv, StepCaller, TaskAllowed;
    StepKeepsInv(g, e);
    if e.CallerStep? && e.caller == c {
      StopOwnKeeps(g, e.bindOk, c, r);
    } else {
      StopOtherKeeps(g, e, c, r);
    }
  }

  /** A `stop` that gets the lock of a running gateway, in every continuation that does not cancel it:
      when it has returned, each of the `listeners + 2` tasks the record held is finished and joined. */
  lemma StopJoinsEverything(g: Gateway, run: seq<Event>, c: nat)
    requires Inv(g) && c < |g.callers| && g.callers[c] == StopLock && g.lock == None && g.running
    requires Legal(g, [CallerStep(c, true)] + run) && Abandon(c) !in run
    ensures Allowed(g, CallerStep(c, true))
    ensures var s := Next(g, CallerStep(c, true));
            && Legal(s, run)
            && var t := Final(s, run);
               && |Record(g)| == g.configured + 2 && c < |t.callers|
               && (t.callers[c].Done? ==> forall k :: 0 <= k < |Record(g)| ==>
                     Record(g)[k] in t.joined && Record(g)[k] < |t.tasks| && t.tasks[Record(g)[k]].Finished?)
  {
    hide LockView, OwnerView, LatchView, Record;
    var e := CallerStep(c, true);
    StopLockGiven(g, c);
    var all := [e] + run;
    assert all[0] == e && all[1..] == run;
    StepKeepsInv(g, e);
    var s := Next(g, e);
    KeepsRun(s, run, c, Record(g));
    assert Holder(g) == Done;
    RecordKnown(g);
    var t := Final(s, run);
    if t.callers[c].Done? {
      forall k | 0 <= k < |Record(g)|
        ensures Record(g)[k] in t.joined && Record(g)[k] < |t.tasks| && t.tasks[Record(g)[k]].Finished?
      {
        var j :| 0 <= j < |t.joined| && t.joined[j] == Record(g)[k];
      }
    }
  }

  lemma StopLockGiven(g: Gateway, c: nat)
    requires c < |g.callers| && g.callers[c] == StopLock && g.lock == None && g.running
    ensures Allowed(g, CallerStep(c, true))
    ensures Inv(Next(g, CallerStep(c, true))) ==> Keeps(Next(g, CallerStep(c, true)), c, Record(g))
  {
    hide Inv;
  }

  /** A `stop` of a stopped gateway returns at once and changes nothing. */
  lemma StopIdleWhenStopped(g: Gateway, c: nat, b: bool)
    requires c < |g.callers| && g.callers[c] == StopCheck && !g.running && g.lock == Some(c)
    ensures StepCaller(g, c, b) == g.(callers := g.callers[c := Done], lock := None)
  {
  }

  // ----- tasks -----

  /** How a task ends: by a crash, or after its `wait` has returned; and the server only after draining
      its connections. */
  lemma TaskEnds(t: Task, l: Latch, m: Move)
    requires TaskAllowed(t, l, m) && !m.Crash?
    ensures var u := TaskAfter(t, l, m);
            && (u.Finished? ==> t.Draining? || (t.Running? && t.kind != Server && t.waiter.Returned?))
            && (u.Draining? ==> t.kind == Server && t.Running? && t.waiter.Returned?)
            && (u.Running? && u.waiter.Returned? ==> t.Running? && l.triggered)
  {
  }

  /** Whatever a listener is doing, as long as the flag is clear it can end its session, wait out the
      backoff and open the next session. */
  lemma ListenerReconnects(k: nat, w: Waiter, l: Latch)
    requires (w == Outside || w.Parked?) && !l.triggered
    ensures var t0 := Running(Listener(k), Session, w);
            && TaskAllowed(t0, l, TakeOther)
            && TaskAfter(t0, l, TakeOther) == Running(Listener(k), Backoff, Outside)
    ensures var t1 := Running(Listener(k), Backoff, Parked(l.notifications));
            && TaskAllowed(t1, l, TakeOther)
            && TaskAfter(t1, l, TakeOther) == Running(Listener(k), Session, Outside)
    ensures Polls(Running(Listener(k), Backoff, Outside), l, 3) ==
            Running(Listener(k), Backoff, Parked(l.notifications))
  {
    assert Polls(Running(Listener(k), Backoff, Enabled(l.notifications)), l, 1)
           == Running(Listener(k), Backoff, Parked(l.notifications));
    assert Polls(Running(Listener(k), Backoff, Created(l.notifications)), l, 2)
           == Polls(Running(Listener(k), Backoff, Enabled(l.notifications)), l, 1);
  }

  /** The metrics loop can always take another tick, and goes on waiting. */
  lemma MetricsTicks(w: Waiter, l: Latch)
    requires w == Outside || w.Parked?
    ensures var t := Running(Metrics, Session, w);
            TaskAllowed(t, l, TakeOther) && TaskAfter(t, l, TakeOther) == Running(Metrics, Session, Outside)
  {
  }

  /** Dropping the future of a joining `stop` gives up the handles it has not joined, and nothing else. */
  lemma CancelledStop(g: Gateway, c: nat, q: seq<nat>)
    requires c < |g.callers| && g.callers[c] == StopJoin(q)
    ensures Allowed(g, Abandon(c))
    ensures Next(g, Abandon(c)) == g.(callers := g.callers[c := Done], dropped := g.dropped + q)
  {
  }

  /** The task after polling its `wait` up to `n` times. */
  function Polls(t: Task, l: Latch, n: nat): Task
    decreases n
  {
    if n == 0 || !TaskAllowed(t, l, PollWait) then t else Polls(TaskAfter(t, l, PollWait), l, n - 1)
  }
}
