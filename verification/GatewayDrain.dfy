/** Shutdown terminates: every `stop`, from its call on, completes in a bounded number of steps,
    provided no `start` clears the flag while it is joining. */
module GatewayDrain {
  import opened Text
  import opened ShutdownLatch
  import opened GatewayLifecycle

  // ----- the settled gateway -----

  /** The flag is set and nobody sleeps through it. */
  ghost predicate Settled(g: Gateway) {
    g.latch.triggered && forall h :: 0 <= h < |g.tasks| ==> !Sleeps(g.tasks[h], g.latch)
  }

  /** The step of `start` that clears the flag. */
  predicate IsReset(g: Gateway, e: Event) {
    e.CallerStep? && e.caller < |g.callers| && g.callers[e.caller].StartReset?
  }

  /** Nothing but that step unsettles the gateway. */
  lemma SettledStep(g: Gateway, e: Event)
    requires Settled(g) && Allowed(g, e) && !IsReset(g, e)
    ensures Settled(Next(g, e))
    ensures |g.tasks| <= |Next(g, e).tasks|
  {
    hide Record, NextAction, LockAfter;
  }

  /** When `stop` takes the handles the gateway is settled, and it takes one per task of the run. */
  lemma TakeSettles(g: Gateway, c: nat)
    requires Inv(g) && c < |g.callers| && g.callers[c].StopTake?
    ensures var t := StepCaller(g, c, true);
            && Settled(t) && t.callers[c] == StopJoin(Record(g)) && |Record(g)| == g.configured + 2
            && QueueKnown(t, c)
  {
    hide OwnerView, JoinView, HasKind;
    assert g.lock == Some(c) && Holder(g) == StopTake;
    RecordKnown(g);
  }

  lemma RecordKnown(g: Gateway)
    requires Full(g)
    ensures forall k :: 0 <= k < |Record(g)| ==> Record(g)[k] < |g.tasks|
    ensures |Record(g)| == g.configured + 2
  {
    assert forall i :: 0 <= i < |g.listeners| ==> HasKind(g, g.listeners[i], Listener(i));
  }

  // ----- how far a task is from its end -----

  /** An upper bound on the task's steps until it is finished, while the gateway is settled. */
  function StepsToEnd(t: Task): nat {
    match t
    case Finished(_) => 0
    case Draining(_) => 1
    case Running(kind, phase, waiter) =>
      (if kind == Server then 2 else 1) +
      match waiter
      case Returned => 0
      case Woken | Enabled(_) => 1
      case Created(_) => 2
      case Outside => if kind.Listener? && phase == Session then 4 else 3
      case Parked(_) => 5
  }

  /** The metrics loop taking a tick that was ready before `wait` was polled at all. */
  predicate ImmediateTick(t: Task, m: Move) {
    t.Running? && t.kind == Metrics && t.waiter.Outside? && m.TakeOther?
  }

  lemma TaskDrains(t: Task, l: Latch, m: Move)
    requires TaskAllowed(t, l, m) && l.triggered && !Sleeps(t, l)
    ensures StepsToEnd(TaskAfter(t, l, m)) + (if ImmediateTick(t, m) then 0 else 1) <= StepsToEnd(t) <= 7
  {
  }

  /** The move an unfinished task can always make. */
  function NextMove(t: Task): Move {
    match t
    case Running(_, _, w) => if w.Returned? then Exit else PollWait
    case _ => Drained
  }

  lemma TaskCanMove(t: Task, l: Latch)
    requires !t.Finished? && !Sleeps(t, l)
    ensures TaskAllowed(t, l, NextMove(t)) && !ImmediateTick(t, NextMove(t))
  {
  }

  // ----- the draining stop -----

  ghost predicate QueueKnown(g: Gateway, c: nat) {
    && c < |g.callers| && (g.callers[c].StopJoin? || g.callers[c].Done?)
    && forall k :: 0 <= k < |Queue(g.callers[c])| ==> Queue(g.callers[c])[k] < |g.tasks|
  }

  function QueueSteps(tasks: seq<Task>, q: seq<nat>): nat
    requires forall k :: 0 <= k < |q| ==> q[k] < |tasks|
  {
    if q == [] then 0 else 1 + StepsToEnd(tasks[q[0]]) + QueueSteps(tasks, q[1..])
  }

  /** An upper bound on what is left of `stop`: a join and the remaining steps for each queued task,
      and the return itself. */
  ghost function DrainLeft(g: Gateway, c: nat): nat
    requires QueueKnown(g, c)
  {
    if g.callers[c].Done? then 0 else 1 + QueueSteps(g.tasks, Queue(g.callers[c]))
  }

  /** A step of the drain: the caller's own, or one of a queued task. */
  predicate DrainStep(g: Gateway, c: nat, e: Event)
    requires c < |g.callers|
  {
    match e
    case CallerStep(i, _) => i == c
    case TaskStep(h, m) => h in Queue(g.callers[c]) && h < |g.tasks| && !ImmediateTick(g.tasks[h], m)
    case _ => false
  }

  lemma {:induction false} QueueStepsMove(tasks: seq<Task>, h: nat, t: Task, q: seq<nat>)
    requires h < |tasks| && forall k :: 0 <= k < |q| ==> q[k] < |tasks|
    requires h in q ==> StepsToEnd(t) <= StepsToEnd(tasks[h])
    ensures QueueSteps(tasks[h := t], q) <= QueueSteps(tasks, q)
    ensures h in q && StepsToEnd(t) < StepsToEnd(tasks[h]) ==> QueueSteps(tasks[h := t], q) < QueueSteps(tasks, q)
  {
    hide StepsToEnd;
    if q != [] {
      QueueStepsMove(tasks, h, t, q[1..]);
      assert h in q ==> h == q[0] || h in q[1..];
    }
  }

  lemma {:induction false} QueueStepsGrow(tasks: seq<Task>, more: seq<Task>, q: seq<nat>)
    requires forall k :: 0 <= k < |q| ==> q[k] < |tasks|
    ensures QueueSteps(tasks + more, q) == QueueSteps(tasks, q)
  {
    hide StepsToEnd;
    if q != [] {
      QueueStepsGrow(tasks, more, q[1..]);
    }
  }

  lemma {:induction false} QueueStepsBound(tasks: seq<Task>, q: seq<nat>)
    requires forall k :: 0 <= k < |q| ==> q[k] < |tasks|
    ensures QueueSteps(tasks, q) <= 8 * |q|
  {
    if q != [] {
      QueueStepsBound(tasks, q[1..]);
    }
  }

  lemma DrainTaskStep(g: Gateway, h: nat, m: Move, c: nat)
    requires Settled(g) && QueueKnown(g, c) && h < |g.tasks| && TaskAllowed(g.tasks[h], g.latch, m)
    ensures var e := TaskStep(h, m);
            var t := Next(g, e);
            QueueKnown(t, c) && DrainLeft(t, c) + (if DrainStep(g, c, e) then 1 else 0) <= DrainLeft(g, c)
  {
    hide StepsToEnd, TaskAfter, TaskAllowed;
    TaskDrains(g.tasks[h], g.latch, m);
    QueueStepsMove(g.tasks, h, TaskAfter(g.tasks[h], g.latch, m), Queue(g.callers[c]));
  }

  lemma DrainOwnStep(g: Gateway, b: bool, c: nat)
    requires QueueKnown(g, c) && CallerCanStep(g, g.callers[c])
    ensures var t := StepCaller(g, c, b);
            QueueKnown(t, c) && DrainLeft(t, c) + 1 <= DrainLeft(g, c)
  {
    hide StepsToEnd, LockAfter;
    var t, q := StepCaller(g, c, b), Queue(g.callers[c]);
    assert g.callers[c] == StopJoin(q) && t.tasks == g.tasks;
    if q == [] {
      assert t.callers[c] == Done;
    } else {
      assert t.callers[c] == StopJoin(q[1..]);
      assert QueueSteps(g.tasks, q) == 1 + StepsToEnd(g.tasks[q[0]]) + QueueSteps(g.tasks, q[1..]);
    }
  }

  lemma DrainOtherStep(g: Gateway, i: nat, b: bool, c: nat)
    requires QueueKnown(g, c) && i != c && i < |g.callers| && CallerCanStep(g, g.callers[i])
    ensures var t := StepCaller(g, i, b);
            QueueKnown(t, c) && DrainLeft(t, c) == DrainLeft(g, c)
  {
    hide StepsToEnd, LockAfter, NextAction;
    var t := StepCaller(g, i, b);
    assert t.tasks == g.tasks + t.tasks[|g.tasks|..];
    QueueStepsGrow(g.tasks, t.tasks[|g.tasks|..], Queue(g.callers[c]));
    assert t.callers[c] == g.callers[c];
  }

  lemma DrainOneStep(g: Gateway, e: Event, c: nat)
    requires Settled(g) && QueueKnown(g, c) && Allowed(g, e) && !IsReset(g, e) && e != Abandon(c)
    ensures var t := Next(g, e);
            QueueKnown(t, c) && DrainLeft(t, c) + (if DrainStep(g, c, e) then 1 else 0) <= DrainLeft(g, c)
  {
    hide StepCaller, TaskAfter, StepsToEnd, LockAfter, CallerCanStep;
    match e
    case CallerStep(i, b) =>
      if i == c { DrainOwnStep(g, b, c); } else { DrainOtherStep(g, i, b, c); }
    case TaskStep(h, m) => DrainTaskStep(g, h, m, c);
    case Abandon(i) => assert Next(g, e).callers[c] == g.callers[c];
    case _ => assert Next(g, e).callers[c] == g.callers[c];
  }

  // ----- stop completes -----

  /** A run in which no `start` clears the flag while `stop` number `c` is joining, and that `stop` is
      not itself cancelled. */
  ghost predicate Undisturbed(g: Gateway, run: seq<Event>, c: nat)
    requires Legal(g, run)
    decreases |run|
  {
    run != [] ==>
      && run[0] != Abandon(c)
      && (c < |g.callers| && g.callers[c].StopJoin? ==> !IsReset(g, run[0]))
      && Undisturbed(Next(g, run[0]), run[1..], c)
  }

  ghost function DrainSteps(g: Gateway, run: seq<Event>, c: nat): nat
    requires Legal(g, run)
    decreases |run|
  {
    if run == [] then 0
    else (if c < |g.callers| && DrainStep(g, c, run[0]) then 1 else 0) + DrainSteps(Next(g, run[0]), run[1..], c)
  }

  /** The step that brings the drain on: join, return, or a move of the task being joined. */
  function NextDrain(g: Gateway, c: nat): Event
    requires c < |g.callers|
  {
    var q := Queue(g.callers[c]);
    if q == [] || q[0] >= |g.tasks| || g.tasks[q[0]].Finished? then CallerStep(c, true)
    else TaskStep(q[0], NextMove(g.tasks[q[0]]))
  }

  predicate IsStop(c: Caller) {
    match c
    case StopLock | StopCheck | StopStore | StopNotify | StopTake | StopJoin(_) | Done => true
    case _ => false
  }

  function DrainBound(configured: nat): nat {
    8 * (configured + 2) + 1
  }

  /** A `stop` on its way: before its joins nothing is asked; at its joins the gateway is settled. */
  ghost predicate Stopping(g: Gateway, c: nat) {
    && Inv(g) && c < |g.callers| && IsStop(g.callers[c])
    && (g.callers[c].StopJoin? ==> QueueKnown(g, c) && Settled(g))
  }

  /** An upper bound on the steps of a `stop` that has not taken its handles yet, or has returned. */
  function StepsAhead(c: Caller, configured: nat): nat {
    match c
    case StopLock => DrainBound(configured) + 5
    case StopCheck => DrainBound(configured) + 4
    case StopStore => DrainBound(configured) + 3
    case StopNotify => DrainBound(configured) + 2
    case StopTake => DrainBound(configured) + 1
    case _ => 0
  }

  /** An upper bound on the steps until `stop` number `c` returns. */
  ghost function StopLeft(g: Gateway, c: nat): nat
    requires Stopping(g, c)
  {
    if g.callers[c].StopJoin? then DrainLeft(g, c) else StepsAhead(g.callers[c], g.configured)
  }

  /** The step with which `stop` takes its handles. */
  lemma TakeStep(g: Gateway, b: bool, c: nat)
    requires Stopping(g, c) && g.callers[c].StopTake?
    ensures var t := StepCaller(g, c, b);
            Inv(t) ==> Stopping(t, c) && StopLeft(t, c) + 1 <= StopLeft(g, c)
  {
    hide Inv, Record, StepsToEnd, StepCaller, Settled;
    var t := StepCaller(g, c, b);
    BindIrrelevant(g, b, c);
    TakeSettles(g, c);
    QueueStepsBound(t.tasks, Queue(t.callers[c]));
  }

  lemma BindIrrelevant(g: Gateway, b: bool, c: nat)
    requires c < |g.callers| && g.callers[c].StopTake?
    ensures StepCaller(g, c, b) == StepCaller(g, c, true)
  {
  }

  /** The steps of `stop` before it takes its handles. */
  lemma EarlyStep(g: Gateway, b: bool, c: nat)
    requires Stopping(g, c) && CallerCanStep(g, g.callers[c])
    requires !g.callers[c].StopTake? && !g.callers[c].StopJoin?
    ensures var t := StepCaller(g, c, b);
            Inv(t) ==> Stopping(t, c) && StopLeft(t, c) + 1 <= StopLeft(g, c)
  {
    hide Inv, Record, LockAfter, QueueSteps, Settled;
  }

  lemma OtherStep(g: Gateway, e: Event, c: nat)
    requires Allowed(g, e) && c < |g.callers| && e != Abandon(c) && !(e.CallerStep? && e.caller == c)
    ensures var t := Next(g, e); c < |t.callers| && t.callers[c] == g.callers[c] && t.configured == g.configured
  {
    hide Record, LockAfter, NextAction, TaskAfter;
  }

  lemma StopOneStep(g: Gateway, e: Event, c: nat)
    requires Stopping(g, c) && Allowed(g, e) && e != Abandon(c) && (g.callers[c].StopJoin? ==> !IsReset(g, e))
    ensures var t := Next(g, e);
            Stopping(t, c) && StopLeft(t, c) + (if DrainStep(g, c, e) then 1 else 0) <= StopLeft(g, c)
  {
    hide Inv, Settled, QueueKnown, StepCaller, DrainLeft, TaskAllowed, TaskAfter;
    StepKeepsInv(g, e);
    if g.callers[c].StopJoin? {
      SettledStep(g, e);
      DrainOneStep(g, e, c);
      StillStopping(Next(g, e), c);
    } else if e.CallerStep? && e.caller == c {
      if g.callers[c].StopTake? {
        TakeStep(g, e.bindOk, c);
      } else {
        EarlyStep(g, e.bindOk, c);
      }
    } else {
      OtherStep(g, e, c);
    }
  }

  lemma StillStopping(t: Gateway, c: nat)
    requires Inv(t) && Settled(t) && QueueKnown(t, c)
    ensures Stopping(t, c) && StopLeft(t, c) == DrainLeft(t, c)
  {
    hide Inv, QueueSteps;
  }

  lemma {:induction false} StopRun(g: Gateway, run: seq<Event>, c: nat)
    requires Stopping(g, c) && Legal(g, run) && Undisturbed(g, run, c)
    ensures var t := Final(g, run);
            Stopping(t, c) && DrainSteps(g, run, c) + StopLeft(t, c) <= StopLeft(g, c)
    decreases |run|
  {
    hide Next, Stopping, StopLeft, DrainStep, IsReset, Allowed;
    if run != [] {
      CallerExists(g, c);
      StopOneStep(g, run[0], c);
      StopRun(Next(g, run[0]), run[1..], c);
    }
  }

  lemma CallerExists(g: Gateway, c: nat)
    requires Stopping(g, c)
    ensures c < |g.callers|
  {
  }

  /** The step that `stop` is waiting for is possible; or another caller has the lock, and that one can
      step. */
  ghost predicate StopCanGoOn(g: Gateway, c: nat)
    requires c < |g.callers|
  {
    || (Allowed(g, NextDrain(g, c)) && DrainStep(g, c, NextDrain(g, c)))
    || (g.callers[c].StopLock? && g.lock.Some? && forall b :: Allowed(g, CallerStep(g.lock.value, b)))
  }

  lemma StopProgress(g: Gateway, c: nat)
    requires Stopping(g, c)
    ensures g.callers[c].Done? || StopCanGoOn(g, c)
    ensures StopLeft(g, c) == 0 <==> g.callers[c].Done?
  {
    hide RecordView, OwnerView, JoinView, LatchView, Settled, StepsToEnd, TaskAllowed, NextMove;
    if g.callers[c].StopJoin? {
      DrainCanGoOn(g, c);
    } else if g.callers[c].StopLock? && g.lock.Some? {
      HolderCanStep(g);
    }
  }

  /** Shutdown terminates. From the moment `stop` is called, in every undisturbed run: the steps of
      `stop` and of the tasks it joins number at most `8 * (listeners + 2) + 6`, and as long as it has
      not returned one of them is possible, unless it waits for the lock, whose holder can step then.
      Ticks the metrics loop takes before polling `wait` are the only steps not counted. */
  lemma StopCompletes(g: Gateway, c: nat, run: seq<Event>)
    requires Inv(g) && c < |g.callers| && g.callers[c].StopLock?
    requires Legal(g, run) && Undisturbed(g, run, c)
    ensures var t := Final(g, run);
            && DrainSteps(g, run, c) <= DrainBound(g.configured) + 5
            && c < |t.callers| && (t.callers[c].Done? || StopCanGoOn(t, c))
            && (DrainSteps(g, run, c) == DrainBound(g.configured) + 5 ==> t.callers[c].Done?)
  {
    hide Inv, StopCanGoOn;
    StopRun(g, run, c);
    StopProgress(Final(g, run), c);
  }

  /** The same for every `stop` of every run of the gateway from its creation. */
  lemma EveryStopCompletes(configured: nat, before: seq<Event>, c: nat, run: seq<Event>)
    requires Legal(NewGateway(configured), before)
    requires var g := Final(NewGateway(configured), before);
             c < |g.callers| && g.callers[c].StopLock? && Legal(g, run) && Undisturbed(g, run, c)
    ensures var g := Final(NewGateway(configured), before);
            var t := Final(g, run);
            && DrainSteps(g, run, c) <= DrainBound(g.configured) + 5
            && c < |t.callers| && (t.callers[c].Done? || StopCanGoOn(t, c))
            && (DrainSteps(g, run, c) == DrainBound(g.configured) + 5 ==> t.callers[c].Done?)
  {
    hide Inv, StopCanGoOn;
    NewGatewayInv(configured);
    RunKeepsInv(NewGateway(configured), before);
    StopCompletes(Final(NewGateway(configured), before), c, run);
  }

  // ----- the lock is given up -----

  /** How many steps the lock's holder still takes in its critical section, at most. */
  function CriticalLeft(g: Gateway): nat {
    match Holder(g)
    case StartCheck => g.configured + 6
    case StartReset => g.configured + 5
    case StartBind => g.configured + 4
    case StartSpawnMetrics => g.configured + 3
    case StartSpawnListener(k) => if k <= g.configured then g.configured - k + 2 else 2
    case StartSetRunning => 1
    case StopCheck => 4
    case StopStore => 3
    case StopNotify => 2
    case StopTake => 1
    case _ => 0
  }

  /** Whoever holds the lock can step. */
  lemma HolderCanStep(g: Gateway)
    requires LockView(g) && g.lock.Some?
    ensures forall b :: Allowed(g, CallerStep(g.lock.value, b))
    ensures 0 < CriticalLeft(g) <= g.configured + 6
  {
    assert HoldsLock(g.callers[g.lock.value]);
  }

  /** Each of the holder's steps brings the release nearer, and nothing else puts it off. */
  lemma LockStepsDown(g: Gateway, e: Event)
    requires LockView(g) && RecordView(g) && Allowed(g, e) && g.lock.Some?
    ensures var t := Next(g, e);
            t.lock == g.lock ==>
              CriticalLeft(t) + (if e.CallerStep? && Some(e.caller) == g.lock then 1 else 0) <= CriticalLeft(g)
  {
    hide StepCaller, Abandoned, TaskAfter, RecordFor, HoldsLock;
    var t, i := Next(g, e), g.lock.value;
    match e
    case CallerStep(j, b) =>
      CallerMoves(g, j, b);
      if j == i {
        HolderStepsDown(g, b);
      } else {
        OtherStep(g, e, i);
      }
    case Abandon(j) =>
      AbandonMoves(g, j);
      AbandonKeepsConfigured(g, j);
    case _ =>
  }

  lemma AbandonKeepsConfigured(g: Gateway, i: nat)
    requires i < |g.callers| && AtAwait(g.callers[i])
    ensures Abandoned(g, i).configured == g.configured
    ensures HoldsLock(g.callers[i]) ==> Abandoned(g, i).lock == None
  {
  }

  lemma HolderStepsDown(g: Gateway, b: bool)
    requires LockView(g) && RecordView(g) && g.lock.Some?
    requires CallerCanStep(g, g.callers[g.lock.value])
    ensures var t := StepCaller(g, g.lock.value, b);
            t.lock == g.lock ==> CriticalLeft(t) + 1 <= CriticalLeft(g)
  {
    hide Record, Full, Empty, HasKind;
  }

  ghost predicate HeldThroughout(g: Gateway, run: seq<Event>, i: nat)
    requires Legal(g, run)
    decreases |run|
  {
    g.lock == Some(i) && (run != [] ==> HeldThroughout(Next(g, run[0]), run[1..], i))
  }

  ghost function OwnSteps(run: seq<Event>, i: nat): nat {
    if run == [] then 0
    else (if run[0].CallerStep? && run[0].caller == i then 1 else 0) + OwnSteps(run[1..], i)
  }

  /** No caller keeps the lock for more than `listeners + 5` steps of its own, whatever the others do. */
  lemma {:induction false} LockIsReleased(g: Gateway, run: seq<Event>, i: nat)
    requires Inv(g) && Legal(g, run) && HeldThroughout(g, run, i)
    ensures OwnSteps(run, i) < CriticalLeft(g) <= g.configured + 6
    decreases |run|
  {
    hide Inv, Next, CriticalLeft;
    HolderFacts(g);
    if run != [] {
      StepKeepsInv(g, run[0]);
      LockFacts(g, run[0]);
      LockIsReleased(Next(g, run[0]), run[1..], i);
    }
  }

  lemma HolderFacts(g: Gateway)
    requires Inv(g) && g.lock.Some?
    ensures 0 < CriticalLeft(g) <= g.configured + 6
  {
    HolderCanStep(g);
  }

  lemma LockFacts(g: Gateway, e: Event)
    requires Inv(g) && Allowed(g, e) && g.lock.Some? && Next(g, e).lock == g.lock
    ensures CriticalLeft(Next(g, e)) + (if e.CallerStep? && Some(e.caller) == g.lock then 1 else 0) <= CriticalLeft(g)
  {
    LockStepsDown(g, e);
  }

  lemma DrainCanGoOn(t: Gateway, c: nat)
    requires Settled(t) && QueueKnown(t, c)
    ensures t.callers[c].Done? || (Allowed(t, NextDrain(t, c)) && DrainStep(t, c, NextDrain(t, c)))
    ensures DrainLeft(t, c) == 0 <==> t.callers[c].Done?
  {
    hide TaskAllowed, NextMove, StepsToEnd;
    var q := Queue(t.callers[c]);
    if t.callers[c].StopJoin? && q != [] && !t.tasks[q[0]].Finished? {
      TaskCanMove(t.tasks[q[0]], t.latch);
    }
  }

  // ----- listeners -----

  /** How many more sessions or backoffs of a listener can resolve once the gateway is settled: at
      most one of each. */
  function ResolutionsLeft(t: Task): nat {
    if !t.Running? || !t.kind.Listener? then 0
    else if t.waiter.Parked? then (if t.phase == Backoff then 2 else 1)
    else if t.waiter.Outside? && t.phase == Session then 1
    else 0
  }

  ghost function Resolutions(run: seq<Event>, h: nat): nat {
    if run == [] then 0 else (if run[0] == TaskStep(h, TakeOther) then 1 else 0) + Resolutions(run[1..], h)
  }

  lemma ResolutionStep(t: Task, l: Latch, m: Move)
    requires TaskAllowed(t, l, m) && l.triggered && !Sleeps(t, l) && t.kind.Listener?
    ensures ResolutionsLeft(TaskAfter(t, l, m)) + (if m.TakeOther? then 1 else 0) <= ResolutionsLeft(t) <= 2
  {
  }

  ghost predicate NeverReset(g: Gateway, run: seq<Event>)
    requires Legal(g, run)
    decreases |run|
  {
    run != [] ==> !IsReset(g, run[0]) && NeverReset(Next(g, run[0]), run[1..])
  }

  /** The moves task `h` makes in a run. */
  ghost function Moves(run: seq<Event>, h: nat): nat {
    if run == [] then 0 else (if run[0].TaskStep? && run[0].task == h then 1 else 0) + Moves(run[1..], h)
  }

  /** A listener's supervisor loop returns: it goes round at most once more (one session and one
      backoff), makes at most six moves until it has ended, and can always make the next one. */
  lemma {:induction false} ListenerLoopEnds(g: Gateway, run: seq<Event>, h: nat)
    requires Settled(g) && Legal(g, run) && NeverReset(g, run)
    requires h < |g.tasks| && g.tasks[h].kind.Listener?
    ensures var t := Final(g, run);
            && Settled(t) && h < |t.tasks| && t.tasks[h].kind == g.tasks[h].kind
            && Resolutions(run, h) + ResolutionsLeft(t.tasks[h]) <= ResolutionsLeft(g.tasks[h]) <= 2
            && Moves(run, h) + StepsToEnd(t.tasks[h]) <= StepsToEnd(g.tasks[h]) <= 6
            && (Moves(run, h) == 6 ==> t.tasks[h].Finished?)
            && (t.tasks[h].Finished? || Allowed(t, TaskStep(h, NextMove(t.tasks[h]))))
    decreases |run|
  {
    hide Settled, TaskAllowed, IsReset, ResolutionsLeft, StepCaller, StepsToEnd, NextMove;
    if run != [] {
      var e := run[0];
      SettledStep(g, e);
      TaskOnlyMovesItself(g, e, h);
      ListenerStep(g, e, h);
      ListenerLoopEnds(Next(g, e), run[1..], h);
    }
    ListenerBounds(g, h);
    ListenerBounds(Final(g, run), h);
  }

  lemma ListenerBounds(g: Gateway, h: nat)
    requires Settled(g) && h < |g.tasks| && g.tasks[h].kind.Listener?
    ensures ResolutionsLeft(g.tasks[h]) <= 2 && StepsToEnd(g.tasks[h]) <= 6
    ensures StepsToEnd(g.tasks[h]) == 0 <==> g.tasks[h].Finished?
    ensures g.tasks[h].Finished? || Allowed(g, TaskStep(h, NextMove(g.tasks[h])))
  {
    if !g.tasks[h].Finished? {
      TaskCanMove(g.tasks[h], g.latch);
    }
  }

  lemma TaskOnlyMovesItself(g: Gateway, e: Event, h: nat)
    requires Allowed(g, e) && h < |g.tasks|
    ensures h < |Next(g, e).tasks| && Next(g, e).tasks[h].kind == g.tasks[h].kind
    ensures (!e.TaskStep? || e.task != h) ==> Next(g, e).tasks[h] == g.tasks[h]
  {
    hide NextAction, LockAfter, Record;
  }

  lemma ListenerStep(g: Gateway, e: Event, h: nat)
    requires Settled(g) && Allowed(g, e) && h < |g.tasks| && g.tasks[h].kind.Listener?
    ensures h < |Next(g, e).tasks|
    ensures ResolutionsLeft(Next(g, e).tasks[h]) + (if e == TaskStep(h, TakeOther) then 1 else 0)
            <= ResolutionsLeft(g.tasks[h])
    ensures StepsToEnd(Next(g, e).tasks[h]) + (if e.TaskStep? && e.task == h then 1 else 0) <= StepsToEnd(g.tasks[h])
  {
    hide ResolutionsLeft, StepsToEnd, TaskAllowed, TaskAfter, StepCaller;
    TaskOnlyMovesItself(g, e, h);
    if e.TaskStep? && e.task == h {
      ResolutionStep(g.tasks[h], g.latch, e.move);
      TaskDrains(g.tasks[h], g.latch, e.move);
    }
  }
}
