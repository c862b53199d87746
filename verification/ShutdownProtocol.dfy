/** The shutdown signal used by any number of waiters, triggers and resets at once. */
module ShutdownProtocol {
  import opened ShutdownLatch

  // ----- the protocol -----

  /** `storing` counts the triggers that have set the flag and not yet notified. */
  datatype State = State(latch: Latch, storing: nat, waiters: seq<Waiter>)

  const INITIAL := State(Latch(false, 0), 0, [])

  datatype Event =
    | Arrive                 // a new task calls `wait`
    | Step(index: nat)       // the waiter's own next step
    | Cancel(index: nat)     // its `wait` future is dropped by a `select!` and made anew
    | Store                  // first half of `trigger`
    | Notify                 // second half of `trigger`
    | Reset

  predicate Allowed(s: State, e: Event) {
    match e
    case Step(i) => i < |s.waiters| && CanStep(s.waiters[i], s.latch)
    case Cancel(i) => i < |s.waiters| && !s.waiters[i].Returned?
    case Notify => s.storing > 0
    case _ => true
  }

  function Next(s: State, e: Event): State
    requires Allowed(s, e)
  {
    match e
    case Arrive => s.(waiters := s.waiters + [Outside])
    case Step(i) => s.(waiters := s.waiters[i := Poll(s.waiters[i], s.latch)])
    case Cancel(i) => s.(waiters := s.waiters[i := Outside])
    case Store => s.(latch := s.latch.(triggered := true), storing := s.storing + 1)
    case Notify => s.(latch := s.latch.(notifications := s.latch.notifications + 1), storing := s.storing - 1)
    case Reset => s.(latch := s.latch.(triggered := false))
  }

  ghost predicate Legal(s: State, run: seq<Event>)
    decreases |run|
  {
    run != [] ==> Allowed(s, run[0]) && Legal(Next(s, run[0]), run[1..])
  }

  ghost function Final(s: State, run: seq<Event>): State
    requires Legal(s, run)
    decreases |run|
  {
    if run == [] then s else Final(Next(s, run[0]), run[1..])
  }

  // ----- no lost wake-up -----

  /** A waiter sleeps under a set flag only while some trigger still owes its notification. */
  ghost predicate Inv(s: State) {
    && (forall i :: 0 <= i < |s.waiters| ==> SeenInRange(s.waiters[i], s.latch))
    && (s.latch.triggered && s.storing == 0 ==> forall i :: 0 <= i < |s.waiters| ==> !Asleep(s.waiters[i], s.latch))
  }

  lemma StepKeepsInv(s: State, e: Event)
    requires Inv(s) && Allowed(s, e)
    ensures Inv(Next(s, e))
  {
  }

  lemma {:induction false} RunKeepsInv(s: State, run: seq<Event>)
    requires Inv(s) && Legal(s, run)
    ensures Inv(Final(s, run))
    decreases |run|
  {
    if run != [] {
      StepKeepsInv(s, run[0]);
      RunKeepsInv(Next(s, run[0]), run[1..]);
    }
  }

  /** No lost wake-up: in every interleaving, once the flag is set and every trigger has notified, no
      waiter is asleep, whether it registered early, late or between the two halves of a trigger. */
  lemma NoLostWakeup(run: seq<Event>)
    requires Legal(INITIAL, run)
    requires Final(INITIAL, run).latch.triggered && Final(INITIAL, run).storing == 0
    ensures var s := Final(INITIAL, run);
            forall i :: 0 <= i < |s.waiters| ==> s.waiters[i].Returned? || CanStep(s.waiters[i], s.latch)
  {
    RunKeepsInv(INITIAL, run);
  }

  /** `trigger` is always possible, and its two halves set the flag and wake everybody; `reset` clears the
      flag again. */
  lemma TriggerWakesAll(s: State)
    requires Inv(s)
    ensures Allowed(s, Store)
    ensures var stored := Next(s, Store);
            && stored.latch.triggered && Allowed(stored, Notify)
            && var t := Next(stored, Notify);
               && t.latch.triggered && t.storing == s.storing && |t.waiters| == |s.waiters|
               && forall i :: 0 <= i < |t.waiters| ==> t.waiters[i].Returned? || Allowed(t, Step(i))
    ensures Allowed(s, Reset) && !Next(s, Reset).latch.triggered && Next(s, Reset).waiters == s.waiters
    ensures Allowed(s, Arrive) && Next(s, Arrive).waiters == s.waiters + [Outside]
  {
  }

  /** A `wait` returns only after it has read a set flag. */
  lemma ReturnsOnlyWhenSet(s: State, i: nat)
    requires Allowed(s, Step(i)) && Next(s, Step(i)).waiters[i].Returned?
    ensures s.latch.triggered
  {
  }

  // ----- wait returns -----

  /** Set and fully notified; nothing but a reset can undo it. */
  ghost predicate Settled(s: State) {
    s.latch.triggered && forall i :: 0 <= i < |s.waiters| ==> !Asleep(s.waiters[i], s.latch)
  }

  ghost predicate Uninterrupted(run: seq<Event>, i: nat) {
    Reset !in run && Cancel(i) !in run
  }

  /** How many of the run's steps are the waiter's own. */
  ghost function OwnSteps(run: seq<Event>, i: nat): nat {
    if run == [] then 0 else (if run[0] == Step(i) then 1 else 0) + OwnSteps(run[1..], i)
  }

  lemma SettledStep(s: State, e: Event, i: nat)
    requires Settled(s) && Allowed(s, e) && e != Reset && e != Cancel(i) && i < |s.waiters|
    ensures Settled(Next(s, e)) && i < |Next(s, e).waiters|
    ensures StepsLeft(Next(s, e).waiters[i]) + (if e == Step(i) then 1 else 0) <= StepsLeft(s.waiters[i])
  {
  }

  /** After a completed trigger and with no reset, `wait` returns within three of the waiter's own
      steps, whatever the other tasks do; and as long as it has not returned it can take a step. */
  lemma {:induction false} WaitReturns(s: State, run: seq<Event>, i: nat)
    requires Settled(s) && Legal(s, run) && i < |s.waiters| && Uninterrupted(run, i)
    ensures Settled(Final(s, run)) && i < |Final(s, run).waiters|
    ensures var w := Final(s, run).waiters[i];
            && OwnSteps(run, i) + StepsLeft(w) <= StepsLeft(s.waiters[i]) <= 3
            && (StepsLeft(w) == 0 <==> w.Returned?)
            && (w.Returned? || CanStep(w, Final(s, run).latch))
    decreases |run|
  {
    if run != [] {
      SettledStep(s, run[0], i);
      WaitReturns(Next(s, run[0]), run[1..], i);
    }
  }

  /** The promise of the latch in one piece: after any run that leaves the flag set with every trigger
      notified, and any continuation without a reset, a `wait` that is not cancelled returns within
      three of its own steps and is never blocked before that. */
  lemma EveryWaiterReturns(before: seq<Event>, run: seq<Event>, i: nat)
    requires Legal(INITIAL, before)
    requires Final(INITIAL, before).latch.triggered && Final(INITIAL, before).storing == 0
    requires i < |Final(INITIAL, before).waiters|
    requires Legal(Final(INITIAL, before), run) && Uninterrupted(run, i)
    ensures var t := Final(Final(INITIAL, before), run);
            && i < |t.waiters|
            && (OwnSteps(run, i) >= 3 ==> t.waiters[i].Returned?)
            && (t.waiters[i].Returned? || CanStep(t.waiters[i], t.latch))
  {
    RunKeepsInv(INITIAL, before);
    WaitReturns(Final(INITIAL, before), run, i);
  }
}
