/** The shutdown signal of `src/core/shutdown.rs`, an atomic flag next to a `Notify`, and one task's
    passage through `wait`, one atomic access per step.

    `Notify` is taken at its documented word: `notify_waiters` wakes exactly the `notified()` futures
    created before it. A future therefore remembers how many `notify_waiters` calls it has seen. */
module ShutdownLatch {
  datatype Latch = Latch(triggered: bool, notifications: nat)

  /** Where a task stands inside `wait`. */
  datatype Waiter =
    | Outside                // about to (re)enter the loop
    | Created(seen: nat)     // `notified()` exists
    | Enabled(seen: nat)     // `enable()` done, flag not yet read
    | Parked(seen: nat)      // flag was clear, awaiting the notification
    | Woken                  // notified, flag to be read again
    | Returned

  /** Un-notified: parked, and no `notify_waiters` since the future was created. */
  predicate Asleep(w: Waiter, l: Latch) {
    w.Parked? && w.seen >= l.notifications
  }

  predicate CanStep(w: Waiter, l: Latch) {
    !w.Returned? && !Asleep(w, l)
  }

  /** The waiter's next step. */
  function Poll(w: Waiter, l: Latch): Waiter
    requires CanStep(w, l)
  {
    match w
    case Outside => Created(l.notifications)
    case Created(k) => Enabled(k)
    case Enabled(k) => if l.triggered then Returned else Parked(k)
    case Parked(_) => Woken
    case Woken => if l.triggered then Returned else Outside
  }

  /** The most steps of its own a waiter can still take once the flag stays set. */
  function StepsLeft(w: Waiter): nat {
    match w
    case Outside => 3
    case Created(_) => 2
    case Enabled(_) => 1
    case Parked(_) => 2
    case Woken => 1
    case Returned => 0
  }

  /** A future cannot have seen notifications that have not happened. */
  ghost predicate SeenInRange(w: Waiter, l: Latch) {
    (w.Created? || w.Enabled? || w.Parked?) ==> w.seen <= l.notifications
  }
}
