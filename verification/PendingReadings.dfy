/** How far the interleaved store can be from an exact count: a call or tick is pending between its
    clock reading and its passage through the buckets, and what arrives late was pending when the clock
    moved on. So few pending readings mean few late arrivals, and an exact count. */
module PendingReadings {
  import opened Text
  import opened MetricsViews
  import BA = BucketArrivals
  import opened ConcurrentRecording

  // ----- what is pending -----

  function TicksBefore(ticks: seq<nat>, t: nat): nat {
    if ticks == [] then 0 else TicksBefore(ticks[..|ticks| - 1], t) + Bit(ticks[|ticks| - 1] < t)
  }

  lemma {:induction false} TicksConcat(a: seq<nat>, b: seq<nat>, t: nat)
    ensures TicksBefore(a + b, t) == TicksBefore(a, t) + TicksBefore(b, t)
  {
    if b == [] {
      assert a + b == a;
    } else {
      var n := |b| - 1;
      assert (a + b)[..|a + b| - 1] == a + b[..n];
      TicksConcat(a, b[..n], t);
    }
  }

  lemma TickRemoved(ticks: seq<nat>, k: nat, t: nat)
    requires k < |ticks|
    ensures TicksBefore(ticks[..k] + ticks[k + 1..], t) + Bit(ticks[k] < t) == TicksBefore(ticks, t)
  {
    hide TicksBefore;
    var one := [ticks[k]];
    assert ticks == ticks[..k] + (one + ticks[k + 1..]);
    TicksConcat(ticks[..k], one + ticks[k + 1..], t);
    TicksConcat(one, ticks[k + 1..], t);
    TicksConcat(ticks[..k], ticks[k + 1..], t);
    OneTick(ticks[k], t);
  }

  lemma OneTick(x: nat, t: nat)
    ensures TicksBefore([x], t) == Bit(x < t)
  {
    assert [x][..0] == [];
  }

  lemma {:induction false} TicksBound(ticks: seq<nat>, t: nat)
    ensures TicksBefore(ticks, t) <= |ticks|
  {
    if ticks != [] {
      TicksBound(ticks[..|ticks| - 1], t);
    }
  }

  /** The calls and ticks that have read the clock and not reached the buckets. */
  function Pending(s: State): nat {
    InFlight(s.calls, CLOCK_READ, BUCKETED, Requests) + |s.ticks|
  }

  /** Those whose reading lies before second `t`. */
  function PendingBefore(s: State, t: nat): nat {
    InFlight(s.calls, CLOCK_READ, BUCKETED, Between(0, t - 1)) + TicksBefore(s.ticks, t)
  }

  lemma {:induction false} InFlightBound(calls: seq<Call>, t: nat)
    ensures InFlight(calls, CLOCK_READ, BUCKETED, Between(0, t - 1)) <= InFlight(calls, CLOCK_READ, BUCKETED, Requests)
  {
    if calls != [] {
      InFlightBound(calls[..|calls| - 1], t);
    }
  }

  lemma PendingBound(s: State, t: nat)
    ensures PendingBefore(s, t) <= Pending(s)
  {
    InFlightBound(s.calls, t);
    TicksBound(s.ticks, t);
  }

  // ----- how a step moves it -----

  /** The second a step reads off the clock, if it reads it. */
  function Reads(s: State, ev: Event): Option<nat>
    requires Enabled(s, ev)
  {
    match ev
    case Advance(i, ms) => if s.calls[i].pc + 1 == CLOCK_READ then Some(ms / 1000) else None
    case TickRead(ms) => Some(ms / 1000)
    case _ => None
  }

  lemma InFlightStep(s: State, ev: Event, m: Measure)
    requires Enabled(s, ev)
    ensures InFlight(Next(s, ev).calls, CLOCK_READ, BUCKETED, m) + Gain(s, ev, BUCKETED, m) ==
            InFlight(s.calls, CLOCK_READ, BUCKETED, m) + Gain(s, ev, CLOCK_READ, m)
  {
    hide Next, Past, InFlight, Gain;
    PastStep(s, ev, CLOCK_READ, m);
    PastStep(s, ev, BUCKETED, m);
    PastSplits(s.calls, CLOCK_READ, BUCKETED, m);
    PastSplits(Next(s, ev).calls, CLOCK_READ, BUCKETED, m);
  }

  lemma TicksStep(s: State, ev: Event, t: nat)
    requires Enabled(s, ev)
    ensures var after := TicksBefore(Next(s, ev).ticks, t);
            after == match ev
                     case TickRead(ms) => TicksBefore(s.ticks, t) + Bit(ms / 1000 < t)
                     case TickTouch(k) => TicksBefore(s.ticks, t) - Bit(s.ticks[k] < t)
                     case _ => TicksBefore(s.ticks, t)
  {
    hide TicksBefore, AddToBuckets, Touch, Dropped, PushRing, Bump, BumpRoute;
    match ev
    case TickRead(ms) =>
      TicksConcat(s.ticks, [ms / 1000], t);
      OneTick(ms / 1000, t);
    case TickTouch(k) => TickRemoved(s.ticks, k, t);
    case _ =>
  }

  /** A reading adds a pending one of its second; an arrival takes one of its second away. */
  lemma PendingStep(s: State, ev: Event, t: nat)
    requires Enabled(s, ev)
    ensures PendingBefore(Next(s, ev), t)
            + (match Brings(s, ev) case None => 0 case Some(a) => Bit(a.Second() < t)) ==
            PendingBefore(s, t) + (match Reads(s, ev) case None => 0 case Some(r) => Bit(r < t))
  {
    hide Next, InFlight, TicksBefore;
    InFlightStep(s, ev, Between(0, t - 1));
    TicksStep(s, ev, t);
  }

  lemma ClockStep(s: State, ev: Event)
    requires Enabled(s, ev)
    ensures var t := Next(s, ev);
            match Reads(s, ev)
            case None => t.clock == s.clock && t.steady == s.steady
            case Some(r) => t.clock / 1000 == r && (t.steady <==> s.steady && s.clock <= t.clock)
  {
    hide AddToBuckets, Touch, Dropped, PushRing, Bump, BumpRoute;
  }

  // ----- what was read is not in the future -----

  ghost predicate CallsUpTo(calls: seq<Call>, now: nat) {
    forall i :: 0 <= i < |calls| && calls[i].pc >= CLOCK_READ ==> calls[i].entry.Second() <= now
  }

  ghost predicate TicksUpTo(ticks: seq<nat>, now: nat) {
    forall k :: 0 <= k < |ticks| ==> ticks[k] <= now
  }

  ghost predicate NotAhead(s: State) {
    var now := s.clock / 1000;
    CallsUpTo(s.calls, now) && TicksUpTo(s.ticks, now) && BA.Newest(s.arrivals) <= now
  }

  lemma CallsUpToStep(s: State, ev: Event, now: nat)
    requires Enabled(s, ev) && CallsUpTo(s.calls, now) && (Reads(s, ev).Some? ==> Reads(s, ev).value <= now)
    ensures CallsUpTo(Next(s, ev).calls, now)
  {
    hide Next;
    CallsAfter(s, ev);
  }

  lemma TicksUpToStep(s: State, ev: Event, now: nat)
    requires Enabled(s, ev) && TicksUpTo(s.ticks, now) && (Reads(s, ev).Some? ==> Reads(s, ev).value <= now)
    ensures TicksUpTo(Next(s, ev).ticks, now)
  {
    hide Next;
    TicksAfter(s, ev);
  }

  lemma ArrivalsUpToStep(s: State, ev: Event, now: nat)
    requires Enabled(s, ev) && CallsUpTo(s.calls, now) && TicksUpTo(s.ticks, now) && BA.Newest(s.arrivals) <= now
    ensures BA.Newest(Next(s, ev).arrivals) <= now
  {
    hide Next;
    BringsArrival(s, ev);
    if Brings(s, ev).Some? {
      BA.OvertakenAppend(s.arrivals, Brings(s, ev).value, 0);
    }
  }

  lemma NotAheadStep(s: State, ev: Event)
    requires NotAhead(s) && Enabled(s, ev) && s.clock <= Next(s, ev).clock
    ensures NotAhead(Next(s, ev))
  {
    hide Next, Enabled;
    var now := Next(s, ev).clock / 1000;
    ClockStep(s, ev);
    assert s.clock / 1000 <= now;
    CallsUpToStep(s, ev, now);
    TicksUpToStep(s, ev, now);
    ArrivalsUpToStep(s, ev, now);
  }

  // ----- the budget of overtaken arrivals -----

  /** At each second, what was overtaken and what still may be are at most `k` together. */
  ghost predicate FewLate(s: State, k: nat) {
    NotAhead(s) && forall t: nat :: BA.Overtaken(s.arrivals, t) + PendingBefore(s, t) <= k
  }

  lemma FewLateStep(s: State, ev: Event, k: nat)
    requires FewLate(s, k) && Enabled(s, ev) && s.clock <= Next(s, ev).clock && Pending(Next(s, ev)) <= k
    ensures FewLate(Next(s, ev), k)
  {
    hide Next, NotAhead, Pending, PendingBefore;
    var s' := Next(s, ev);
    NotAheadStep(s, ev);
    forall t: nat ensures BA.Overtaken(s'.arrivals, t) + PendingBefore(s', t) <= k {
      FewLateAt(s, ev, k, t);
    }
  }

  lemma FewLateAt(s: State, ev: Event, k: nat, t: nat)
    requires NotAhead(s) && Enabled(s, ev) && s.clock <= Next(s, ev).clock && Pending(Next(s, ev)) <= k
    requires BA.Overtaken(s.arrivals, t) + PendingBefore(s, t) <= k
    ensures BA.Overtaken(Next(s, ev).arrivals, t) + PendingBefore(Next(s, ev), t) <= k
  {
    hide Next, Pending, PendingBefore;
    var s' := Next(s, ev);
    BringsArrival(s, ev);
    PendingStep(s, ev, t);
    ClockStep(s, ev);
    if Brings(s, ev).Some? {
      BA.OvertakenAppend(s.arrivals, Brings(s, ev).value, t);
    }
    if Reads(s, ev).Some? && Reads(s, ev).value < t {
      BA.NoneOvertaken(s.arrivals, t);
      PendingBound(s', t);
    }
  }

  /** At no moment of the run are more than `k` readings pending. */
  ghost predicate AtMostPending(s: State, run: seq<Event>, k: nat)
    requires Legal(s, run)
    decreases |run|
  {
    Pending(s) <= k && (run != [] ==> AtMostPending(Next(s, run[0]), run[1..], k))
  }

  lemma {:induction false} SteadyBefore(s: State, run: seq<Event>)
    requires Legal(s, run) && Final(s, run).steady
    ensures s.steady
    decreases |run|
  {
    hide Next;
    if run != [] {
      SteadyBefore(Next(s, run[0]), run[1..]);
      ClockStep(s, run[0]);
    }
  }

  lemma {:induction false} FewLateRun(s: State, run: seq<Event>, k: nat)
    requires FewLate(s, k) && Legal(s, run) && Final(s, run).steady && AtMostPending(s, run, k)
    ensures FewLate(Final(s, run), k)
    decreases |run|
  {
    hide Next, FewLate, Pending, Enabled;
    if run != [] {
      var t := Next(s, run[0]);
      SteadyBefore(t, run[1..]);
      ClockStep(s, run[0]);
      assert Pending(t) <= k;
      FewLateStep(s, run[0], k);
      FewLateRun(t, run[1..], k);
    }
  }

  lemma NothingLate(k: nat)
    ensures FewLate(INITIAL, k)
  {
  }

  /** In every run whose clock readings never go back and which never has more than `k` of them pending,
      the windowed count is exact for windows short enough for that `k`. */
  lemma FewPendingIsExact(run: seq<Event>, now: nat, window: nat, k: nat)
    requires Legal(INITIAL, run) && Final(INITIAL, run).steady && AtMostPending(INITIAL, run, k)
    requires Final(INITIAL, run).clock / 1000 <= now
    requires var span := now - Oldest(now, window); span + 2 * (k * (span + 1)) < BUCKET_COUNT
    ensures var s := Final(INITIAL, run);
            CountInWindow(s.timeBuckets, now, window) == Past(s.calls, BUCKETED, Between(Oldest(now, window), now))
  {
    hide Past, CountInWindow, Tally, Next, Legal, Final, AtMostPending, PendingBefore, BA.Overtaken, BA.Newest;
    hide TotalsView, StatusView, RouteView, BucketView, RingView, IdView, BA.Replay, BA.Recorded;
    var s := Final(INITIAL, run);
    NothingLate(k);
    FewLateRun(INITIAL, run, k);
    forall t: nat ensures BA.Overtaken(s.arrivals, t) <= k {
      assert BA.Overtaken(s.arrivals, t) + PendingBefore(s, t) <= k;
    }
    BA.FewOvertaken(s.arrivals, now, window, k);
    InitialInv();
    RunKeepsInv(INITIAL, run);
    assert ArrivalView(s);
  }

  /** In particular the count behind `compute_rps` is exact as long as never more than five calls and
      ticks are between their clock reading and the buckets. */
  lemma FivePendingAreHarmless(run: seq<Event>, now: nat)
    requires Legal(INITIAL, run) && Final(INITIAL, run).steady && AtMostPending(INITIAL, run, 5)
    requires Final(INITIAL, run).clock / 1000 <= now
    ensures var s := Final(INITIAL, run);
            CountInWindow(s.timeBuckets, now, 5) == Past(s.calls, BUCKETED, Between(Oldest(now, 5), now))
  {
    hide Legal, Final, AtMostPending, Past, CountInWindow;
    FewPendingIsExact(run, now, 5, 5);
  }
}
