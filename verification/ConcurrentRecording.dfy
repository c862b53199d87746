/** `record_request` and `tick` of `src/admin/store.rs` called by any number of tasks at once. Every
    counter has its own lock, so a call is a sequence of separate steps that interleave freely with
    those of other calls; a tick reads the clock before it takes the buckets' lock. */
module ConcurrentRecording {
  import opened Text
  import opened MetricsViews
  import opened BucketArrivals

  /** How far a call has got: the number of steps it has completed. */
  const ID_TAKEN := 1
  const CLOCK_READ := 2
  const TOTALLED := 3
  const ERROR_COUNTED := 4
  const STATUS_COUNTED := 5
  const ROUTE_COUNTED := 6
  const BUCKETED := 7
  const LATENCY_STORED := 8
  const LOGGED := 9

  datatype Call = Call(entry: Entry, pc: nat)

  datatype State = State(
    calls: seq<Call>,
    nextId: nat,
    totalRequests: nat,
    totalErrors: nat,
    statusCounts: map<nat, nat>,
    routeStats: map<string, RouteStats>,
    ticks: seq<nat>,               // seconds read by ticks that have not reached the buckets
    timeBuckets: seq<Bucket>,
    evicted: seq<Bucket>,
    arrivals: seq<Arrival>,        // what reached the buckets, in order
    latencies: seq<nat>,
    recentLatencies: seq<nat>,
    logged: seq<Entry>,
    requestLog: seq<Entry>,
    clock: nat,                    // the newest clock reading, and whether no reading was older
    steady: bool)                  // than the one before

  const INITIAL := State([], 1, 0, 0, map[], map[], [], [], [], [], [], [], [], [], 0, true)

  /** A new call arrives with its arguments; the call at `index` takes its next step (the clock
      reading matters only for the step that reads the clock); a tick reads the clock; or a tick
      reaches the buckets. */
  datatype Event =
    | Arrive(arguments: Entry)
    | Advance(index: nat, clockMs: nat)
    | TickRead(readMs: nat)
    | TickTouch(tick: nat)

  predicate Enabled(s: State, ev: Event) {
    match ev
    case Advance(i, _) => i < |s.calls| && s.calls[i].pc < LOGGED
    case TickTouch(k) => k < |s.ticks|
    case _ => true
  }

  /** The buckets dropped by `Touch`. */
  function Dropped(buckets: seq<Bucket>, now: nat): seq<Bucket> {
    var b := Open(buckets, now);
    if b == buckets then [] else b[..|b| - |Suffix(b, BUCKET_COUNT)|]
  }

  function ReadClock(s: State, ms: nat): State {
    s.(clock := ms, steady := s.steady && s.clock <= ms)
  }

  function EntryAfter(s: State, i: nat, clockMs: nat): Entry
    requires i < |s.calls|
  {
    var c := s.calls[i];
    if c.pc == ID_TAKEN - 1 then c.entry.(id := s.nextId)
    else if c.pc == CLOCK_READ - 1 then c.entry.(timestampMs := clockMs)
    else c.entry
  }

  function Next(s: State, ev: Event): State
    requires Enabled(s, ev)
  {
    match ev
    case Arrive(a) => s.(calls := s.calls + [Call(a, 0)])
    case Advance(i, clockMs) =>
      var done := s.calls[i].pc + 1;
      var e := EntryAfter(s, i, clockMs);
      var t := s.(calls := s.calls[i := Call(e, done)]);
      if done == ID_TAKEN then t.(nextId := s.nextId + 1)
      else if done == CLOCK_READ then ReadClock(t, clockMs)
      else if done == TOTALLED then t.(totalRequests := s.totalRequests + 1)
      else if done == ERROR_COUNTED then t.(totalErrors := s.totalErrors + Bit(e.IsError()))
      else if done == STATUS_COUNTED then t.(statusCounts := Bump(s.statusCounts, e.status))
      else if done == ROUTE_COUNTED then t.(routeStats := BumpRoute(s.routeStats, e))
      else if done == BUCKETED then
        t.(timeBuckets := AddToBuckets(s.timeBuckets, e), evicted := s.evicted + Dropped(s.timeBuckets, e.Second()),
           arrivals := s.arrivals + [Record(e)])
      else if done == LATENCY_STORED then
        t.(recentLatencies := PushRing(s.recentLatencies, e.latency, LATENCY_BUFFER_CAP),
           latencies := s.latencies + [e.latency])
      else
        t.(requestLog := PushRing(s.requestLog, e, RING_BUFFER_CAP), logged := s.logged + [e])
    case TickRead(ms) => ReadClock(s, ms).(ticks := s.ticks + [ms / 1000])
    case TickTouch(k) =>
      var now := s.ticks[k];
      s.(ticks := s.ticks[..k] + s.ticks[k + 1..],
         timeBuckets := Touch(s.timeBuckets, now), evicted := s.evicted + Dropped(s.timeBuckets, now),
         arrivals := s.arrivals + [Tick(now)])
  }

  // ----- runs -----

  ghost predicate Legal(s: State, run: seq<Event>)
    decreases |run|
  {
    run != [] ==> Enabled(s, run[0]) && Legal(Next(s, run[0]), run[1..])
  }

  ghost function Final(s: State, run: seq<Event>): State
    requires Legal(s, run)
    decreases |run|
  {
    if run == [] then s else Final(Next(s, run[0]), run[1..])
  }

  // ----- tallies of the calls that have passed a step -----

  /** The measure over the calls that have completed at least `stage` steps. */
  function Past(calls: seq<Call>, stage: nat, m: Measure): nat {
    if calls == [] then 0
    else
      var n := |calls| - 1;
      Past(calls[..n], stage, m) + if calls[n].pc >= stage then Weight(m, calls[n].entry) else 0
  }

  /** The measure over the calls between two steps: past the first, not yet past the second. */
  function InFlight(calls: seq<Call>, from: nat, to: nat, m: Measure): nat {
    if calls == [] then 0
    else
      var n := |calls| - 1;
      InFlight(calls[..n], from, to, m) + if from <= calls[n].pc < to then Weight(m, calls[n].entry) else 0
  }

  lemma {:induction false} PastSplits(calls: seq<Call>, from: nat, to: nat, m: Measure)
    requires from <= to
    ensures Past(calls, from, m) == Past(calls, to, m) + InFlight(calls, from, to, m)
  {
    hide Weight;
    if calls != [] {
      PastSplits(calls[..|calls| - 1], from, to, m);
    }
  }

  /** Completing step `stage` adds the call's weight there and nowhere else. */
  lemma {:induction false} PastAdvance(calls: seq<Call>, i: nat, e: Entry, stage: nat, m: Measure)
    requires i < |calls| && stage >= CLOCK_READ
    requires calls[i].pc >= CLOCK_READ ==> e == calls[i].entry
    ensures Past(calls[i := Call(e, calls[i].pc + 1)], stage, m) ==
            Past(calls, stage, m) + if calls[i].pc + 1 == stage then Weight(m, e) else 0
  {
    hide Weight;
    var n := |calls| - 1;
    var after := calls[i := Call(e, calls[i].pc + 1)];
    if i < n {
      PastAdvance(calls[..n], i, e, stage, m);
      assert after[..n] == calls[..n][i := Call(e, calls[i].pc + 1)] && after[n] == calls[n];
    } else {
      assert after[..n] == calls[..n];
    }
  }

  lemma PastArrive(calls: seq<Call>, a: Entry, stage: nat, m: Measure)
    requires stage > 0
    ensures Past(calls + [Call(a, 0)], stage, m) == Past(calls, stage, m)
  {
    assert (calls + [Call(a, 0)])[..|calls|] == calls;
  }

  // ----- sums over maps and buckets -----

  /** The sum of a map's counters. */
  ghost function Sum(m: map<nat, nat>): nat
    decreases |m|
  {
    if m == map[] then 0
    else
      var k := Pick(m);
      m[k] + Sum(m - {k})
  }

  ghost function Pick(m: map<nat, nat>): (k: nat)
    requires m != map[]
    ensures k in m
  {
    assert m.Keys != {};
    var k :| k in m.Keys;
    k
  }

  lemma {:induction false} SumWithout(m: map<nat, nat>, k: nat)
    requires k in m
    ensures Sum(m) == m[k] + Sum(m - {k})
    decreases |m|
  {
    var p := Pick(m);
    if p != k {
      SumWithout(m - {p}, k);
      assert p in m - {k};
      SumWithout(m - {k}, p);
      assert m - {p} - {k} == m - {k} - {p};
    }
  }

  lemma SumBump(m: map<nat, nat>, k: nat)
    ensures Sum(Bump(m, k)) == Sum(m) + 1
  {
    var after := Bump(m, k);
    SumWithout(after, k);
    if k in m {
      SumWithout(m, k);
      assert after - {k} == m - {k};
    } else {
      assert after - {k} == m;
    }
  }

  datatype Totals = Totals(requests: nat, latency: nat, errors: nat) {
    function Plus(b: Bucket): Totals {
      Totals(requests + b.requests, latency + b.latency, errors + b.errors)
    }
  }

  function SumOf(buckets: seq<Bucket>): Totals {
    if buckets == [] then Totals(0, 0, 0) else SumOf(buckets[..|buckets| - 1]).Plus(buckets[|buckets| - 1])
  }

  lemma SumOfAppend(a: seq<Bucket>, b: Bucket)
    ensures SumOf(a + [b]) == SumOf(a).Plus(b)
  {
    assert (a + [b])[..|a|] == a;
  }

  /** What the retained and the evicted buckets hold together. */
  function Held(s: seq<Bucket>, evicted: seq<Bucket>): Totals {
    SumOf(evicted + s)
  }

  lemma RecordIsConserved(buckets: seq<Bucket>, evicted: seq<Bucket>, e: Entry)
    ensures var before := Held(buckets, evicted);
            var after := Held(AddToBuckets(buckets, e), evicted + Dropped(buckets, e.Second()));
            after == Totals(before.requests + 1, before.latency + e.latency, before.errors + Bit(e.IsError()))
  {
    hide SumOf, Touch, Dropped;
    var b, dropped := Touch(buckets, e.Second()), Dropped(buckets, e.Second());
    LastGrows(evicted + dropped, b, e);
    TouchIsConserved(buckets, evicted, e.Second());
  }

  /** A tick moves buckets out but loses nothing they hold. */
  lemma TouchIsConserved(buckets: seq<Bucket>, evicted: seq<Bucket>, now: nat)
    ensures Held(Touch(buckets, now), evicted + Dropped(buckets, now)) == Held(buckets, evicted)
  {
    hide SumOf, Touch, Dropped;
    DroppedThenKept(buckets, now);
    Reassociate(evicted, Dropped(buckets, now), Touch(buckets, now));
    if buckets == [] || buckets[|buckets| - 1].second != now {
      var empty := Bucket(now, 0, 0, 0);
      Reassociate(evicted, buckets, [empty]);
      SumOfAppend(evicted + buckets, empty);
    }
  }

  lemma Reassociate(a: seq<Bucket>, b: seq<Bucket>, c: seq<Bucket>)
    ensures a + (b + c) == (a + b) + c
  {
  }

  lemma DroppedThenKept(buckets: seq<Bucket>, now: nat)
    ensures Dropped(buckets, now) + Touch(buckets, now) == Open(buckets, now)
  {
    hide Suffix;
    SuffixSplit(Open(buckets, now), BUCKET_COUNT);
    assert [] + buckets == buckets;
  }

  lemma SuffixSplit<T>(s: seq<T>, n: nat)
    ensures |Suffix(s, n)| <= |s| && s[..|s| - |Suffix(s, n)|] + Suffix(s, n) == s
  {
  }

  lemma LastGrows(front: seq<Bucket>, b: seq<Bucket>, e: Entry)
    requires b != []
    ensures var before, after := SumOf(front + b), SumOf(front + Grow(b, e));
            after == Totals(before.requests + 1, before.latency + e.latency, before.errors + Bit(e.IsError()))
  {
    var n := |b| - 1;
    var grown := Grow(b, e)[n];
    assert front + b == (front + b[..n]) + [b[n]];
    assert front + Grow(b, e) == (front + b[..n]) + [grown];
    SumOfAppend(front + b[..n], b[n]);
    SumOfAppend(front + b[..n], grown);
  }

  // ----- the invariant, view by view -----

  ghost predicate TotalsView(s: State) {
    && s.totalRequests == Past(s.calls, TOTALLED, Requests)
    && s.totalErrors == Past(s.calls, ERROR_COUNTED, Errors)
  }

  ghost predicate StatusView(s: State) {
    && (forall c: nat :: Count(s.statusCounts, c) == Past(s.calls, STATUS_COUNTED, Status(c)))
    && Sum(s.statusCounts) == Past(s.calls, STATUS_COUNTED, Requests)
  }

  ghost predicate RouteView(s: State) {
    forall r: string ::
      Stats(s.routeStats, r) == RouteStats(Past(s.calls, ROUTE_COUNTED, Route(r)),
                                           Past(s.calls, ROUTE_COUNTED, RouteErrors(r)),
                                           Past(s.calls, ROUTE_COUNTED, RouteLatency(r)))
  }

  ghost predicate BucketView(s: State) {
    Held(s.timeBuckets, s.evicted) ==
      Totals(Past(s.calls, BUCKETED, Requests), Past(s.calls, BUCKETED, Latency), Past(s.calls, BUCKETED, Errors))
  }

  /** The buckets are what the arrivals make of them, and the requests among the arrivals are those of
      the calls past the buckets. */
  ghost predicate ArrivalView(s: State) {
    && s.timeBuckets == Replay(s.arrivals)
    && forall m: Measure :: Tally(Recorded(s.arrivals), m) == Past(s.calls, BUCKETED, m)
  }

  /** The latencies stored and the entries logged, in their order of arrival; the ring buffers keep
      the newest 10,000 of each. */
  ghost predicate RingView(s: State) {
    && (forall v: nat :: multiset(s.latencies)[v] == Past(s.calls, LATENCY_STORED, LatencyIs(v)))
    && s.recentLatencies == Suffix(s.latencies, LATENCY_BUFFER_CAP)
    && (forall e: Entry :: multiset(s.logged)[e] == Past(s.calls, LOGGED, Is(e)))
    && s.requestLog == Suffix(s.logged, RING_BUFFER_CAP)
  }

  /** Ids are handed out once. */
  ghost predicate IdView(s: State) {
    && CallIds(s.calls, s.nextId)
    && (forall k :: 0 <= k < |s.logged| ==> LoggedBy(s.calls, s.logged[k]))
    && (forall k, l :: 0 <= k < l < |s.logged| ==> s.logged[k].id != s.logged[l].id)
  }

  ghost predicate LoggedBy(calls: seq<Call>, e: Entry) {
    exists i :: 0 <= i < |calls| && calls[i] == Call(e, LOGGED)
  }

  ghost predicate Inv(s: State) {
    && TotalsView(s) && StatusView(s) && RouteView(s)
    && BucketView(s) && ArrivalView(s) && RingView(s) && IdView(s)
  }

  // ----- every step keeps every view -----

  /** How one step moves a tally: the call that completes `stage` adds its weight. */
  function Gain(s: State, ev: Event, stage: nat, m: Measure): nat
    requires Enabled(s, ev)
  {
    if ev.Advance? && s.calls[ev.index].pc + 1 == stage then Weight(m, EntryAfter(s, ev.index, ev.clockMs)) else 0
  }

  lemma PastStep(s: State, ev: Event, stage: nat, m: Measure)
    requires Enabled(s, ev) && stage >= CLOCK_READ
    ensures Past(Next(s, ev).calls, stage, m) == Past(s.calls, stage, m) + Gain(s, ev, stage, m)
  {
    hide Past, Weight, AddToBuckets, Touch, Dropped, PushRing, Bump, BumpRoute;
    match ev
    case Arrive(a) => PastArrive(s.calls, a, stage, m);
    case Advance(i, clockMs) => PastAdvance(s.calls, i, EntryAfter(s, i, clockMs), stage, m);
    case _ =>
  }

  lemma TotalsStep(s: State, ev: Event)
    requires TotalsView(s) && Enabled(s, ev)
    ensures TotalsView(Next(s, ev))
  {
    hide Past, AddToBuckets, Touch, Dropped, PushRing, Bump, BumpRoute;
    PastStep(s, ev, TOTALLED, Requests);
    PastStep(s, ev, ERROR_COUNTED, Errors);
  }

  lemma StatusStep(s: State, ev: Event)
    requires StatusView(s) && Enabled(s, ev)
    ensures StatusView(Next(s, ev))
  {
    hide Past, Sum, AddToBuckets, Touch, Dropped, PushRing, BumpRoute;
    PastStep(s, ev, STATUS_COUNTED, Requests);
    if ev.Advance? {
      SumBump(s.statusCounts, EntryAfter(s, ev.index, ev.clockMs).status);
    }
    forall c: nat ensures Count(Next(s, ev).statusCounts, c) == Past(Next(s, ev).calls, STATUS_COUNTED, Status(c)) {
      PastStep(s, ev, STATUS_COUNTED, Status(c));
      assert Count(s.statusCounts, c) == Past(s.calls, STATUS_COUNTED, Status(c));
    }
  }

  lemma RouteStep(s: State, ev: Event)
    requires RouteView(s) && Enabled(s, ev)
    ensures RouteView(Next(s, ev))
  {
    hide Past, AddToBuckets, Touch, Dropped, PushRing, Bump;
    var t := Next(s, ev);
    forall r: string
      ensures Stats(t.routeStats, r) == RouteStats(Past(t.calls, ROUTE_COUNTED, Route(r)),
                                                   Past(t.calls, ROUTE_COUNTED, RouteErrors(r)),
                                                   Past(t.calls, ROUTE_COUNTED, RouteLatency(r)))
    {
      PastStep(s, ev, ROUTE_COUNTED, Route(r));
      PastStep(s, ev, ROUTE_COUNTED, RouteErrors(r));
      PastStep(s, ev, ROUTE_COUNTED, RouteLatency(r));
      assert Stats(s.routeStats, r) == RouteStats(Past(s.calls, ROUTE_COUNTED, Route(r)),
                                                  Past(s.calls, ROUTE_COUNTED, RouteErrors(r)),
                                                  Past(s.calls, ROUTE_COUNTED, RouteLatency(r)));
    }
  }

  lemma BucketStep(s: State, ev: Event)
    requires BucketView(s) && Enabled(s, ev)
    ensures BucketView(Next(s, ev))
  {
    hide Past, Held, AddToBuckets, Touch, Dropped, PushRing, Bump, BumpRoute;
    PastStep(s, ev, BUCKETED, Requests);
    PastStep(s, ev, BUCKETED, Latency);
    PastStep(s, ev, BUCKETED, Errors);
    if ev.Advance? {
      RecordIsConserved(s.timeBuckets, s.evicted, EntryAfter(s, ev.index, ev.clockMs));
    } else if ev.TickTouch? {
      TouchIsConserved(s.timeBuckets, s.evicted, s.ticks[ev.tick]);
    }
  }

  /** What a step brings to the buckets, if anything. */
  function Brings(s: State, ev: Event): Option<Arrival>
    requires Enabled(s, ev)
  {
    match ev
    case Advance(i, _) => if s.calls[i].pc + 1 == BUCKETED then Some(Record(s.calls[i].entry)) else None
    case TickTouch(k) => Some(Tick(s.ticks[k]))
    case _ => None
  }

  lemma BringsArrival(s: State, ev: Event)
    requires Enabled(s, ev)
    ensures var t := Next(s, ev);
            match Brings(s, ev)
            case None => t.arrivals == s.arrivals && t.timeBuckets == s.timeBuckets
            case Some(a) => t.arrivals == s.arrivals + [a] && t.timeBuckets == Apply(s.timeBuckets, a)
  {
    hide AddToBuckets, Touch, Dropped, PushRing, Bump, BumpRoute;
  }

  lemma ArrivalStep(s: State, ev: Event)
    requires ArrivalView(s) && Enabled(s, ev)
    ensures ArrivalView(Next(s, ev))
  {
    hide Past, Next, Replay, Recorded, Apply, Tally, Weight;
    var t, brought := Next(s, ev), Brings(s, ev);
    BringsArrival(s, ev);
    if brought.Some? {
      ReplayAppend(s.arrivals, brought.value);
    }
    forall m: Measure ensures Tally(Recorded(t.arrivals), m) == Past(t.calls, BUCKETED, m) {
      PastStep(s, ev, BUCKETED, m);
      assert Tally(Recorded(s.arrivals), m) == Past(s.calls, BUCKETED, m);
      if brought.Some? && brought.value.Record? {
        TallyAppend(Recorded(s.arrivals), brought.value.entry, m);
      }
    }
  }

  lemma MultisetAppend<T>(s: seq<T>, x: T, y: T)
    ensures multiset(s + [x])[y] == multiset(s)[y] + if x == y then 1 else 0
  {
  }

  lemma RingStep(s: State, ev: Event)
    requires RingView(s) && Enabled(s, ev)
    ensures RingView(Next(s, ev))
  {
    hide Past, Suffix, Next;
    var t := Next(s, ev);
    RingSuffixStep(s, ev);
    forall v: nat ensures multiset(t.latencies)[v] == Past(t.calls, LATENCY_STORED, LatencyIs(v)) {
      LatencyStep(s, ev, v);
    }
    forall e: Entry ensures multiset(t.logged)[e] == Past(t.calls, LOGGED, Is(e)) {
      LogStep(s, ev, e);
    }
  }

  lemma RingSuffixStep(s: State, ev: Event)
    requires Enabled(s, ev)
    requires s.recentLatencies == Suffix(s.latencies, LATENCY_BUFFER_CAP)
    requires s.requestLog == Suffix(s.logged, RING_BUFFER_CAP)
    ensures var t := Next(s, ev);
            && t.recentLatencies == Suffix(t.latencies, LATENCY_BUFFER_CAP)
            && t.requestLog == Suffix(t.logged, RING_BUFFER_CAP)
  {
    hide Suffix, AddToBuckets, Touch, Dropped, PushRing, Bump, BumpRoute;
    if ev.Advance? {
      var e := EntryAfter(s, ev.index, ev.clockMs);
      PushRingIsSuffix(s.latencies, e.latency, LATENCY_BUFFER_CAP);
      PushRingIsSuffix(s.logged, e, RING_BUFFER_CAP);
    }
  }

  lemma LatencyStep(s: State, ev: Event, v: nat)
    requires Enabled(s, ev) && multiset(s.latencies)[v] == Past(s.calls, LATENCY_STORED, LatencyIs(v))
    ensures multiset(Next(s, ev).latencies)[v] == Past(Next(s, ev).calls, LATENCY_STORED, LatencyIs(v))
  {
    hide Past, AddToBuckets, Touch, Dropped, PushRing, Bump, BumpRoute;
    PastStep(s, ev, LATENCY_STORED, LatencyIs(v));
    if ev.Advance? {
      MultisetAppend(s.latencies, EntryAfter(s, ev.index, ev.clockMs).latency, v);
    }
  }

  lemma LogStep(s: State, ev: Event, e: Entry)
    requires Enabled(s, ev) && multiset(s.logged)[e] == Past(s.calls, LOGGED, Is(e))
    ensures multiset(Next(s, ev).logged)[e] == Past(Next(s, ev).calls, LOGGED, Is(e))
  {
    hide Past, AddToBuckets, Touch, Dropped, PushRing, Bump, BumpRoute;
    PastStep(s, ev, LOGGED, Is(e));
    if ev.Advance? {
      MultisetAppend(s.logged, EntryAfter(s, ev.index, ev.clockMs), e);
    }
  }

  lemma LoggedStays(s: State, ev: Event, e: Entry)
    requires Enabled(s, ev) && LoggedBy(s.calls, e)
    ensures LoggedBy(Next(s, ev).calls, e)
  {
    hide AddToBuckets, Touch, Dropped, PushRing, Bump, BumpRoute;
    var i :| 0 <= i < |s.calls| && s.calls[i] == Call(e, LOGGED);
    assert Next(s, ev).calls[i] == Call(e, LOGGED);
  }

  ghost predicate CallIds(calls: seq<Call>, nextId: nat) {
    && (forall i :: 0 <= i < |calls| ==> calls[i].pc <= LOGGED)
    && (forall i :: 0 <= i < |calls| && calls[i].pc >= ID_TAKEN ==> calls[i].entry.id < nextId)
    && (forall i, j :: 0 <= i < j < |calls| && calls[i].pc >= ID_TAKEN && calls[j].pc >= ID_TAKEN ==>
          calls[i].entry.id != calls[j].entry.id)
  }

  /** A step touches one call at most, and hands out one id at most. */
  lemma CallsAfter(s: State, ev: Event)
    requires Enabled(s, ev)
    ensures var t := Next(s, ev);
            match ev
            case Arrive(a) => t.calls == s.calls + [Call(a, 0)] && t.nextId == s.nextId
            case Advance(i, ms) =>
              && t.calls == s.calls[i := Call(EntryAfter(s, i, ms), s.calls[i].pc + 1)]
              && t.nextId == s.nextId + (if s.calls[i].pc == 0 then 1 else 0)
            case _ => t.calls == s.calls && t.nextId == s.nextId
  {
    hide AddToBuckets, Touch, Dropped, PushRing, Bump, BumpRoute;
  }

  lemma CallIdsStep(s: State, ev: Event)
    requires CallIds(s.calls, s.nextId) && Enabled(s, ev)
    ensures CallIds(Next(s, ev).calls, Next(s, ev).nextId)
  {
    hide Next;
    CallsAfter(s, ev);
    var t := Next(s, ev);
    if ev.Advance? {
      assert forall j :: 0 <= j < |s.calls| && j != ev.index ==> t.calls[j] == s.calls[j];
      assert s.calls[ev.index].pc >= ID_TAKEN ==> t.calls[ev.index].entry.id == s.calls[ev.index].entry.id;
    }
  }

  lemma IdStep(s: State, ev: Event)
    requires IdView(s) && Enabled(s, ev)
    ensures IdView(Next(s, ev))
  {
    hide AddToBuckets, Touch, Dropped, PushRing, Bump, BumpRoute, LoggedBy, CallIds;
    var t := Next(s, ev);
    CallIdsStep(s, ev);
    forall k | 0 <= k < |s.logged| ensures LoggedBy(t.calls, s.logged[k]) {
      LoggedStays(s, ev, s.logged[k]);
    }
    if ev.Advance? && t.calls[ev.index].pc == LOGGED {
      LogOnce(s, ev.index);
    }
  }

  lemma LogOnce(s: State, i: nat)
    requires IdView(s) && i < |s.calls| && s.calls[i].pc == LOGGED - 1
    ensures LoggedBy(s.calls[i := Call(s.calls[i].entry, LOGGED)], s.calls[i].entry)
    ensures forall k :: 0 <= k < |s.logged| ==> s.logged[k].id != s.calls[i].entry.id
  {
    assert s.calls[i := Call(s.calls[i].entry, LOGGED)][i] == Call(s.calls[i].entry, LOGGED);
    forall k | 0 <= k < |s.logged| ensures s.logged[k].id != s.calls[i].entry.id {
      assert LoggedBy(s.calls, s.logged[k]);
    }
  }

  lemma {:induction false} RunKeepsInv(s: State, run: seq<Event>)
    requires Inv(s) && Legal(s, run)
    ensures Inv(Final(s, run))
    decreases |run|
  {
    hide TotalsView, StatusView, RouteView, BucketView, ArrivalView, RingView, IdView, Next;
    if run != [] {
      TotalsStep(s, run[0]);
      StatusStep(s, run[0]);
      RouteStep(s, run[0]);
      BucketStep(s, run[0]);
      ArrivalStep(s, run[0]);
      RingStep(s, run[0]);
      IdStep(s, run[0]);
      RunKeepsInv(Next(s, run[0]), run[1..]);
    }
  }

  lemma InitialInv()
    ensures Inv(INITIAL)
  {
  }

  // ----- what an observer can rely on -----

  /** What has been counted early is either counted here too or still on its way. */
  ghost predicate Balanced(s: State, early: nat, late: nat, m: Measure, counted: nat) {
    Past(s.calls, early, m) == counted + InFlight(s.calls, early, late, m)
  }

  /** In every reachable state, whatever the interleaving: the totals exceed the detailed counters by
      exactly the calls caught between the two updates, for each status, for requests, errors and
      latency of each route, and for the buckets; nothing a bucket ever held is lost, the rings keep
      the newest arrivals, and no id is logged twice. */
  lemma InterleavedConservation(run: seq<Event>)
    requires Legal(INITIAL, run)
    ensures var s := Final(INITIAL, run);
            var held := Held(s.timeBuckets, s.evicted);
            && s.totalRequests == Sum(s.statusCounts) + InFlight(s.calls, TOTALLED, STATUS_COUNTED, Requests)
            && s.totalRequests == held.requests + InFlight(s.calls, TOTALLED, BUCKETED, Requests)
            && s.totalErrors == held.errors + InFlight(s.calls, ERROR_COUNTED, BUCKETED, Errors)
            && (forall c: nat :: Balanced(s, TOTALLED, STATUS_COUNTED, Status(c), Count(s.statusCounts, c)))
            && (forall r :: Balanced(s, TOTALLED, ROUTE_COUNTED, Route(r), Stats(s.routeStats, r).requests))
            && (forall r :: Balanced(s, ERROR_COUNTED, ROUTE_COUNTED, RouteErrors(r), Stats(s.routeStats, r).errors))
            && (forall r :: Balanced(s, TOTALLED, ROUTE_COUNTED, RouteLatency(r), Stats(s.routeStats, r).latency))
            && Balanced(s, TOTALLED, BUCKETED, Latency, held.latency)
            && s.requestLog == Suffix(s.logged, 10_000) && s.recentLatencies == Suffix(s.latencies, 10_000)
            && (forall k, l :: 0 <= k < l < |s.logged| ==> s.logged[k].id != s.logged[l].id)
  {
    hide Past, Sum, InFlight, Held, Suffix;
    InitialInv();
    RunKeepsInv(INITIAL, run);
    var s := Final(INITIAL, run);
    PastSplits(s.calls, TOTALLED, STATUS_COUNTED, Requests);
    PastSplits(s.calls, TOTALLED, BUCKETED, Requests);
    PastSplits(s.calls, ERROR_COUNTED, BUCKETED, Errors);
    PastSplits(s.calls, TOTALLED, BUCKETED, Latency);
    StatusBalance(s);
    RouteBalance(s);
  }

  lemma StatusBalance(s: State)
    requires StatusView(s)
    ensures forall c: nat :: Balanced(s, TOTALLED, STATUS_COUNTED, Status(c), Count(s.statusCounts, c))
  {
    hide Past, Sum, InFlight;
    forall c: nat ensures Balanced(s, TOTALLED, STATUS_COUNTED, Status(c), Count(s.statusCounts, c)) {
      PastSplits(s.calls, TOTALLED, STATUS_COUNTED, Status(c));
    }
  }

  lemma RouteBalance(s: State)
    requires RouteView(s)
    ensures forall r :: Balanced(s, TOTALLED, ROUTE_COUNTED, Route(r), Stats(s.routeStats, r).requests)
    ensures forall r :: Balanced(s, ERROR_COUNTED, ROUTE_COUNTED, RouteErrors(r), Stats(s.routeStats, r).errors)
    ensures forall r :: Balanced(s, TOTALLED, ROUTE_COUNTED, RouteLatency(r), Stats(s.routeStats, r).latency)
  {
    hide Past, InFlight;
    forall r
      ensures Balanced(s, TOTALLED, ROUTE_COUNTED, Route(r), Stats(s.routeStats, r).requests)
      ensures Balanced(s, ERROR_COUNTED, ROUTE_COUNTED, RouteErrors(r), Stats(s.routeStats, r).errors)
      ensures Balanced(s, TOTALLED, ROUTE_COUNTED, RouteLatency(r), Stats(s.routeStats, r).latency)
    {
      PastSplits(s.calls, TOTALLED, ROUTE_COUNTED, Route(r));
      PastSplits(s.calls, ERROR_COUNTED, ROUTE_COUNTED, RouteErrors(r));
      PastSplits(s.calls, TOTALLED, ROUTE_COUNTED, RouteLatency(r));
    }
  }

  /** The windowed count in every reachable state: at most the requests of the window that have reached
      the buckets, and all of them exactly when none was followed by sixty changes of second. */
  lemma InterleavedWindow(run: seq<Event>, now: nat, window: nat)
    requires Legal(INITIAL, run)
    ensures var s := Final(INITIAL, run);
            var lo := Oldest(now, window);
            var count, all := CountInWindow(s.timeBuckets, now, window), Past(s.calls, BUCKETED, Between(lo, now));
            && count <= all
            && (count == all <==> Undisplaced(s.arrivals, BUCKET_COUNT, lo, now))
  {
    hide Past, Undisplaced, CountInWindow, Tally, Replay, Recorded, Legal, Final, Next;
    hide TotalsView, StatusView, RouteView, BucketView, RingView, IdView;
    InitialInv();
    RunKeepsInv(INITIAL, run);
    var s := Final(INITIAL, run);
    WindowedCountExactly(s.arrivals, now, window);
    assert ArrivalView(s);
  }

  /** The requests of the calls, once all have finished. */
  function Entries(calls: seq<Call>): seq<Entry> {
    seq(|calls|, i requires 0 <= i < |calls| => calls[i].entry)
  }

  ghost predicate Quiescent(s: State) {
    forall i :: 0 <= i < |s.calls| ==> s.calls[i].pc == LOGGED
  }

  lemma {:induction false} QuiescentTally(calls: seq<Call>, stage: nat, m: Measure)
    requires stage <= LOGGED && forall i :: 0 <= i < |calls| ==> calls[i].pc == LOGGED
    ensures Past(calls, stage, m) == Tally(Entries(calls), m)
  {
    hide Weight;
    if calls != [] {
      var n := |calls| - 1;
      QuiescentTally(calls[..n], stage, m);
      assert Entries(calls)[..n] == Entries(calls[..n]);
    }
  }

  /** When no call is in flight all views agree with one history: the finished requests. */
  lemma QuiescentViewsAgree(run: seq<Event>)
    requires Legal(INITIAL, run) && Quiescent(Final(INITIAL, run))
    ensures var s := Final(INITIAL, run);
            var h := Entries(s.calls);
            && s.totalRequests == |h| == Sum(s.statusCounts)
            && s.totalErrors == Tally(h, Errors)
            && (forall c: nat :: Count(s.statusCounts, c) == Tally(h, Status(c)))
            && (forall r: string :: Stats(s.routeStats, r) ==
                  RouteStats(Tally(h, Route(r)), Tally(h, RouteErrors(r)), Tally(h, RouteLatency(r))))
            && Held(s.timeBuckets, s.evicted) == Totals(|h|, Tally(h, Latency), Tally(h, Errors))
            && multiset(s.logged) == multiset(h) && s.requestLog == Suffix(s.logged, 10_000)
            && multiset(s.latencies) == multiset(Latencies(h)) && s.recentLatencies == Suffix(s.latencies, 10_000)
  {
    hide Past, Sum, Held, Suffix, Tally, IdView, ArrivalView, Latencies;
    InitialInv();
    RunKeepsInv(INITIAL, run);
    var s := Final(INITIAL, run);
    var h := Entries(s.calls);
    TallyRequests(h);
    QuiescentTally(s.calls, TOTALLED, Requests);
    QuiescentTally(s.calls, ERROR_COUNTED, Errors);
    QuiescentTally(s.calls, STATUS_COUNTED, Requests);
    QuiescentTally(s.calls, BUCKETED, Requests);
    QuiescentTally(s.calls, BUCKETED, Latency);
    QuiescentTally(s.calls, BUCKETED, Errors);
    QuiescentRings(s);
    forall c: nat ensures Count(s.statusCounts, c) == Tally(h, Status(c)) {
      QuiescentTally(s.calls, STATUS_COUNTED, Status(c));
    }
    forall r: string ensures Stats(s.routeStats, r) ==
                             RouteStats(Tally(h, Route(r)), Tally(h, RouteErrors(r)), Tally(h, RouteLatency(r))) {
      QuiescentTally(s.calls, ROUTE_COUNTED, Route(r));
      QuiescentTally(s.calls, ROUTE_COUNTED, RouteErrors(r));
      QuiescentTally(s.calls, ROUTE_COUNTED, RouteLatency(r));
    }
  }

  lemma QuiescentRings(s: State)
    requires RingView(s) && Quiescent(s)
    ensures var h := Entries(s.calls);
            multiset(s.logged) == multiset(h) && multiset(s.latencies) == multiset(Latencies(h))
  {
    hide Past, Suffix, Tally, Latencies;
    var h := Entries(s.calls);
    forall e: Entry ensures multiset(s.logged)[e] == multiset(h)[e] {
      QuiescentTally(s.calls, LOGGED, Is(e));
      TallyIs(h, e);
    }
    forall v: nat ensures multiset(s.latencies)[v] == multiset(Latencies(h))[v] {
      QuiescentTally(s.calls, LATENCY_STORED, LatencyIs(v));
      TallyLatency(h, v);
    }
    assert multiset(s.logged) == multiset(h);
    assert multiset(s.latencies) == multiset(Latencies(h));
  }

  // ----- nothing gets in the way -----

  /** The steps the calls and ticks still have to take. */
  function StepsOpen(calls: seq<Call>): nat {
    if calls == [] then 0
    else
      var n := |calls| - 1;
      StepsOpen(calls[..n]) + if calls[n].pc < LOGGED then LOGGED - calls[n].pc else 0
  }

  lemma {:induction false} StepsOpenAdvance(calls: seq<Call>, i: nat, e: Entry)
    requires i < |calls| && calls[i].pc < LOGGED
    ensures StepsOpen(calls[i := Call(e, calls[i].pc + 1)]) + 1 == StepsOpen(calls)
  {
    var n := |calls| - 1;
    var after := calls[i := Call(e, calls[i].pc + 1)];
    if i < n {
      StepsOpenAdvance(calls[..n], i, e);
      assert after[..n] == calls[..n][i := Call(e, calls[i].pc + 1)] && after[n] == calls[n];
    } else {
      assert after[..n] == calls[..n];
    }
  }

  lemma {:induction false} SomeCallOpen(calls: seq<Call>)
    requires StepsOpen(calls) > 0
    ensures exists i :: 0 <= i < |calls| && calls[i].pc < LOGGED
  {
    var n := |calls| - 1;
    if calls[n].pc >= LOGGED {
      SomeCallOpen(calls[..n]);
      var i :| 0 <= i < n && calls[..n][i].pc < LOGGED;
      assert calls[i].pc < LOGGED;
    }
  }

  lemma {:induction false} NoCallOpen(calls: seq<Call>, i: nat)
    requires StepsOpen(calls) == 0 && i < |calls|
    ensures calls[i].pc >= LOGGED
  {
    if i < |calls| - 1 {
      NoCallOpen(calls[..|calls| - 1], i);
    }
  }

  /** From every state all calls in flight can finish, all ticks reach the buckets, and nobody else is
      needed for it. */
  lemma {:induction false} CanFinish(s: State) returns (run: seq<Event>)
    ensures Legal(s, run) && Final(s, run).ticks == [] && |Final(s, run).calls| == |s.calls|
    ensures forall i :: 0 <= i < |s.calls| ==> Final(s, run).calls[i].pc >= LOGGED
    decreases StepsOpen(s.calls) + |s.ticks|
  {
    hide Next, StepsOpen;
    if StepsOpen(s.calls) > 0 {
      SomeCallOpen(s.calls);
      var i :| 0 <= i < |s.calls| && s.calls[i].pc < LOGGED;
      var ev := Advance(i, 0);
      CallsAfter(s, ev);
      StepsOpenAdvance(s.calls, i, EntryAfter(s, i, 0));
      TicksAfter(s, ev);
      var rest := CanFinish(Next(s, ev));
      run := [ev] + rest;
      assert run[0] == ev && run[1..] == rest;
    } else if s.ticks != [] {
      var ev := TickTouch(0);
      CallsAfter(s, ev);
      TicksAfter(s, ev);
      var rest := CanFinish(Next(s, ev));
      run := [ev] + rest;
      assert run[0] == ev && run[1..] == rest;
    } else {
      run := [];
      forall i | 0 <= i < |s.calls| ensures s.calls[i].pc >= LOGGED {
        NoCallOpen(s.calls, i);
      }
    }
  }

  lemma TicksAfter(s: State, ev: Event)
    requires Enabled(s, ev)
    ensures Next(s, ev).ticks == match ev
                                 case TickRead(ms) => s.ticks + [ms / 1000]
                                 case TickTouch(k) => s.ticks[..k] + s.ticks[k + 1..]
                                 case _ => s.ticks
  {
    hide AddToBuckets, Touch, Dropped, PushRing, Bump, BumpRoute;
  }
}
