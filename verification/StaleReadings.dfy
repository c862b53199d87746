/** A run of the interleaved store in which the windowed count is wrong although no clock reading is
    older than the one before: many calls read the clock just before a second ends, as many just
    after, and they reach the buckets in alternation. */
module StaleReadings {
  import opened MetricsViews
  import BA = BucketArrivals
  import opened ConcurrentRecording

  ghost predicate Reachable(s: State) {
    exists run: seq<Event> :: Legal(INITIAL, run) && Final(INITIAL, run) == s
  }

  lemma {:induction false} Prolong(s: State, run: seq<Event>, ev: Event)
    requires Legal(s, run) && Enabled(Final(s, run), ev)
    ensures Legal(s, run + [ev]) && Final(s, run + [ev]) == Next(Final(s, run), ev)
    decreases |run|
  {
    hide Next, Enabled;
    var longer := run + [ev];
    if run == [] {
      assert longer == [ev] && longer[1..] == [];
    } else {
      assert longer[0] == run[0] && longer[1..] == run[1..] + [ev];
      Prolong(Next(s, run[0]), run[1..], ev);
    }
  }

  lemma Reach(s: State, ev: Event)
    requires Reachable(s) && Enabled(s, ev)
    ensures Reachable(Next(s, ev))
  {
    hide Next, Enabled;
    var run :| Legal(INITIAL, run) && Final(INITIAL, run) == s;
    Prolong(INITIAL, run, ev);
  }

  /** What a step of call `i` does to the clock and to the arrivals. */
  lemma AdvanceEffect(s: State, i: nat, ms: nat)
    requires Enabled(s, Advance(i, ms))
    ensures var t := Next(s, Advance(i, ms));
            && t.arrivals == s.arrivals + (if s.calls[i].pc + 1 == BUCKETED then [BA.Record(s.calls[i].entry)] else [])
            && t.clock == (if s.calls[i].pc + 1 == CLOCK_READ then ms else s.clock)
            && t.steady == (s.steady && (s.calls[i].pc + 1 == CLOCK_READ ==> s.clock <= ms))
  {
    hide AddToBuckets, Touch, Dropped, PushRing, Bump, BumpRoute;
  }

  // ----- the calls arrive and take their ids -----

  /** Nothing has reached the buckets and the clock has not been seen to go back. */
  predicate Quiet(s: State, clock: nat) {
    s.arrivals == [] && s.steady && s.clock == clock
  }

  lemma {:induction false} Arrived(n: nat) returns (s: State)
    ensures Reachable(s) && Quiet(s, 0) && s.nextId == n + 1
    ensures s.calls == seq(n, i requires 0 <= i < n => Call(BA.AlternatingEntry(i), ID_TAKEN))
  {
    hide Next, Reachable;
    if n == 0 {
      s := INITIAL;
      Fresh();
    } else {
      var before := Arrived(n - 1);
      var e := BA.AlternatingEntry(n - 1);
      Reach(before, Arrive(e));
      var called := Next(before, Arrive(e));
      CallsAfter(before, Arrive(e));
      ArriveIsQuiet(before, e);
      var ev := Advance(n - 1, 0);
      Reach(called, ev);
      CallsAfter(called, ev);
      AdvanceEffect(called, n - 1, 0);
      s := Next(called, ev);
      assert EntryAfter(called, n - 1, 0) == e;
      assert called.calls[n - 1 := Call(e, ID_TAKEN)] == before.calls + [Call(e, ID_TAKEN)];
    }
  }

  lemma Fresh()
    ensures Reachable(INITIAL)
  {
    assert Legal(INITIAL, []) && Final(INITIAL, []) == INITIAL;
  }

  lemma ArriveIsQuiet(s: State, a: Entry)
    ensures var t := Next(s, Arrive(a)); t.arrivals == s.arrivals && t.clock == s.clock && t.steady == s.steady
  {
  }

  // ----- they read the clock, the odd ones in second 0 and then the even ones in second 1 -----

  /** After `j` of the `2 * k` turns call `i` has read the clock. */
  predicate HasRead(i: nat, j: nat, k: nat) {
    if i % 2 == 1 then i < j else i + k < j
  }

  predicate Reading(s: State, j: nat, k: nat) {
    && |s.calls| == k
    && forall i :: 0 <= i < k ==>
         s.calls[i] == Call(BA.AlternatingEntry(i), if HasRead(i, j, k) then CLOCK_READ else ID_TAKEN)
  }

  lemma {:induction false} Read(j: nat, k: nat) returns (s: State)
    requires j <= 2 * k
    ensures Reachable(s) && Reading(s, j, k) && Quiet(s, if j <= k then 0 else 1000)
  {
    hide Next, Reachable;
    if j == 0 {
      s := Arrived(k);
    } else {
      var before := Read(j - 1, k);
      var i := if j - 1 < k then j - 1 else j - 1 - k;
      if (i % 2 == 1) == (j - 1 < k) {
        s := ReadOne(before, i, if j - 1 < k then 0 else 1000, if j - 1 <= k then 0 else 1000);
      } else {
        s := before;
      }
    }
  }

  /** Call `i` reads the clock. */
  lemma ReadOne(s: State, i: nat, ms: nat, clock: nat) returns (t: State)
    requires Reachable(s) && Quiet(s, clock) && i < |s.calls| && s.calls[i].pc == ID_TAKEN && clock <= ms
    requires s.calls[i].entry.timestampMs == ms
    ensures Reachable(t) && Quiet(t, ms) && t.calls == s.calls[i := Call(s.calls[i].entry, CLOCK_READ)]
  {
    hide Next, Reachable;
    var ev := Advance(i, ms);
    Reach(s, ev);
    CallsAfter(s, ev);
    AdvanceEffect(s, i, ms);
    t := Next(s, ev);
    assert EntryAfter(s, i, ms) == s.calls[i].entry;
  }

  // ----- and finish one after the other -----

  lemma {:induction false} Finish(s: State, i: nat, stage: nat) returns (t: State)
    requires Reachable(s) && i < |s.calls| && s.calls[i].pc == CLOCK_READ <= stage <= LOGGED
    ensures Reachable(t) && t.calls == s.calls[i := Call(s.calls[i].entry, stage)]
    ensures t.clock == s.clock && t.steady == s.steady
    ensures t.arrivals == s.arrivals + if stage >= BUCKETED then [BA.Record(s.calls[i].entry)] else []
  {
    hide Next, Reachable;
    if stage == CLOCK_READ {
      t := s;
    } else {
      var before := Finish(s, i, stage - 1);
      var ev := Advance(i, 0);
      Reach(before, ev);
      CallsAfter(before, ev);
      AdvanceEffect(before, i, 0);
      t := Next(before, ev);
    }
  }

  predicate Finishing(s: State, n: nat, k: nat) {
    && |s.calls| == k
    && forall i :: 0 <= i < k ==> s.calls[i] == Call(BA.AlternatingEntry(i), if i < n then LOGGED else CLOCK_READ)
  }

  lemma {:induction false} Done(n: nat, k: nat) returns (s: State)
    requires 0 < k && n <= k
    ensures Reachable(s) && Finishing(s, n, k) && s.steady && s.clock == 1000 && s.arrivals == BA.Alternating(n)
  {
    hide Next, Reachable;
    if n == 0 {
      s := Read(2 * k, k);
    } else {
      var before := Done(n - 1, k);
      s := Finish(before, n - 1, LOGGED);
      BA.AlternatingStep(n);
    }
  }

  /** For any number of calls above sixty there is such a run: clock readings in order, all calls
      finished, and the count of the last five seconds is sixty. */
  lemma StaleCallsUndercount(k: nat) returns (run: seq<Event>)
    requires k > BUCKET_COUNT
    ensures Legal(INITIAL, run)
    ensures var s := Final(INITIAL, run);
            && s.steady && s.clock == 1000 && Quiescent(s)
            && Tally(Entries(s.calls), Between(0, 1)) == |s.calls| == k
            && CountInWindow(s.timeBuckets, 1, 5) == BUCKET_COUNT
  {
    hide Next, Tally, Past, CountInWindow, BA.Alternating;
    hide TotalsView, StatusView, RouteView, BucketView, RingView, IdView;
    var s := Done(k, k);
    run :| Legal(INITIAL, run) && Final(INITIAL, run) == s;
    InitialInv();
    RunKeepsInv(INITIAL, run);
    BA.AlternatingUndercounts(k);
    QuiescentTally(s.calls, BUCKETED, Between(0, 1));
    assert Tally(BA.Recorded(s.arrivals), Between(0, 1)) == Past(s.calls, BUCKETED, Between(0, 1));
  }
}
