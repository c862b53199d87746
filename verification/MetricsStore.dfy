/** The metrics store used by one recorder at a time: every view is a function of the full request
    history, which the store itself does not keep. */
module MetricsStore {
  import opened Text
  import opened MetricsViews
  import opened Percentiles
  import opened BucketArrivals

  ghost predicate CountsAgree(counts: map<nat, nat>, h: seq<Entry>) {
    forall c: nat :: Count(counts, c) == Tally(h, Status(c)) && (c in counts <==> Tally(h, Status(c)) > 0)
  }

  ghost predicate RoutesAgree(stats: map<string, RouteStats>, h: seq<Entry>) {
    forall r: string ::
      && Stats(stats, r) == RouteStats(Tally(h, Route(r)), Tally(h, RouteErrors(r)), Tally(h, RouteLatency(r)))
      && (r in stats <==> Tally(h, Route(r)) > 0)
  }

  /** Ids are handed out in order, starting at one. */
  ghost predicate Numbered(h: seq<Entry>) {
    forall i :: 0 <= i < |h| ==> h[i].id == i + 1
  }

  ghost predicate CountersAgree(requests: nat, errors: nat, nextId: nat, counts: map<nat, nat>,
                                stats: map<string, RouteStats>, h: seq<Entry>)
  {
    && requests == |h| && errors == Tally(h, Errors) && nextId == |h| + 1 && Numbered(h)
    && CountsAgree(counts, h) && RoutesAgree(stats, h)
  }

  ghost predicate RingsAgree(log: seq<Entry>, latencies: seq<nat>, h: seq<Entry>) {
    log == Suffix(h, RING_BUFFER_CAP) && latencies == Suffix(Latencies(h), LATENCY_BUFFER_CAP)
  }

  ghost predicate ArrivalsAgree(buckets: seq<Bucket>, arrivals: seq<Arrival>, h: seq<Entry>) {
    buckets == Replay(arrivals) && Recorded(arrivals) == h
  }

  lemma CountsAfter(counts: map<nat, nat>, h: seq<Entry>, e: Entry)
    requires CountsAgree(counts, h)
    ensures CountsAgree(Bump(counts, e.status), h + [e])
  {
    hide Tally;
    forall c: nat
      ensures Count(Bump(counts, e.status), c) == Tally(h + [e], Status(c))
              && (c in Bump(counts, e.status) <==> Tally(h + [e], Status(c)) > 0)
    {
      TallyAppend(h, e, Status(c));
      assert Count(counts, c) == Tally(h, Status(c));
    }
  }

  lemma RoutesAfter(stats: map<string, RouteStats>, h: seq<Entry>, e: Entry)
    requires RoutesAgree(stats, h)
    ensures RoutesAgree(BumpRoute(stats, e), h + [e])
  {
    hide Tally;
    var after := BumpRoute(stats, e);
    forall r: string
      ensures && Stats(after, r) == RouteStats(Tally(h + [e], Route(r)), Tally(h + [e], RouteErrors(r)),
                                               Tally(h + [e], RouteLatency(r)))
              && (r in after <==> Tally(h + [e], Route(r)) > 0)
    {
      TallyAppend(h, e, Route(r));
      TallyAppend(h, e, RouteErrors(r));
      TallyAppend(h, e, RouteLatency(r));
      assert Stats(stats, r) == RouteStats(Tally(h, Route(r)), Tally(h, RouteErrors(r)), Tally(h, RouteLatency(r)));
      assert Weight(Route(r), e) == Bit(e.matchedRoute == Some(r));
    }
  }

  class Store {
    var requestLog: seq<Entry>
    var totalRequests: nat
    var totalErrors: nat
    var routeStats: map<string, RouteStats>
    var timeBuckets: seq<Bucket>
    var recentLatencies: seq<nat>
    var statusCounts: map<nat, nat>
    var nextId: nat

    ghost var history: seq<Entry>
    /** The requests and ticks in the order they reached the buckets. */
    ghost var arrivals: seq<Arrival>

    /** Every view agrees with the history. */
    ghost predicate Valid()
      reads this
    {
      && CountersAgree(totalRequests, totalErrors, nextId, statusCounts, routeStats, history)
      && RingsAgree(requestLog, recentLatencies, history)
      && ArrivalsAgree(timeBuckets, arrivals, history)
    }

    constructor ()
      ensures Valid() && history == [] && arrivals == []
    {
      requestLog, totalRequests, totalErrors, routeStats, timeBuckets, recentLatencies, statusCounts, nextId :=
        [], 0, 0, map[], [], [], map[], 1;
      history, arrivals := [], [];
    }

    /** The eviction loop: drops buckets from the front while there are more than 60. */
    method TrimBuckets()
      modifies this`timeBuckets
      ensures timeBuckets == Suffix(old(timeBuckets), BUCKET_COUNT)
    {
      while |timeBuckets| > BUCKET_COUNT
        invariant Suffix(timeBuckets, BUCKET_COUNT) == Suffix(old(timeBuckets), BUCKET_COUNT)
      {
        SuffixDropFirst(timeBuckets, BUCKET_COUNT);
        timeBuckets := timeBuckets[1..];
      }
    }

    /** The id, the totals and the two maps. */
    method CountRequest(e: Entry)
      requires CountersAgree(totalRequests, totalErrors, nextId, statusCounts, routeStats, history) && e.id == nextId
      modifies this`nextId, this`totalRequests, this`totalErrors, this`statusCounts, this`routeStats
      ensures CountersAgree(totalRequests, totalErrors, nextId, statusCounts, routeStats, history + [e])
    {
      hide CountersAgree, Bump, BumpRoute;
      CountersAfter(totalRequests, totalErrors, statusCounts, routeStats, history, e);
      nextId, totalRequests := nextId + 1, totalRequests + 1;
      totalErrors := totalErrors + (if e.IsError() then 1 else 0);
      statusCounts, routeStats := Bump(statusCounts, e.status), BumpRoute(routeStats, e);
    }

    /** The latency and request rings. */
    method PushRings(e: Entry)
      requires RingsAgree(requestLog, recentLatencies, history)
      modifies this`recentLatencies, this`requestLog
      ensures RingsAgree(requestLog, recentLatencies, history + [e])
    {
      hide RingsAgree, PushRing;
      RingsAfter(requestLog, recentLatencies, history, e);
      recentLatencies := PushRing(recentLatencies, e.latency, LATENCY_BUFFER_CAP);
      requestLog := PushRing(requestLog, e, RING_BUFFER_CAP);
    }

    /** The bucket block of `record_request`. */
    method RecordInBuckets(e: Entry)
      modifies this`timeBuckets
      ensures timeBuckets == AddToBuckets(old(timeBuckets), e)
    {
      hide Suffix;
      var isError := Bit(e.IsError());
      var n := |timeBuckets|;
      if n > 0 && timeBuckets[n - 1].second == e.Second() {
        var last := timeBuckets[n - 1];
        last := Bucket(last.second, last.requests + 1, last.latency + e.latency, last.errors + isError);
        timeBuckets := timeBuckets[n - 1 := last];
      } else {
        LastReplaced(timeBuckets, Bucket(e.Second(), 0, 0, 0), Bucket(e.Second(), 1, e.latency, isError));
        timeBuckets := timeBuckets + [Bucket(e.Second(), 1, e.latency, isError)];
        TrimBuckets();
      }
    }

    /** The newest bucket becomes that of `now`. */
    method TouchBuckets(now: nat)
      modifies this`timeBuckets
      ensures timeBuckets == Touch(old(timeBuckets), now)
    {
      hide Suffix;
      var n := |timeBuckets|;
      if n == 0 || timeBuckets[n - 1].second != now {
        timeBuckets := timeBuckets + [Bucket(now, 0, 0, 0)];
        TrimBuckets();
      }
    }

    /** `tick`: arrives at the buckets and changes no other view. */
    method Tick(now: nat)
      requires Valid()
      modifies this`timeBuckets, this`arrivals
      ensures Valid() && arrivals == old(arrivals) + [BucketArrivals.Tick(now)]
    {
      hide CountersAgree, RingsAgree, Touch;
      TouchBuckets(now);
      ReplayAppend(arrivals, BucketArrivals.Tick(now));
      arrivals := arrivals + [BucketArrivals.Tick(now)];
    }

    /** `record_request`: the history grows by exactly this request and every view follows. */
    method RecordRequest(verb: string, path: string, matchedRoute: Option<string>, target: string,
                         status: nat, latency: nat, error: Option<string>, timestampMs: nat) returns (ghost e: Entry)
      requires Valid()
      modifies this
      ensures Valid()
      ensures e == Entry(|old(history)| + 1, timestampMs, verb, path, matchedRoute, status, latency, target, error)
      ensures history == old(history) + [e] && arrivals == old(arrivals) + [Record(e)]
    {
      hide CountersAgree, RingsAgree, ArrivalsAgree, AddToBuckets;
      var entry := Entry(nextId, timestampMs, verb, path, matchedRoute, status, latency, target, error);
      e := entry;
      IdIsNext(totalRequests, totalErrors, nextId, statusCounts, routeStats, history);
      CountRequest(entry);
      RecordInBuckets(entry);
      PushRings(entry);
      RecordArrives(old(timeBuckets), arrivals, history, e);
      history, arrivals := history + [e], arrivals + [Record(e)];
    }

    /** `recent_requests`: the newest `n` requests of the whole history, newest first, as far back as
        the 10,000 that are kept. */
    method RecentRequests(n: nat) returns (r: seq<Entry>)
      requires Valid()
      ensures |r| == if n <= |requestLog| then n else |requestLog|
      ensures |requestLog| == if |history| <= 10_000 then |history| else 10_000
      ensures forall i :: 0 <= i < |r| ==> r[i] == history[|history| - 1 - i]
    {
      hide CountersAgree, ArrivalsAgree, Suffix, Latencies;
      LogIsSuffix(requestLog, history);
      r := [];
      while |r| < n && |r| < |requestLog|
        invariant |r| <= n && |r| <= |requestLog|
        invariant forall i :: 0 <= i < |r| ==> r[i] == history[|history| - 1 - i]
      {
        r := r + [requestLog[|requestLog| - 1 - |r|]];
      }
    }

    /** `get_percentiles` over the last 10,000 latencies. */
    method GetPercentiles() returns (p50: nat, p95: nat, p99: nat)
      requires Valid()
      ensures var window := Suffix(Latencies(history), 10_000);
              && (window == [] ==> p50 == p95 == p99 == 0)
              && (window != [] ==>
                   IsPercentile(p50, window, 50) && IsPercentile(p95, window, 95) && IsPercentile(p99, window, 99))
      ensures p50 <= p95 <= p99
    {
      hide Percentile, Sorted, IsPercentile, CountersAgree, ArrivalsAgree, Suffix, Latencies;
      if recentLatencies == [] {
        return 0, 0, 0;
      }
      var sorted := Sorted(recentLatencies);
      p50, p95, p99 := Percentile(sorted, 50), Percentile(sorted, 95), Percentile(sorted, 99);
      NearestRank(recentLatencies, 50);
      NearestRank(recentLatencies, 95);
      NearestRank(recentLatencies, 99);
      PercentilesOrdered(recentLatencies, 50, 95);
      PercentilesOrdered(recentLatencies, 95, 99);
    }

    /** The request count behind `compute_rps`. Whatever order requests and ticks arrived in, it never
        exceeds the requests of the last five seconds and is exact just when none of them was followed
        by sixty changes of second; so it is exact whenever the clock has not gone back. */
    method CountLastFiveSeconds(now: nat) returns (count: nat)
      requires Valid()
      ensures count <= Tally(history, Between(now - 4, now))
      ensures count == Tally(history, Between(now - 4, now)) <==>
              Undisplaced(arrivals, 60, if now < 4 then 0 else now - 4, now)
      ensures InOrder(arrivals) && Newest(arrivals) <= now ==> count == Tally(history, Between(now - 4, now))
    {
      hide Tally, Undisplaced, CountInWindow, InOrder;
      count := CountInWindow(timeBuckets, now, 5);
      TallyAgrees(history, Between(Oldest(now, 5), now), Between(now - 4, now));
      WindowedCountExactly(arrivals, now, 5);
      if InOrder(arrivals) && Newest(arrivals) <= now {
        InOrderIsExact(arrivals, now, 5);
      }
    }
  }

  lemma RecordArrives(buckets: seq<Bucket>, arrivals: seq<Arrival>, h: seq<Entry>, e: Entry)
    requires ArrivalsAgree(buckets, arrivals, h)
    ensures ArrivalsAgree(AddToBuckets(buckets, e), arrivals + [Record(e)], h + [e])
  {
    ReplayAppend(arrivals, Record(e));
  }

  lemma LastReplaced(buckets: seq<Bucket>, a: Bucket, b: Bucket)
    ensures var s := Suffix(buckets + [a], BUCKET_COUNT);
            s != [] && Suffix(buckets + [b], BUCKET_COUNT) == s[|s| - 1 := b] && s[|s| - 1] == a
  {
  }

  lemma LogIsSuffix(log: seq<Entry>, h: seq<Entry>)
    requires log == Suffix(h, RING_BUFFER_CAP)
    ensures |log| == if |h| <= RING_BUFFER_CAP then |h| else RING_BUFFER_CAP
    ensures forall i :: 0 <= i < |log| ==> log[i] == h[|h| - |log| + i]
  {
  }

  lemma NumberedAfter(h: seq<Entry>, e: Entry)
    requires Numbered(h) && e.id == |h| + 1
    ensures Numbered(h + [e])
  {
  }

  lemma IdIsNext(requests: nat, errors: nat, nextId: nat, counts: map<nat, nat>, stats: map<string, RouteStats>,
                 h: seq<Entry>)
    requires CountersAgree(requests, errors, nextId, counts, stats, h)
    ensures nextId == |h| + 1
  {
  }

  lemma RingsAfter(log: seq<Entry>, latencies: seq<nat>, h: seq<Entry>, e: Entry)
    requires RingsAgree(log, latencies, h)
    ensures RingsAgree(PushRing(log, e, RING_BUFFER_CAP), PushRing(latencies, e.latency, LATENCY_BUFFER_CAP), h + [e])
  {
    hide Suffix, PushRing, Latencies;
    PushRingIsSuffix(h, e, RING_BUFFER_CAP);
    LatenciesAppend(h, e);
    PushRingIsSuffix(Latencies(h), e.latency, LATENCY_BUFFER_CAP);
  }

  lemma CountersAfter(requests: nat, errors: nat, counts: map<nat, nat>, stats: map<string, RouteStats>,
                      h: seq<Entry>, e: Entry)
    requires CountersAgree(requests, errors, e.id, counts, stats, h)
    ensures CountersAgree(requests + 1, errors + (if e.IsError() then 1 else 0), e.id + 1,
                          Bump(counts, e.status), BumpRoute(stats, e), h + [e])
  {
    hide CountsAgree, RoutesAgree, Numbered, Tally, Bump, BumpRoute;
    TallyAppend(h, e, Errors);
    NumberedAfter(h, e);
    CountsAfter(counts, h, e);
    RoutesAfter(stats, h, e);
  }
}
