/** The pieces of the metrics store of `src/admin/store.rs` and what each one must say about the
    requests recorded so far. The sequential store and the interleaved one share them. */
module MetricsViews {
  import opened Text

  const RING_BUFFER_CAP := 10_000
  const LATENCY_BUFFER_CAP := 10_000
  const BUCKET_COUNT := 60

  datatype Entry = Entry(id: nat, timestampMs: nat, verb: string, path: string, matchedRoute: Option<string>,
                         status: nat, latency: nat, target: string, error: Option<string>)
  {
    predicate IsError() {
      status >= 400 || error.Some?
    }
    function Second(): nat {
      timestampMs / 1000
    }
  }

  // ----- tallies over a history -----

  /** What can be totalled over a history. */
  datatype Measure =
    | Requests
    | Latency
    | Errors
    | Status(code: nat)
    | Route(route: string)
    | RouteErrors(route: string)
    | RouteLatency(route: string)
    | InSecond(second: nat)
    | LatencyIn(second: nat)
    | ErrorsIn(second: nat)
    | Among(seconds: set<nat>)
    | Between(lo: int, hi: int)
    | LatencyIs(value: nat)
    | Is(entry: Entry)

  function Bit(b: bool): nat {
    if b then 1 else 0
  }

  function Weight(m: Measure, e: Entry): nat {
    match m
    case Requests => 1
    case Latency => e.latency
    case Errors => Bit(e.IsError())
    case Status(c) => Bit(e.status == c)
    case Route(r) => Bit(e.matchedRoute == Some(r))
    case RouteErrors(r) => Bit(e.matchedRoute == Some(r) && e.IsError())
    case RouteLatency(r) => if e.matchedRoute == Some(r) then e.latency else 0
    case InSecond(t) => Bit(e.Second() == t)
    case LatencyIn(t) => if e.Second() == t then e.latency else 0
    case ErrorsIn(t) => Bit(e.Second() == t && e.IsError())
    case Among(s) => Bit(e.Second() in s)
    case Between(lo, hi) => Bit(lo <= e.Second() <= hi)
    case LatencyIs(v) => Bit(e.latency == v)
    case Is(other) => Bit(e == other)
  }

  function Tally(h: seq<Entry>, m: Measure): nat {
    if h == [] then 0 else Tally(h[..|h| - 1], m) + Weight(m, h[|h| - 1])
  }

  lemma TallyAppend(h: seq<Entry>, e: Entry, m: Measure)
    ensures Tally(h + [e], m) == Tally(h, m) + Weight(m, e)
  {
    assert (h + [e])[..|h|] == h;
  }

  /** Measures that weigh every entry of the history alike have the same tally. */
  lemma {:induction false} TallyAgrees(h: seq<Entry>, m: Measure, n: Measure)
    requires forall i :: 0 <= i < |h| ==> Weight(m, h[i]) == Weight(n, h[i])
    ensures Tally(h, m) == Tally(h, n)
  {
    if h != [] {
      TallyAgrees(h[..|h| - 1], m, n);
    }
  }

  lemma {:induction false} TallyRequests(h: seq<Entry>)
    ensures Tally(h, Requests) == |h|
  {
    if h != [] {
      TallyRequests(h[..|h| - 1]);
    }
  }

  lemma {:induction false} TallyIs(h: seq<Entry>, e: Entry)
    ensures Tally(h, Is(e)) == multiset(h)[e]
  {
    if h != [] {
      var n := |h| - 1;
      TallyIs(h[..n], e);
      assert h == h[..n] + [h[n]];
    }
  }

  lemma {:induction false} TallyLatency(h: seq<Entry>, v: nat)
    ensures Tally(h, LatencyIs(v)) == multiset(Latencies(h))[v]
  {
    if h != [] {
      var n := |h| - 1;
      TallyLatency(h[..n], v);
      assert h == h[..n] + [h[n]];
      LatenciesAppend(h[..n], h[n]);
    }
  }

  lemma {:induction false} TallyAmong(h: seq<Entry>, s: set<nat>, t: nat)
    requires t !in s
    ensures Tally(h, Among(s + {t})) == Tally(h, Among(s)) + Tally(h, InSecond(t))
  {
    if h != [] {
      TallyAmong(h[..|h| - 1], s, t);
    }
  }

  /** The positions of the requests with a status of 400 or more or with an error of the gateway's own. */
  ghost function ErrorsAt(h: seq<Entry>): set<int> {
    set i | 0 <= i < |h| && (h[i].status >= 400 || h[i].error != None)
  }

  /** The positions of the requests of a span of seconds, in milliseconds. */
  ghost function SpanAt(h: seq<Entry>, lo: nat, hi: nat): set<int> {
    set i | 0 <= i < |h| && lo * 1000 <= h[i].timestampMs < hi * 1000 + 1000
  }

  lemma ErrorsAtStep(h: seq<Entry>)
    requires h != []
    ensures var n := |h| - 1;
            ErrorsAt(h) == ErrorsAt(h[..n]) + (if h[n].IsError() then {n} else {}) && n !in ErrorsAt(h[..n])
  {
    var n := |h| - 1;
    assert forall i :: 0 <= i < n ==> h[..n][i] == h[i];
  }

  lemma SpanAtStep(h: seq<Entry>, lo: nat, hi: nat)
    requires h != []
    ensures var n := |h| - 1;
            && SpanAt(h, lo, hi) == SpanAt(h[..n], lo, hi) + (if lo <= h[n].Second() <= hi then {n} else {})
            && n !in SpanAt(h[..n], lo, hi)
  {
    var n := |h| - 1;
    assert forall i :: 0 <= i < n ==> h[..n][i] == h[i];
  }

  /** The error tally counts exactly these requests. */
  lemma {:induction false} ErrorsSpelledOut(h: seq<Entry>)
    ensures Tally(h, Errors) == |ErrorsAt(h)|
  {
    if h != [] {
      hide ErrorsAt;
      ErrorsSpelledOut(h[..|h| - 1]);
      ErrorsAtStep(h);
    }
  }

  lemma {:induction false} SpanSpelledOut(h: seq<Entry>, lo: nat, hi: nat)
    ensures Tally(h, Between(lo, hi)) == |SpanAt(h, lo, hi)|
  {
    if h != [] {
      hide SpanAt;
      SpanSpelledOut(h[..|h| - 1], lo, hi);
      SpanAtStep(h, lo, hi);
    }
  }

  // ----- counters in maps -----

  function Count<K>(m: map<K, nat>, k: K): nat {
    if k in m then m[k] else 0
  }

  function Bump<K>(m: map<K, nat>, k: K): map<K, nat> {
    m[k := Count(m, k) + 1]
  }

  datatype RouteStats = RouteStats(requests: nat, errors: nat, latency: nat)

  function Stats(m: map<string, RouteStats>, r: string): RouteStats {
    if r in m then m[r] else RouteStats(0, 0, 0)
  }

  function BumpRoute(m: map<string, RouteStats>, e: Entry): map<string, RouteStats> {
    match e.matchedRoute
    case None => m
    case Some(r) =>
      var s := Stats(m, r);
      m[r := RouteStats(s.requests + 1, s.errors + Bit(e.IsError()), s.latency + e.latency)]
  }

  // ----- ring buffers -----

  function Suffix<T>(s: seq<T>, n: nat): (r: seq<T>)
    ensures |r| <= n
  {
    if |s| <= n then s else s[|s| - n..]
  }

  lemma SuffixDropFirst<T>(s: seq<T>, n: nat)
    requires |s| > n
    ensures Suffix(s[1..], n) == Suffix(s, n)
  {
  }

  /** Push, dropping the oldest element of a full buffer first. */
  function PushRing<T>(s: seq<T>, x: T, cap: nat): seq<T>
    requires cap > 0
  {
    (if |s| >= cap then s[1..] else s) + [x]
  }

  lemma PushRingIsSuffix<T>(all: seq<T>, x: T, cap: nat)
    requires cap > 0
    ensures PushRing(Suffix(all, cap), x, cap) == Suffix(all + [x], cap)
  {
  }

  function Latencies(h: seq<Entry>): seq<nat> {
    seq(|h|, i requires 0 <= i < |h| => h[i].latency)
  }

  lemma LatenciesAppend(h: seq<Entry>, e: Entry)
    ensures Latencies(h + [e]) == Latencies(h) + [e.latency]
  {
  }

  // ----- time buckets -----

  datatype Bucket = Bucket(second: nat, requests: nat, latency: nat, errors: nat)

  /** The bucket of second `now` at the back: the newest one if it is that second's, else a new one;
      the oldest bucket is dropped when there are more than 60. */
  function Touch(buckets: seq<Bucket>, now: nat): (r: seq<Bucket>)
    ensures r != [] && r[|r| - 1].second == now
  {
    if buckets != [] && buckets[|buckets| - 1].second == now then buckets
    else Suffix(buckets + [Bucket(now, 0, 0, 0)], BUCKET_COUNT)
  }

  /** `record_request`'s update of the buckets. */
  function AddToBuckets(buckets: seq<Bucket>, e: Entry): seq<Bucket> {
    var b := Touch(buckets, e.Second());
    var last := b[|b| - 1];
    b[|b| - 1 := Bucket(last.second, last.requests + 1, last.latency + e.latency, last.errors + Bit(e.IsError()))]
  }

  ghost predicate Increasing(buckets: seq<Bucket>) {
    forall i, j :: 0 <= i < j < |buckets| ==> buckets[i].second < buckets[j].second
  }

  /** A bucket holds that second's share of the history. */
  ghost predicate Exact(b: Bucket, h: seq<Entry>) {
    && b.requests == Tally(h, InSecond(b.second))
    && b.latency == Tally(h, LatencyIn(b.second))
    && b.errors == Tally(h, ErrorsIn(b.second))
  }

  ghost predicate HasBucket(buckets: seq<Bucket>, second: nat) {
    exists i :: 0 <= i < |buckets| && buckets[i].second == second
  }

  /** The second has a bucket, or had one that was dropped before 60 newer ones. */
  ghost predicate Covered(buckets: seq<Bucket>, second: nat) {
    HasBucket(buckets, second) || (|buckets| == BUCKET_COUNT && second < buckets[0].second)
  }

  /** The buckets agree with the history, and the newest second recorded or ticked is `clock`. */
  ghost predicate BucketsAgree(buckets: seq<Bucket>, h: seq<Entry>, clock: nat) {
    && |buckets| <= BUCKET_COUNT && Increasing(buckets)
    && (forall i :: 0 <= i < |buckets| ==> Exact(buckets[i], h))
    && (forall i :: 0 <= i < |h| ==> Covered(buckets, h[i].Second()))
    && (forall i :: 0 <= i < |buckets| ==> buckets[i].second <= clock)
  }

  lemma {:induction false} SecondAbsent(h: seq<Entry>, t: nat)
    requires forall i :: 0 <= i < |h| ==> h[i].Second() != t
    ensures Tally(h, InSecond(t)) == 0 && Tally(h, LatencyIn(t)) == 0 && Tally(h, ErrorsIn(t)) == 0
  {
    if h != [] {
      SecondAbsent(h[..|h| - 1], t);
    }
  }

  lemma NewSecondIsAbsent(buckets: seq<Bucket>, h: seq<Entry>, clock: nat, now: nat)
    requires BucketsAgree(buckets, h, clock) && clock <= now && !HasBucket(buckets, now)
    ensures Exact(Bucket(now, 0, 0, 0), h)
  {
    forall i | 0 <= i < |h| ensures h[i].Second() != now {
      assert Covered(buckets, h[i].Second());
    }
    SecondAbsent(h, now);
  }

  lemma TouchKeepsCovered(buckets: seq<Bucket>, now: nat, second: nat)
    requires |buckets| <= BUCKET_COUNT && Increasing(buckets + [Bucket(now, 0, 0, 0)]) && Covered(buckets, second)
    ensures Covered(Suffix(buckets + [Bucket(now, 0, 0, 0)], BUCKET_COUNT), second)
  {
    var b := buckets + [Bucket(now, 0, 0, 0)];
    var r := Suffix(b, BUCKET_COUNT);
    if HasBucket(buckets, second) {
      var i :| 0 <= i < |buckets| && buckets[i].second == second;
      var k := |b| - |r|;
      if i >= k {
        assert r[i - k].second == second;
      } else {
        assert second == b[0].second < b[1].second == r[0].second;
      }
    } else {
      assert b[0].second < b[1].second == r[0].second;
    }
  }

  /** `tick`, and the first half of a record: the buckets still agree. */
  lemma TouchAgrees(buckets: seq<Bucket>, h: seq<Entry>, clock: nat, now: nat)
    requires BucketsAgree(buckets, h, clock) && clock <= now
    ensures BucketsAgree(Touch(buckets, now), h, now)
  {
    if buckets == [] || buckets[|buckets| - 1].second != now {
      NewBucketAgrees(buckets, h, clock, now);
    }
  }

  lemma NewBucketAgrees(buckets: seq<Bucket>, h: seq<Entry>, clock: nat, now: nat)
    requires BucketsAgree(buckets, h, clock) && clock <= now
    requires buckets == [] || buckets[|buckets| - 1].second != now
    ensures BucketsAgree(Suffix(buckets + [Bucket(now, 0, 0, 0)], BUCKET_COUNT), h, now)
  {
    hide Exact, Covered, Suffix, Increasing, HasBucket;
    var b := buckets + [Bucket(now, 0, 0, 0)];
    var r := Suffix(b, BUCKET_COUNT);
    NewSecondIsLast(buckets, h, clock, now);
    NewSecondIsAbsent(buckets, h, clock, now);
    forall i | 0 <= i < |b| ensures Exact(b[i], h) && b[i].second <= now {
    }
    forall i | 0 <= i < |h| ensures Covered(r, h[i].Second()) {
      TouchKeepsCovered(buckets, now, h[i].Second());
    }
    SuffixOfBuckets(b, h, now);
  }

  lemma SuffixOfBuckets(b: seq<Bucket>, h: seq<Entry>, now: nat)
    requires Increasing(b) && forall i :: 0 <= i < |b| ==> Exact(b[i], h) && b[i].second <= now
    ensures var r := Suffix(b, BUCKET_COUNT);
            Increasing(r) && forall i :: 0 <= i < |r| ==> Exact(r[i], h) && r[i].second <= now
  {
    hide Exact;
  }

  lemma NewSecondIsLast(buckets: seq<Bucket>, h: seq<Entry>, clock: nat, now: nat)
    requires BucketsAgree(buckets, h, clock) && clock <= now
    requires buckets == [] || buckets[|buckets| - 1].second != now
    ensures Increasing(buckets + [Bucket(now, 0, 0, 0)]) && !HasBucket(buckets, now)
  {
    hide Exact, Covered;
    if buckets != [] {
      var n := |buckets| - 1;
      assert forall i :: 0 <= i < n ==> buckets[i].second < buckets[n].second;
    }
  }

  lemma ExactAfter(b: Bucket, h: seq<Entry>, e: Entry)
    requires Exact(b, h)
    ensures if b.second == e.Second()
            then Exact(Bucket(b.second, b.requests + 1, b.latency + e.latency, b.errors + Bit(e.IsError())), h + [e])
            else Exact(b, h + [e])
  {
    hide Tally;
    var t, mine := b.second, b.second == e.Second();
    TallyAppend(h, e, InSecond(t));
    TallyAppend(h, e, LatencyIn(t));
    TallyAppend(h, e, ErrorsIn(t));
    assert Weight(InSecond(t), e) == Bit(mine) && Weight(LatencyIn(t), e) == if mine then e.latency else 0;
    assert Weight(ErrorsIn(t), e) == if mine then Bit(e.IsError()) else 0;
  }

  /** A recorded request keeps the buckets in agreement with the longer history. */
  lemma AddAgrees(buckets: seq<Bucket>, h: seq<Entry>, clock: nat, e: Entry)
    requires BucketsAgree(buckets, h, clock) && clock <= e.Second()
    ensures BucketsAgree(AddToBuckets(buckets, e), h + [e], e.Second())
  {
    hide Exact, Touch;
    TouchAgrees(buckets, h, clock, e.Second());
    var b := Touch(buckets, e.Second());
    var r := AddToBuckets(buckets, e);
    var n := |b| - 1;
    forall i | 0 <= i < |r| ensures Exact(r[i], h + [e]) {
      ExactAfter(b[i], h, e);
      assert i < n ==> b[i].second < b[n].second;
    }
    assert forall i :: 0 <= i < |r| ==> r[i].second == b[i].second;
    forall i | 0 <= i < |h + [e]| ensures Covered(r, (h + [e])[i].Second()) {
      if i == |h| {
        assert r[n].second == e.Second();
      } else {
        SameSecondsCover(b, r, h[i].Second());
      }
    }
  }

  lemma SameSecondsCover(b: seq<Bucket>, r: seq<Bucket>, second: nat)
    requires |b| == |r| && forall i :: 0 <= i < |r| ==> r[i].second == b[i].second
    requires Covered(b, second)
    ensures Covered(r, second)
  {
    if HasBucket(b, second) {
      var i :| 0 <= i < |b| && b[i].second == second;
      assert r[i].second == second;
    }
  }

  // ----- the windowed count -----

  /** `now_secs.saturating_sub(window.saturating_sub(1))`. */
  function Oldest(now: nat, window: nat): nat {
    var span := if window == 0 then 0 else window - 1;
    if now < span then 0 else now - span
  }

  /** The window of a count: the given number of seconds up to and including this one, and never less than
      this one. */
  lemma WindowSeconds(now: nat, window: nat, t: nat)
    ensures Oldest(now, window) <= t <= now <==> t == now || (t < now < t + window)
  {
  }

  function SumBetween(buckets: seq<Bucket>, lo: nat, hi: nat): nat {
    if buckets == [] then 0
    else
      var n := |buckets| - 1;
      SumBetween(buckets[..n], lo, hi) + if lo <= buckets[n].second <= hi then buckets[n].requests else 0
  }

  /** `count_in_window`. */
  function CountInWindow(buckets: seq<Bucket>, now: nat, window: nat): nat {
    SumBetween(buckets, Oldest(now, window), now)
  }

  /** The seconds between `lo` and `hi` that have a bucket. */
  ghost function Picked(buckets: seq<Bucket>, lo: nat, hi: nat): set<nat> {
    set b | b in buckets && lo <= b.second <= hi :: b.second
  }

  lemma {:induction false} SumIsTally(buckets: seq<Bucket>, h: seq<Entry>, lo: nat, hi: nat)
    requires Increasing(buckets) && forall i :: 0 <= i < |buckets| ==> Exact(buckets[i], h)
    ensures SumBetween(buckets, lo, hi) == Tally(h, Among(Picked(buckets, lo, hi)))
  {
    if buckets == [] {
      assert Picked(buckets, lo, hi) == {};
      TallyNone(h);
    } else {
      var n := |buckets| - 1;
      var rest, b := buckets[..n], buckets[n];
      SumIsTally(rest, h, lo, hi);
      assert buckets == rest + [b];
      if lo <= b.second <= hi {
        assert b.second !in Picked(rest, lo, hi);
        assert Picked(buckets, lo, hi) == Picked(rest, lo, hi) + {b.second};
        TallyAmong(h, Picked(rest, lo, hi), b.second);
      } else {
        assert Picked(buckets, lo, hi) == Picked(rest, lo, hi);
      }
    }
  }

  lemma {:induction false} TallyNone(h: seq<Entry>)
    ensures Tally(h, Among({})) == 0
  {
    if h != [] {
      TallyNone(h[..|h| - 1]);
    }
  }

  lemma {:induction false} IncreasingSpan(buckets: seq<Bucket>)
    requires Increasing(buckets) && buckets != []
    ensures buckets[|buckets| - 1].second >= buckets[0].second + |buckets| - 1
  {
    if |buckets| > 1 {
      var rest := buckets[..|buckets| - 1];
      IncreasingSpan(rest);
      assert buckets[|buckets| - 2].second < buckets[|buckets| - 1].second;
    }
  }

  /** The count is exact for every window of up to 60 seconds, although only 60 buckets are kept: a
      dropped bucket is at least 60 seconds older than the newest. */
  lemma WindowedCountIsExact(buckets: seq<Bucket>, h: seq<Entry>, clock: nat, now: nat, window: nat)
    requires BucketsAgree(buckets, h, clock) && clock <= now && window <= BUCKET_COUNT
    ensures CountInWindow(buckets, now, window) == Tally(h, Between(Oldest(now, window), now))
  {
    hide Exact, Weight, Tally;
    var lo := Oldest(now, window);
    SumIsTally(buckets, h, lo, now);
    forall i | 0 <= i < |h|
      ensures Weight(Among(Picked(buckets, lo, now)), h[i]) == Weight(Between(lo, now), h[i])
    {
      PickedInWindow(buckets, h[i], now, window);
    }
    TallyAgrees(h, Among(Picked(buckets, lo, now)), Between(lo, now));
  }

  lemma PickedInWindow(buckets: seq<Bucket>, e: Entry, now: nat, window: nat)
    requires Increasing(buckets) && Covered(buckets, e.Second()) && window <= BUCKET_COUNT
    requires forall i :: 0 <= i < |buckets| ==> buckets[i].second <= now
    ensures var lo := Oldest(now, window);
            Weight(Among(Picked(buckets, lo, now)), e) == Weight(Between(lo, now), e)
  {
    if HasBucket(buckets, e.Second()) {
      var j :| 0 <= j < |buckets| && buckets[j].second == e.Second();
      assert buckets[j] in buckets;
    } else {
      IncreasingSpan(buckets);
    }
  }
}
