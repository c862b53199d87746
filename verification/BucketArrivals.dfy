/** What the sixty time buckets of `src/admin/store.rs` keep when requests and ticks reach them in any
    order, and exactly when the windowed count is right. A request is lost from the count when sixty
    buckets were opened after its own, and a bucket is opened whenever an arrival's second differs
    from that of the arrival before it. */
module BucketArrivals {
  import opened Text
  import opened MetricsViews

  /** One passage through the buckets' lock: a request of `record_request`, or a `tick`. */
  datatype Arrival = Record(entry: Entry) | Tick(now: nat) {
    function Second(): nat {
      match this case Record(e) => e.Second() case Tick(t) => t
    }
  }

  function Apply(buckets: seq<Bucket>, a: Arrival): seq<Bucket> {
    match a
    case Record(e) => AddToBuckets(buckets, e)
    case Tick(now) => Touch(buckets, now)
  }

  /** The buckets after the arrivals. */
  function Replay(h: seq<Arrival>): seq<Bucket> {
    if h == [] then [] else Apply(Replay(h[..|h| - 1]), h[|h| - 1])
  }

  /** The requests among the arrivals. */
  function Recorded(h: seq<Arrival>): seq<Entry> {
    if h == [] then []
    else
      var earlier, a := Recorded(h[..|h| - 1]), h[|h| - 1];
      if a.Record? then earlier + [a.entry] else earlier
  }

  lemma ReplayAppend(h: seq<Arrival>, a: Arrival)
    ensures Replay(h + [a]) == Apply(Replay(h), a)
    ensures Recorded(h + [a]) == if a.Record? then Recorded(h) + [a.entry] else Recorded(h)
  {
    assert (h + [a])[..|h|] == h;
  }

  // ----- the buckets without eviction -----

  function Open(buckets: seq<Bucket>, now: nat): (r: seq<Bucket>)
    ensures r != [] && r[|r| - 1].second == now
  {
    if buckets != [] && buckets[|buckets| - 1].second == now then buckets else buckets + [Bucket(now, 0, 0, 0)]
  }

  /** The newest bucket counts one more request. */
  function Grow(buckets: seq<Bucket>, e: Entry): seq<Bucket>
    requires buckets != []
  {
    var n := |buckets| - 1;
    var b := buckets[n];
    buckets[n := Bucket(b.second, b.requests + 1, b.latency + e.latency, b.errors + Bit(e.IsError()))]
  }

  function Extend(buckets: seq<Bucket>, a: Arrival): (r: seq<Bucket>)
    ensures r != [] && r[|r| - 1].second == a.Second()
  {
    var b := Open(buckets, a.Second());
    if a.Record? then Grow(b, a.entry) else b
  }

  /** Every bucket ever opened. */
  function Opened(h: seq<Arrival>): seq<Bucket> {
    if h == [] then [] else Extend(Opened(h[..|h| - 1]), h[|h| - 1])
  }

  lemma ExtendThenEvict(buckets: seq<Bucket>, a: Arrival)
    ensures Apply(Suffix(buckets, BUCKET_COUNT), a) == Suffix(Extend(buckets, a), BUCKET_COUNT)
  {
    var kept := Suffix(buckets, BUCKET_COUNT);
    assert Touch(kept, a.Second()) == Suffix(Open(buckets, a.Second()), BUCKET_COUNT);
  }

  /** The store's buckets are the last sixty ever opened. */
  lemma {:induction false} ReplayIsSuffix(h: seq<Arrival>)
    ensures Replay(h) == Suffix(Opened(h), BUCKET_COUNT)
  {
    hide Apply, Extend;
    if h != [] {
      ReplayIsSuffix(h[..|h| - 1]);
      ExtendThenEvict(Opened(h[..|h| - 1]), h[|h| - 1]);
    }
  }

  // ----- which requests the last buckets hold -----

  /** The arrival `a` after `h` finds the newest bucket to be another second's. */
  predicate Turns(h: seq<Arrival>, a: Arrival) {
    h != [] && h[|h| - 1].Second() != a.Second()
  }

  /** How often the second changes after arrival `i`. */
  function Changes(h: seq<Arrival>, i: nat): nat
    requires i < |h|
  {
    var n := |h| - 1;
    if i == n then 0 else Changes(h[..n], i) + Bit(Turns(h[..n], h[n]))
  }

  predicate Counted(a: Arrival, lo: nat, hi: nat) {
    a.Record? && lo <= a.Second() <= hi
  }

  /** The requests between two seconds that the last `keep` buckets hold. */
  function Kept(h: seq<Arrival>, keep: int, lo: nat, hi: nat): nat {
    if h == [] || keep <= 0 then 0
    else
      var n := |h| - 1;
      Kept(h[..n], keep - Bit(Turns(h[..n], h[n])), lo, hi) + Bit(Counted(h[n], lo, hi))
  }

  function Last(buckets: seq<Bucket>, keep: int): seq<Bucket> {
    if keep <= 0 then [] else Suffix(buckets, keep)
  }

  lemma SumAppend(buckets: seq<Bucket>, b: Bucket, lo: nat, hi: nat)
    ensures SumBetween(buckets + [b], lo, hi) ==
            SumBetween(buckets, lo, hi) + if lo <= b.second <= hi then b.requests else 0
  {
    assert (buckets + [b])[..|buckets|] == buckets;
  }

  lemma SumGrow(buckets: seq<Bucket>, e: Entry, lo: nat, hi: nat)
    requires buckets != []
    ensures SumBetween(Grow(buckets, e), lo, hi) ==
            SumBetween(buckets, lo, hi) + Bit(lo <= buckets[|buckets| - 1].second <= hi)
  {
    var n := |buckets| - 1;
    assert Grow(buckets, e)[..n] == buckets[..n];
  }

  lemma LastOfOpen(buckets: seq<Bucket>, now: nat, keep: int, lo: nat, hi: nat)
    requires keep > 0
    ensures var turns := buckets != [] && buckets[|buckets| - 1].second != now;
            SumBetween(Last(Open(buckets, now), keep), lo, hi) == SumBetween(Last(buckets, keep - Bit(turns)), lo, hi)
  {
    var turns := buckets != [] && buckets[|buckets| - 1].second != now;
    var empty := Bucket(now, 0, 0, 0);
    if buckets == [] || turns {
      var rest := Last(buckets, keep - Bit(turns));
      assert Last(Open(buckets, now), keep) == rest + [empty];
      SumAppend(rest, empty, lo, hi);
    }
  }

  lemma LastOfGrow(buckets: seq<Bucket>, e: Entry, keep: int)
    requires buckets != [] && keep > 0
    ensures Last(buckets, keep) != [] && Last(Grow(buckets, e), keep) == Grow(Last(buckets, keep), e)
    ensures Last(buckets, keep)[|Last(buckets, keep)| - 1] == buckets[|buckets| - 1]
  {
  }

  lemma {:induction false} OpenedEnds(h: seq<Arrival>)
    requires h != []
    ensures Opened(h) != [] && Opened(h)[|Opened(h)| - 1].second == h[|h| - 1].Second()
  {
  }

  lemma {:induction false} LastHoldKept(h: seq<Arrival>, keep: int, lo: nat, hi: nat)
    ensures SumBetween(Last(Opened(h), keep), lo, hi) == Kept(h, keep, lo, hi)
  {
    hide Open, Grow, SumBetween, Last;
    if h == [] || keep <= 0 {
      NothingHeld(keep, lo, hi, Opened(h));
    } else {
      var n := |h| - 1;
      var rest, a := h[..n], h[n];
      var before := Opened(rest);
      LastHoldKept(rest, keep - Bit(Turns(rest, a)), lo, hi);
      if rest != [] {
        OpenedEnds(rest);
      }
      LastOfOpen(before, a.Second(), keep, lo, hi);
      if a.Record? {
        var b := Open(before, a.Second());
        LastOfGrow(b, a.entry, keep);
        SumGrow(Last(b, keep), a.entry, lo, hi);
      }
    }
  }

  lemma NothingHeld(keep: int, lo: nat, hi: nat, buckets: seq<Bucket>)
    requires buckets == [] || keep <= 0
    ensures SumBetween(Last(buckets, keep), lo, hi) == 0
  {
  }

  // ----- when the count is exact -----

  /** Every request between the two seconds is followed by fewer than `keep` changes of second. */
  ghost predicate Undisplaced(h: seq<Arrival>, keep: int, lo: nat, hi: nat) {
    forall i :: 0 <= i < |h| && Counted(h[i], lo, hi) ==> Changes(h, i) < keep
  }

  lemma UndisplacedStep(h: seq<Arrival>, a: Arrival, keep: int, lo: nat, hi: nat)
    ensures Undisplaced(h + [a], keep, lo, hi) <==>
            Undisplaced(h, keep - Bit(Turns(h, a)), lo, hi) && (Counted(a, lo, hi) ==> keep > 0)
  {
    var longer, less := h + [a], keep - Bit(Turns(h, a));
    assert longer[..|h|] == h && longer[|h|] == a && Changes(longer, |h|) == 0;
    forall i | 0 <= i < |h| ensures Changes(longer, i) == Changes(h, i) + Bit(Turns(h, a)) && longer[i] == h[i] {
    }
    if Undisplaced(longer, keep, lo, hi) {
      forall i | 0 <= i < |h| && Counted(h[i], lo, hi) ensures Changes(h, i) < less {
        assert Counted(longer[i], lo, hi);
      }
      assert Counted(longer[|h|], lo, hi) ==> Changes(longer, |h|) < keep;
    }
  }

  lemma {:induction false} KeptIsAll(h: seq<Arrival>, keep: int, lo: nat, hi: nat)
    ensures Kept(h, keep, lo, hi) <= Tally(Recorded(h), Between(lo, hi))
    ensures Kept(h, keep, lo, hi) == Tally(Recorded(h), Between(lo, hi)) <==> Undisplaced(h, keep, lo, hi)
  {
    hide Undisplaced, Turns, Tally;
    if h == [] {
      NoneDisplaced(keep, lo, hi);
    } else {
      var n := |h| - 1;
      var rest, a := h[..n], h[n];
      var less := keep - Bit(Turns(rest, a));
      assert h == rest + [a];
      KeptIsAll(rest, less, lo, hi);
      UndisplacedStep(rest, a, keep, lo, hi);
      if a.Record? {
        TallyAppend(Recorded(rest), a.entry, Between(lo, hi));
      }
    }
  }

  lemma NoneDisplaced(keep: int, lo: nat, hi: nat)
    ensures Undisplaced([], keep, lo, hi) && Tally([], Between(lo, hi)) == 0
  {
  }

  /** For every order of arrival and every window: the count never exceeds the number of requests of
      the window, and equals it exactly when each of them is followed by fewer than sixty changes of
      second. */
  lemma WindowedCountExactly(h: seq<Arrival>, now: nat, window: nat)
    ensures var count := CountInWindow(Replay(h), now, window);
            var all := Tally(Recorded(h), Between(Oldest(now, window), now));
            && count <= all
            && (count == all <==> Undisplaced(h, 60, Oldest(now, window), now))
  {
    var lo := Oldest(now, window);
    ReplayIsSuffix(h);
    LastHoldKept(h, BUCKET_COUNT, lo, now);
    KeptIsAll(h, BUCKET_COUNT, lo, now);
  }

  // ----- how many late arrivals it takes -----

  /** The newest second among the arrivals. */
  function Newest(h: seq<Arrival>): nat {
    if h == [] then 0
    else
      var earlier, t := Newest(h[..|h| - 1]), h[|h| - 1].Second();
      if t < earlier then earlier else t
  }

  /** The last arrival is late: a newer second had arrived before it. */
  predicate Late(h: seq<Arrival>) {
    h != [] && h[|h| - 1].Second() < Newest(h)
  }

  /** The late arrivals from number `i` on. */
  function LateFrom(h: seq<Arrival>, i: nat): nat {
    if |h| <= i then 0 else LateFrom(h[..|h| - 1], i) + Bit(Late(h))
  }

  lemma {:induction false} NewestIsNewest(h: seq<Arrival>, i: nat)
    requires i < |h|
    ensures h[i].Second() <= Newest(h)
  {
    if i < |h| - 1 {
      NewestIsNewest(h[..|h| - 1], i);
    }
  }

  /** A change of second needs a newer second or a late arrival on one side of it. */
  lemma {:induction false} ChangesBound(h: seq<Arrival>, i: nat)
    requires i < |h|
    ensures Changes(h, i) + Bit(Late(h)) <= Newest(h) - h[i].Second() + 2 * LateFrom(h, i)
  {
    var n := |h| - 1;
    if i < n {
      ChangesBound(h[..n], i);
    }
  }

  /** So with few late arrivals the count is exact: for a window of five seconds, up to 27 of them
      since each request of the window do no harm, and for arrivals in order no window of up to sixty
      seconds is ever wrong. */
  lemma FewLateArrivals(h: seq<Arrival>, now: nat, window: nat)
    requires Newest(h) <= now
    requires forall i :: 0 <= i < |h| && Counted(h[i], Oldest(now, window), now) ==>
               now - Oldest(now, window) + 2 * LateFrom(h, i) < BUCKET_COUNT
    ensures CountInWindow(Replay(h), now, window) == Tally(Recorded(h), Between(Oldest(now, window), now))
  {
    hide Changes, LateFrom, Newest, Late, Tally, CountInWindow, Replay, Recorded;
    var lo := Oldest(now, window);
    forall i | 0 <= i < |h| && Counted(h[i], lo, now) ensures Changes(h, i) < BUCKET_COUNT {
      ChangesBound(h, i);
    }
    WindowedCountExactly(h, now, window);
  }

  /** The arrivals of a second before `t` that were overtaken by one of `t` or later. */
  function Overtaken(h: seq<Arrival>, t: nat): nat {
    if h == [] then 0
    else
      var rest, a := h[..|h| - 1], h[|h| - 1];
      Overtaken(rest, t) + Bit(a.Second() < t <= Newest(rest))
  }

  function OvertakenSum(h: seq<Arrival>, lo: nat, hi: int): nat
    decreases hi - lo
  {
    if hi < lo then 0 else OvertakenSum(h, lo, hi - 1) + Overtaken(h, hi)
  }

  /** One more arrival overtaken at `t` raises the sum over any range that includes `t`. */
  lemma {:induction false} OvertakenSumStep(h: seq<Arrival>, lo: nat, hi: int, t: nat)
    requires h != []
    ensures OvertakenSum(h[..|h| - 1], lo, hi) <= OvertakenSum(h, lo, hi)
    ensures lo <= t <= hi && h[|h| - 1].Second() < t <= Newest(h[..|h| - 1]) ==>
              OvertakenSum(h[..|h| - 1], lo, hi) + 1 <= OvertakenSum(h, lo, hi)
    decreases hi - lo
  {
    if lo <= hi {
      OvertakenSumStep(h, lo, hi - 1, t);
    }
  }

  /** A late arrival after one of second `lo` or later is overtaken: at `lo` if it is older than that,
      at the second after its own otherwise. */
  lemma {:induction false} LateAreOvertaken(h: seq<Arrival>, i: nat, lo: nat, hi: nat)
    requires i < |h| && lo <= h[i].Second() && Newest(h) <= hi
    ensures LateFrom(h, i) <= OvertakenSum(h, lo, hi)
  {
    var n := |h| - 1;
    var rest, s := h[..n], h[n].Second();
    var t := if s < lo then lo else s + 1;
    OvertakenSumStep(h, lo, hi, t);
    if i < n {
      LateAreOvertaken(rest, i, lo, hi);
      NewestIsNewest(rest, i);
    }
  }

  lemma {:induction false} OvertakenSumBound(h: seq<Arrival>, lo: nat, hi: int, k: nat)
    requires lo <= hi + 1 && forall t: nat :: Overtaken(h, t) <= k
    ensures OvertakenSum(h, lo, hi) <= k * (hi - lo + 1)
    decreases hi - lo
  {
    if lo <= hi {
      OvertakenSumBound(h, lo, hi - 1, k);
      assert k * (hi - 1 - lo + 1) + k == k * (hi - lo + 1);
    }
  }

  /** If never more than `k` arrivals are overtaken at any one second, the count is exact for windows
      short enough for that `k`. */
  lemma FewOvertaken(h: seq<Arrival>, now: nat, window: nat, k: nat)
    requires Newest(h) <= now && forall t: nat :: Overtaken(h, t) <= k
    requires var span := now - Oldest(now, window); span + 2 * (k * (span + 1)) < BUCKET_COUNT
    ensures CountInWindow(Replay(h), now, window) == Tally(Recorded(h), Between(Oldest(now, window), now))
  {
    hide Newest, LateFrom, Overtaken, OvertakenSum, CountInWindow, Tally, Replay, Recorded;
    var lo := Oldest(now, window);
    forall i | 0 <= i < |h| && Counted(h[i], lo, now) ensures now - lo + 2 * LateFrom(h, i) < BUCKET_COUNT {
      LateAreOvertaken(h, i, lo, now);
      OvertakenSumBound(h, lo, now, k);
    }
    FewLateArrivals(h, now, window);
  }

  lemma {:induction false} NoneOvertaken(h: seq<Arrival>, t: nat)
    requires Newest(h) < t
    ensures Overtaken(h, t) == 0
  {
    if h != [] {
      NoneOvertaken(h[..|h| - 1], t);
    }
  }

  lemma OvertakenAppend(h: seq<Arrival>, a: Arrival, t: nat)
    ensures Overtaken(h + [a], t) == Overtaken(h, t) + Bit(a.Second() < t <= Newest(h))
    ensures Newest(h + [a]) == if a.Second() < Newest(h) then Newest(h) else a.Second()
  {
    assert (h + [a])[..|h|] == h;
  }

  // ----- arrivals in order -----

  /** The clock readings reach the buckets in order. */
  ghost predicate InOrder(h: seq<Arrival>) {
    forall i, j :: 0 <= i < j < |h| ==> h[i].Second() <= h[j].Second()
  }

  /** Then the buckets are increasing, each holds exactly its second's requests, latency and errors,
      and every request of the last sixty seconds has its bucket. */
  lemma {:induction false} InOrderBucketsAgree(h: seq<Arrival>)
    requires InOrder(h)
    ensures BucketsAgree(Replay(h), Recorded(h), Newest(h))
  {
    hide BucketsAgree, AddToBuckets, Touch;
    if h == [] {
      NoBuckets();
    } else {
      var n := |h| - 1;
      var rest, a := h[..n], h[n];
      InOrderBucketsAgree(rest);
      NewestNotAfter(rest, a.Second());
      match a
      case Record(e) => AddAgrees(Replay(rest), Recorded(rest), Newest(rest), e);
      case Tick(now) => TouchAgrees(Replay(rest), Recorded(rest), Newest(rest), now);
    }
  }

  lemma NoBuckets()
    ensures BucketsAgree([], [], 0)
  {
  }

  lemma {:induction false} NewestNotAfter(h: seq<Arrival>, t: nat)
    requires forall i :: 0 <= i < |h| ==> h[i].Second() <= t
    ensures Newest(h) <= t
  {
    if h != [] {
      NewestNotAfter(h[..|h| - 1], t);
    }
  }

  lemma InOrderIsExact(h: seq<Arrival>, now: nat, window: nat)
    requires InOrder(h) && Newest(h) <= now && window <= BUCKET_COUNT
    ensures CountInWindow(Replay(h), now, window) == Tally(Recorded(h), Between(Oldest(now, window), now))
  {
    InOrderBucketsAgree(h);
    WindowedCountIsExact(Replay(h), Recorded(h), Newest(h), now, window);
  }

  // ----- arrivals that defeat the count -----

  /** Requests read in two neighbouring seconds, arriving in alternation. */
  function Alternating(k: nat): (h: seq<Arrival>)
    ensures |h| == k
  {
    seq(k, i requires 0 <= i < k => Record(AlternatingEntry(i)))
  }

  function AlternatingEntry(i: nat): Entry {
    Entry(i + 1, if i % 2 == 0 then 1000 else 0, "GET", "/", None, 200, 0, "", None)
  }

  lemma AlternatingStep(k: nat)
    requires k > 0
    ensures var rest, e := Alternating(k - 1), AlternatingEntry(k - 1);
            && Alternating(k) == rest + [Record(e)] && e.Second() <= 1
            && (Turns(rest, Record(e)) <==> k > 1)
  {
    var rest, e := Alternating(k - 1), AlternatingEntry(k - 1);
    assert Alternating(k) == rest + [Record(e)];
    assert k > 1 ==> rest[k - 2] == Record(AlternatingEntry(k - 2));
  }

  lemma KeptAppend(h: seq<Arrival>, a: Arrival, keep: int, lo: nat, hi: nat)
    requires keep > 0
    ensures Kept(h + [a], keep, lo, hi) == Kept(h, keep - Bit(Turns(h, a)), lo, hi) + Bit(Counted(a, lo, hi))
  {
    hide Turns, Counted;
    assert (h + [a])[..|h|] == h;
  }

  lemma {:induction false} AlternatingKept(k: nat, keep: nat)
    ensures Kept(Alternating(k), keep, 0, 1) == if k <= keep then k else keep
  {
    hide Turns, AlternatingEntry, Alternating, Kept;
    if k == 0 || keep == 0 {
      KeptNothing(Alternating(k), keep);
    } else {
      var rest, a := Alternating(k - 1), Record(AlternatingEntry(k - 1));
      AlternatingStep(k);
      KeptAppend(rest, a, keep, 0, 1);
      AlternatingKept(k - 1, keep - Bit(Turns(rest, a)));
    }
  }

  lemma KeptNothing(h: seq<Arrival>, keep: nat)
    requires h == [] || keep == 0
    ensures Kept(h, keep, 0, 1) == 0
  {
  }

  lemma {:induction false} AlternatingTally(k: nat)
    ensures Tally(Recorded(Alternating(k)), Between(0, 1)) == k
  {
    hide Tally, AlternatingEntry, Alternating;
    if k == 0 {
      NoneDisplaced(0, 0, 1);
    } else {
      var rest, e := Alternating(k - 1), AlternatingEntry(k - 1);
      AlternatingStep(k);
      AlternatingTally(k - 1);
      ReplayAppend(rest, Record(e));
      TallyAppend(Recorded(rest), e, Between(0, 1));
    }
  }

  /** Any number of requests of the last two seconds that arrive so is reported as sixty. */
  lemma AlternatingUndercounts(k: nat)
    requires k > BUCKET_COUNT
    ensures CountInWindow(Replay(Alternating(k)), 1, 5) == BUCKET_COUNT
    ensures Tally(Recorded(Alternating(k)), Between(0, 1)) == k
  {
    ReplayIsSuffix(Alternating(k));
    LastHoldKept(Alternating(k), BUCKET_COUNT, 0, 1);
    AlternatingKept(k, BUCKET_COUNT);
    AlternatingTally(k);
  }
}
