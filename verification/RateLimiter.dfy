/** The sliding-window rate limiter of `src/core/middleware/rate_limit.rs`, proved to decide like an
    ideal limiter that remembers every admitted request for ever. Instants are natural numbers; the
    source reads the clock under the lock, so successive calls see non-decreasing times. */
module RateLimiter {
  type Key = string
  type Table = map<Key, seq<nat>>

  const MAX_TRACKED_CLIENTS := 10_000

  // ----- the limiter as it is stored -----

  /** `Instant::duration_since`, which is zero for a later instant. */
  function Elapsed(now: nat, t: nat): nat {
    if t <= now then now - t else 0
  }

  /** `retain` of the timestamps that are inside the window. */
  function Prune(ts: seq<nat>, now: nat, window: nat): seq<nat> {
    if ts == [] then []
    else
      var rest := Prune(ts[1..], now, window);
      if Elapsed(now, ts[0]) <= window then [ts[0]] + rest else rest
  }

  function Stored(m: Table, key: Key): seq<nat> {
    if key in m then m[key] else []
  }

  /** Mass eviction: prunes every client and forgets those with nothing left. */
  function Evict(m: Table, now: nat, window: nat): Table {
    map k | k in m && Prune(m[k], now, window) != [] :: Prune(m[k], now, window)
  }

  function MakeRoom(m: Table, key: Key, now: nat, window: nat): Table {
    if key !in m && |m| >= MAX_TRACKED_CLIENTS then Evict(m, now, window) else m
  }

  /** The table and the answer after one call of `is_rate_limited`. */
  function Step(m: Table, c: Call, limit: nat, window: nat): (r: (Table, bool)) {
    var roomy := MakeRoom(m, c.key, c.now, window);
    var recent := Prune(Stored(roomy, c.key), c.now, window);
    if |recent| >= limit then (roomy[c.key := recent], true)
    else (roomy[c.key := recent + [c.now]], false)
  }

  /** The lists of the other clients are touched only by a new client that finds 10,000 tracked: then each
      of them is pruned, and dropped if nothing is left of it. */
  lemma EvictionOnlyWhenFull(m: Table, c: Call, limit: nat, window: nat, key: Key)
    requires key != c.key
    ensures var m' := Step(m, c, limit, window).0;
            && (c.key in m || |m| < 10_000 ==> (key in m' <==> key in m) && Stored(m', key) == Stored(m, key))
            && (c.key !in m && |m| >= 10_000 ==>
                  && (key in m' <==> key in m && Prune(m[key], c.now, window) != [])
                  && (key in m' ==> m'[key] == Prune(m[key], c.now, window)))
  {
    hide Prune;
  }

  // ----- the ideal limiter -----

  datatype Call = Call(key: Key, now: nat)

  /** Everything ever admitted, oldest first. */
  type History = seq<Call>

  /** The times at which `key` was admitted. */
  function Times(h: History, key: Key): seq<nat> {
    if h == [] then []
    else
      var earlier := Times(h[..|h| - 1], key);
      var c := h[|h| - 1];
      if c.key == key then earlier + [c.now] else earlier
  }

  /** How many of `ts` lie in the closed interval from `lo` to `hi`. */
  function Within(ts: seq<nat>, lo: int, hi: int): nat {
    if ts == [] then 0
    else
      var n := |ts| - 1;
      Within(ts[..n], lo, hi) + if lo <= ts[n] <= hi then 1 else 0
  }

  /** The ideal rule: refuse when the window ending now already holds `limit` admitted requests. */
  function IdealLimited(h: History, c: Call, limit: nat, window: nat): bool {
    Within(Times(h, c.key), c.now - window, c.now) >= limit
  }

  function IdealStep(h: History, c: Call, limit: nat, window: nat): History {
    if IdealLimited(h, c, limit, window) then h else h + [c]
  }

  // ----- pruning -----

  lemma {:induction false} PruneConcat(a: seq<nat>, b: seq<nat>, now: nat, window: nat)
    ensures Prune(a + b, now, window) == Prune(a, now, window) + Prune(b, now, window)
  {
    if a == [] {
      assert a + b == b;
    } else {
      assert (a + b)[1..] == a[1..] + b;
      PruneConcat(a[1..], b, now, window);
    }
  }

  /** An earlier pruning does not affect a later one. */
  lemma {:induction false} PruneAgain(ts: seq<nat>, then_: nat, now: nat, window: nat)
    requires then_ <= now
    ensures Prune(Prune(ts, then_, window), now, window) == Prune(ts, now, window)
  {
    if ts != [] {
      PruneAgain(ts[1..], then_, now, window);
      var rest := Prune(ts[1..], then_, window);
      assert ([ts[0]] + rest)[1..] == rest;
    }
  }

  lemma {:induction false} PruneCounts(ts: seq<nat>, now: nat, window: nat)
    requires forall i :: 0 <= i < |ts| ==> ts[i] <= now
    ensures |Prune(ts, now, window)| == Within(ts, now - window, now)
  {
    if ts != [] {
      var n := |ts| - 1;
      PruneCounts(ts[..n], now, window);
      assert ts == ts[..n] + [ts[n]];
      PruneConcat(ts[..n], [ts[n]], now, window);
      PruneOne(ts[n], now, window);
    }
  }

  lemma PruneOne(t: nat, now: nat, window: nat)
    ensures Prune([t], now, window) == if Elapsed(now, t) <= window then [t] else []
  {
  }

  lemma {:induction false} PruneMembers(ts: seq<nat>, now: nat, window: nat)
    ensures forall t :: t in Prune(ts, now, window) ==> t in ts && Elapsed(now, t) <= window
    ensures |Prune(ts, now, window)| <= |ts|
  {
    if ts != [] {
      PruneMembers(ts[1..], now, window);
    }
  }

  // ----- one step refines the ideal step -----

  /** What the table has forgotten is already outside the window. */
  ghost predicate Remembers(m: Table, h: History, clock: nat, window: nat) {
    forall key: Key :: Prune(Stored(m, key), clock, window) == Prune(Times(h, key), clock, window)
  }

  ghost predicate Before(h: History, clock: nat) {
    forall i :: 0 <= i < |h| ==> h[i].now <= clock
  }

  lemma {:induction false} TimesBefore(h: History, key: Key, clock: nat)
    requires Before(h, clock)
    ensures forall i :: 0 <= i < |Times(h, key)| ==> Times(h, key)[i] <= clock
  {
    if h != [] {
      TimesBefore(h[..|h| - 1], key, clock);
    }
  }

  lemma TimesAppend(h: History, c: Call, key: Key)
    ensures Times(h + [c], key) == if c.key == key then Times(h, key) + [c.now] else Times(h, key)
  {
    assert (h + [c])[..|h|] == h;
  }

  lemma RemembersLater(m: Table, h: History, clock: nat, now: nat, window: nat, key: Key)
    requires Remembers(m, h, clock, window) && clock <= now
    ensures Prune(Stored(m, key), now, window) == Prune(Times(h, key), now, window)
  {
    PruneAgain(Stored(m, key), clock, now, window);
    PruneAgain(Times(h, key), clock, now, window);
  }

  lemma MakeRoomForgetsNothing(m: Table, key: Key, k: Key, now: nat, window: nat)
    ensures Prune(Stored(MakeRoom(m, key, now, window), k), now, window) == Prune(Stored(m, k), now, window)
  {
    PruneAgain(Stored(m, k), now, now, window);
  }

  lemma AnswerRefines(m: Table, h: History, clock: nat, c: Call, limit: nat, window: nat)
    requires Remembers(m, h, clock, window) && Before(h, clock) && clock <= c.now
    ensures Step(m, c, limit, window).1 == IdealLimited(h, c, limit, window)
  {
    RemembersLater(m, h, clock, c.now, window, c.key);
    MakeRoomForgetsNothing(m, c.key, c.key, c.now, window);
    TimesBefore(h, c.key, c.now);
    PruneCounts(Times(h, c.key), c.now, window);
  }

  lemma OwnKeyRemembered(m: Table, h: History, c: Call, limit: nat, window: nat)
    requires Prune(Stored(m, c.key), c.now, window) == Prune(Times(h, c.key), c.now, window)
    requires Step(m, c, limit, window).1 == IdealLimited(h, c, limit, window)
    ensures var m', h' := Step(m, c, limit, window).0, IdealStep(h, c, limit, window);
            Prune(Stored(m', c.key), c.now, window) == Prune(Times(h', c.key), c.now, window)
  {
    hide IdealLimited, MakeRoom, Times, Prune;
    var roomy := MakeRoom(m, c.key, c.now, window);
    var recent := Prune(Stored(roomy, c.key), c.now, window);
    MakeRoomForgetsNothing(m, c.key, c.key, c.now, window);
    TimesAppend(h, c, c.key);
    PruneAgain(Stored(roomy, c.key), c.now, c.now, window);
    PruneConcat(recent, [c.now], c.now, window);
    PruneConcat(Times(h, c.key), [c.now], c.now, window);
  }

  lemma OtherKeyRemembered(m: Table, h: History, c: Call, limit: nat, window: nat, k: Key)
    requires k != c.key
    requires Prune(Stored(m, k), c.now, window) == Prune(Times(h, k), c.now, window)
    ensures var m', h' := Step(m, c, limit, window).0, IdealStep(h, c, limit, window);
            Prune(Stored(m', k), c.now, window) == Prune(Times(h', k), c.now, window)
  {
    hide IdealLimited, MakeRoom, Times, Prune;
    var roomy := MakeRoom(m, c.key, c.now, window);
    TimesAppend(h, c, k);
    MakeRoomForgetsNothing(m, c.key, k, c.now, window);
    assert Stored(Step(m, c, limit, window).0, k) == Stored(roomy, k);
  }

  /** Same answer as the ideal limiter, and the table still remembers what matters. */
  lemma StepRefines(m: Table, h: History, clock: nat, c: Call, limit: nat, window: nat)
    requires Remembers(m, h, clock, window) && Before(h, clock) && clock <= c.now
    ensures Step(m, c, limit, window).1 == IdealLimited(h, c, limit, window)
    ensures Remembers(Step(m, c, limit, window).0, IdealStep(h, c, limit, window), c.now, window)
    ensures Before(IdealStep(h, c, limit, window), c.now)
  {
    hide Step, IdealLimited, Prune, Times, Stored;
    AnswerRefines(m, h, clock, c, limit, window);
    var m', h' := Step(m, c, limit, window).0, IdealStep(h, c, limit, window);
    forall k ensures Prune(Stored(m', k), c.now, window) == Prune(Times(h', k), c.now, window) {
      RemembersLater(m, h, clock, c.now, window, k);
      if k == c.key {
        OwnKeyRemembered(m, h, c, limit, window);
      } else {
        OtherKeyRemembered(m, h, c, limit, window, k);
      }
    }
  }

  // ----- whole runs -----

  ghost predicate Chronological(calls: seq<Call>) {
    forall i, j :: 0 <= i < j < |calls| ==> calls[i].now <= calls[j].now
  }

  function Last(calls: seq<Call>): nat {
    if calls == [] then 0 else calls[|calls| - 1].now
  }

  /** The stored table and the answers after a run from the empty table. */
  function Run(calls: seq<Call>, limit: nat, window: nat): (r: (Table, seq<bool>))
    ensures |r.1| == |calls|
  {
    if calls == [] then (map[], [])
    else
      var n := |calls| - 1;
      var (m, answers) := Run(calls[..n], limit, window);
      var (m', limited) := Step(m, calls[n], limit, window);
      (m', answers + [limited])
  }

  function IdealRun(calls: seq<Call>, limit: nat, window: nat): (r: (History, seq<bool>))
    ensures |r.1| == |calls|
  {
    if calls == [] then ([], [])
    else
      var n := |calls| - 1;
      var (h, answers) := IdealRun(calls[..n], limit, window);
      (IdealStep(h, calls[n], limit, window), answers + [IdealLimited(h, calls[n], limit, window)])
  }

  /** Refinement: over every run the pruning, evicting limiter gives the ideal limiter's answer at
      every call. Mass eviction never changes a decision. */
  lemma {:induction false} LimiterRefinesIdeal(calls: seq<Call>, limit: nat, window: nat)
    requires Chronological(calls)
    ensures Run(calls, limit, window).1 == IdealRun(calls, limit, window).1
    ensures Remembers(Run(calls, limit, window).0, IdealRun(calls, limit, window).0, Last(calls), window)
    ensures Before(IdealRun(calls, limit, window).0, Last(calls))
  {
    hide Step, IdealLimited, IdealStep;
    if calls != [] {
      var n := |calls| - 1;
      LimiterRefinesIdeal(calls[..n], limit, window);
      var m, h := Run(calls[..n], limit, window).0, IdealRun(calls[..n], limit, window).0;
      assert Last(calls[..n]) <= calls[n].now;
      StepRefines(m, h, Last(calls[..n]), calls[n], limit, window);
    }
  }

  /** No closed interval of length `window` or less, wherever it is placed, holds more than `limit`
      admitted requests of one key. */
  ghost predicate WindowBounded(h: History, limit: nat, window: nat) {
    forall key: Key, a: int, b: int :: b <= a + window ==> Within(Times(h, key), a, b) <= limit
  }

  lemma {:induction false} WithinMonotone(ts: seq<nat>, lo: int, hi: int, lo': int, hi': int)
    requires forall i :: 0 <= i < |ts| && lo <= ts[i] <= hi ==> lo' <= ts[i] <= hi'
    ensures Within(ts, lo, hi) <= Within(ts, lo', hi')
  {
    if ts != [] {
      WithinMonotone(ts[..|ts| - 1], lo, hi, lo', hi');
    }
  }

  lemma WithinAppend(ts: seq<nat>, t: nat, lo: int, hi: int)
    ensures Within(ts + [t], lo, hi) == Within(ts, lo, hi) + if lo <= t <= hi then 1 else 0
  {
    assert (ts + [t])[..|ts|] == ts;
  }

  lemma IdealStepBounded(h: History, c: Call, limit: nat, window: nat)
    requires WindowBounded(h, limit, window) && Before(h, c.now)
    ensures WindowBounded(IdealStep(h, c, limit, window), limit, window)
  {
    hide Within, Times;
    var h' := IdealStep(h, c, limit, window);
    forall key: Key, a: int, b: int | b <= a + window ensures Within(Times(h', key), a, b) <= limit {
      var ts := Times(h, key);
      TimesAppend(h, c, key);
      WithinAppend(ts, c.now, a, b);
      assert Within(ts, a, b) <= limit;
      if !IdealLimited(h, c, limit, window) && key == c.key && a <= c.now <= b {
        TimesBefore(h, key, c.now);
        WithinMonotone(ts, a, b, c.now - window, c.now);
      }
    }
  }

  /** The sliding-window promise, over every run; and a refusal happens only when the window ending
      at the call holds exactly `limit` admitted requests. */
  lemma {:induction false} SlidingWindowBound(calls: seq<Call>, limit: nat, window: nat)
    requires Chronological(calls)
    ensures WindowBounded(IdealRun(calls, limit, window).0, limit, window)
    ensures calls != [] && Run(calls, limit, window).1[|calls| - 1] ==>
              var n, c := |calls| - 1, calls[|calls| - 1];
              Within(Times(IdealRun(calls[..n], limit, window).0, c.key), c.now - window, c.now) == limit
  {
    hide Step, IdealStep, Within, Times;
    if calls == [] {
      EmptyBounded(limit, window);
    } else {
      var n := |calls| - 1;
      var h := IdealRun(calls[..n], limit, window).0;
      SlidingWindowBound(calls[..n], limit, window);
      LimiterRefinesIdeal(calls[..n], limit, window);
      LimiterRefinesIdeal(calls, limit, window);
      assert Before(h, calls[n].now);
      IdealStepBounded(h, calls[n], limit, window);
      assert Within(Times(h, calls[n].key), calls[n].now - window, calls[n].now) <= limit;
    }
  }

  lemma EmptyBounded(limit: nat, window: nat)
    ensures WindowBounded([], limit, window)
  {
    forall key: Key, a: int, b: int | b <= a + window ensures Within(Times([], key), a, b) <= limit {
      assert Times([], key) == [];
    }
  }

  // ----- bounded tracking -----

  ghost predicate ShortLists(m: Table, limit: nat) {
    forall k :: k in m ==> |m[k]| <= limit
  }

  /** `key` was admitted at some moment of the window ending `now`. */
  ghost predicate RecentlyAdmitted(h: History, key: Key, now: nat, window: nat) {
    Within(Times(h, key), now - window, now) > 0
  }

  lemma StepKeepsShortLists(m: Table, c: Call, limit: nat, window: nat)
    requires ShortLists(m, limit)
    ensures ShortLists(Step(m, c, limit, window).0, limit)
  {
    var roomy := MakeRoom(m, c.key, c.now, window);
    PruneMembers(Stored(roomy, c.key), c.now, window);
    forall k | k in roomy ensures |roomy[k]| <= limit {
      PruneMembers(m[k], c.now, window);
    }
  }

  /** After a new key is inserted, at most 10,000 keys are tracked or each one still holds a
      timestamp inside the window. */
  lemma InsertKeepsTableSmall(m: Table, c: Call, limit: nat, window: nat)
    requires ShortLists(m, limit) && c.key !in m
    ensures var m' := Step(m, c, limit, window).0;
            |m'| <= MAX_TRACKED_CLIENTS || forall k :: k in m' ==> Prune(m'[k], c.now, window) != []
  {
    var m' := Step(m, c, limit, window).0;
    var roomy := MakeRoom(m, c.key, c.now, window);
    assert |m'| == |roomy| + 1;
    if |m'| > MAX_TRACKED_CLIENTS {
      assert roomy == Evict(m, c.now, window);
      forall k | k in m' ensures Prune(m'[k], c.now, window) != [] {
        if k != c.key {
          PruneAgain(m[k], c.now, c.now, window);
        } else {
          SomeKeyFull(m, c, limit, window);
          PruneOne(c.now, c.now, window);
        }
      }
    }
  }

  /** A non-empty table after eviction means the limit is at least one, so the new key is admitted. */
  lemma SomeKeyFull(m: Table, c: Call, limit: nat, window: nat)
    requires ShortLists(m, limit) && c.key !in m && Evict(m, c.now, window) != map[]
    ensures limit >= 1
  {
    var e := Evict(m, c.now, window);
    assert e.Keys != {};
    var k :| k in e.Keys;
    PruneMembers(m[k], c.now, window);
  }

  /** Over every run: no key stores more than `limit` timestamps, and whenever a new key is inserted
      either at most 10,000 keys are tracked or each of them was admitted inside the window. */
  lemma {:induction false} BoundedTracking(calls: seq<Call>, limit: nat, window: nat)
    requires Chronological(calls)
    ensures ShortLists(Run(calls, limit, window).0, limit)
    ensures calls != [] ==>
              var n := |calls| - 1;
              var before, after := Run(calls[..n], limit, window).0, Run(calls, limit, window).0;
              var h := IdealRun(calls, limit, window).0;
              calls[n].key in before || |after| <= 10_000 ||
              forall k :: k in after ==> RecentlyAdmitted(h, k, calls[n].now, window)
  {
    hide Step, IdealStep, IdealLimited, Prune, Within, Times;
    if calls != [] {
      var n := |calls| - 1;
      var before, after := Run(calls[..n], limit, window).0, Run(calls, limit, window).0;
      BoundedTracking(calls[..n], limit, window);
      StepKeepsShortLists(before, calls[n], limit, window);
      LimiterRefinesIdeal(calls, limit, window);
      var h := IdealRun(calls, limit, window).0;
      if calls[n].key !in before && |after| > MAX_TRACKED_CLIENTS {
        InsertKeepsTableSmall(before, calls[n], limit, window);
        forall k | k in after ensures RecentlyAdmitted(h, k, calls[n].now, window) {
          assert Stored(after, k) == after[k];
          TimesBefore(h, k, calls[n].now);
          PruneCounts(Times(h, k), calls[n].now, window);
        }
      }
    }
  }

  // ----- the middleware object -----

  lemma StepFacts(m: Table, h: History, clock: nat, c: Call, limit: nat, window: nat)
    requires Remembers(m, h, clock, window) && Before(h, clock) && clock <= c.now
    requires WindowBounded(h, limit, window) && ShortLists(m, limit)
    ensures var (m', limited) := Step(m, c, limit, window);
            var h' := if limited then h else h + [c];
            && Remembers(m', h', c.now, window) && Before(h', c.now)
            && WindowBounded(h', limit, window) && ShortLists(m', limit)
            && (limited <==> Within(Times(h, c.key), c.now - window, c.now) == limit)
  {
    hide Step, Within, Times, Remembers, ShortLists;
    StepRefines(m, h, clock, c, limit, window);
    StepKeepsShortLists(m, c, limit, window);
    IdealStepBounded(h, c, limit, window);
    assert Within(Times(h, c.key), c.now - window, c.now) <= limit;
  }

  class RateLimitMiddleware {
    const limit: nat
    const window: nat
    var limits: Table
    ghost var admitted: History
    ghost var clock: nat

    ghost predicate Valid()
      reads this
    {
      && Remembers(limits, admitted, clock, window)
      && Before(admitted, clock)
      && WindowBounded(admitted, limit, window)
      && ShortLists(limits, limit)
    }

    constructor (limit: nat, window: nat)
      ensures Valid() && this.limit == limit && this.window == window && admitted == [] && clock == 0
    {
      this.limit, this.window, limits, admitted, clock := limit, window, map[], [], 0;
      new;
      EmptyBounded(limit, window);
    }

    /** `is_rate_limited`: answers like the ideal limiter and records an admitted request. */
    method IsRateLimited(key: Key, now: nat) returns (limited: bool)
      requires Valid() && clock <= now
      modifies this
      ensures Valid() && clock == now
      ensures (limits, limited) == Step(old(limits), Call(key, now), limit, window)
      ensures limited <==> Within(Times(old(admitted), key), now - window, now) == limit
      ensures admitted == if limited then old(admitted) else old(admitted) + [Call(key, now)]
    {
      ghost var c := Call(key, now);
      hide Prune, Evict, Within, Times, Remembers, WindowBounded, ShortLists;
      StepFacts(limits, admitted, clock, c, limit, window);
      if !Step(limits, c, limit, window).1 {
        admitted := admitted + [c];
      }
      clock := now;

      if key !in limits && |limits| >= MAX_TRACKED_CLIENTS {
        limits := Evict(limits, now, window);
      }
      var timestamps := Prune(if key in limits then limits[key] else [], now, window);
      ghost var roomy := limits;
      limits := limits[key := timestamps];
      if |timestamps| >= limit {
        return true;
      }
      limits := limits[key := timestamps + [now]];
      assert limits == roomy[key := timestamps + [now]];
      return false;
    }
  }
}
