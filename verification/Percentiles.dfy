/** Nearest-rank percentiles (`percentile` in `src/admin/store.rs`) with the rank in exact integer
    arithmetic. */
module Percentiles {
  import StableSort

  function Value(x: nat): int {
    x
  }

  /** `sort_unstable`: equal numbers cannot be told apart, so the stable order is the order. */
  function Sorted(s: seq<nat>): seq<nat> {
    StableSort.Sort(s, Value)
  }

  /** `ceil(p / 100 * n)`: the least rank that covers `p` percent of the elements. */
  function RankOf(p: nat, n: nat): (rank: nat)
    ensures 100 * rank >= p * n && (rank > 0 ==> 100 * (rank - 1) < p * n)
  {
    (p * n + 99) / 100
  }

  /** `percentile`: the element of that rank, clamped to the ends; zero for no elements. */
  function Percentile(sorted: seq<nat>, p: nat): nat {
    var n := |sorted|;
    if n == 0 then 0
    else
      var rank := RankOf(p, n);
      var idx := if rank == 0 then 0 else rank - 1;
      sorted[if idx < n then idx else n - 1]
  }

  /** How many elements are strictly below `v`. */
  function Below(s: seq<nat>, v: int): nat {
    if s == [] then 0 else (if s[0] < v then 1 else 0) + Below(s[1..], v)
  }

  lemma {:induction false} BelowInsert(x: nat, s: seq<nat>, v: int)
    ensures Below(StableSort.Insert(x, s, Value), v) == (if x < v then 1 else 0) + Below(s, v)
  {
    if s == [] || Value(x) <= Value(s[0]) {
      assert ([x] + s)[1..] == s;
    } else {
      var rest := StableSort.Insert(x, s[1..], Value);
      assert ([s[0]] + rest)[1..] == rest;
      BelowInsert(x, s[1..], v);
    }
  }

  lemma {:induction false} BelowSorted(s: seq<nat>, v: int)
    ensures Below(Sorted(s), v) == Below(s, v)
  {
    if s != [] {
      BelowSorted(s[1..], v);
      BelowInsert(s[0], Sorted(s[1..]), v);
    }
  }

  /** In an ascending sequence, everything from index `k` on is at or above `s[k]` ... */
  lemma {:induction false} BelowAtMost(s: seq<nat>, k: nat, v: int)
    requires k <= |s| && forall i :: k <= i < |s| ==> s[i] >= v
    ensures Below(s, v) <= k
    decreases |s|
  {
    if s != [] {
      BelowAtMost(s[1..], if k == 0 then 0 else k - 1, v);
    }
  }

  /** ... and everything up to it is at or below. */
  lemma {:induction false} BelowAtLeast(s: seq<nat>, k: nat, v: int)
    requires k <= |s| && forall i :: 0 <= i < k ==> s[i] < v
    ensures Below(s, v) >= k
    decreases |s|
  {
    if k > 0 {
      BelowAtLeast(s[1..], k - 1, v);
    }
  }

  lemma TimesMonotone(p: nat, q: nat, n: nat)
    requires p <= q
    ensures p * n <= q * n
  {
  }

  lemma RankInRange(p: nat, n: nat)
    requires 1 <= p <= 100 && n > 0
    ensures 1 <= RankOf(p, n) <= n
  {
    TimesMonotone(1, p, n);
    TimesMonotone(p, 100, n);
    CeilInRange(p * n, n);
  }

  lemma CeilInRange(x: nat, n: nat)
    requires 0 < n <= x <= 100 * n
    ensures 1 <= (x + 99) / 100 <= n
  {
  }

  lemma RankMonotone(p: nat, q: nat, n: nat)
    requires p <= q
    ensures RankOf(p, n) <= RankOf(q, n)
  {
    TimesMonotone(p, q, n);
    CeilMonotone(p * n, q * n);
  }

  lemma CeilMonotone(x: nat, y: nat)
    requires x <= y
    ensures (x + 99) / 100 <= (y + 99) / 100
  {
  }

  /** `t` is `s` in ascending order. */
  ghost predicate AscendingCopy(s: seq<nat>, t: seq<nat>) {
    && |s| == |t|
    && (forall x :: x in t ==> x in s)
    && (forall i, j :: 0 <= i < j < |t| ==> t[i] <= t[j])
    && (forall v: int :: Below(t, v) == Below(s, v))
  }

  lemma SortedIsAscendingCopy(s: seq<nat>)
    ensures AscendingCopy(s, Sorted(s))
  {
    var t := Sorted(s);
    StableSort.SortContents(s, Value);
    StableSort.SortIsStableSort(s, Value);
    forall x | x in t ensures x in s {
      assert x in multiset(t);
    }
    forall i, j | 0 <= i < j < |t| ensures t[i] <= t[j] {
      assert Value(t[i]) <= Value(t[j]);
    }
    forall v: int ensures Below(t, v) == Below(s, v) {
      BelowSorted(s, v);
    }
  }

  /** The nearest-rank definition: the percentile is one of the values, at least `rank` of the values
      are at or below it, and fewer than `rank` are strictly below it. */
  ghost predicate IsPercentile(v: nat, s: seq<nat>, p: nat) {
    v in s && Below(s, v + 1) >= RankOf(p, |s|) && Below(s, v) < RankOf(p, |s|)
  }

  lemma NearestRank(s: seq<nat>, p: nat)
    requires s != [] && 1 <= p <= 100
    ensures IsPercentile(Percentile(Sorted(s), p), s, p)
  {
    hide Sorted, RankOf, Below;
    var t := Sorted(s);
    SortedIsAscendingCopy(s);
    RankInRange(p, |s|);
    var k := RankOf(p, |s|) - 1;
    var v := t[k];
    assert Percentile(t, p) == v;
    assert v in t;
    BelowAtMost(t, k, v);
    BelowAtLeast(t, k + 1, v + 1);
  }

  lemma PercentilesOrdered(s: seq<nat>, p: nat, q: nat)
    requires p <= q
    ensures Percentile(Sorted(s), p) <= Percentile(Sorted(s), q)
  {
    hide Sorted, RankOf, Below;
    SortedIsAscendingCopy(s);
    RankMonotone(p, q, |s|);
  }
}
