/** What `sort_by` promises: an ascending, stable rearrangement. The rearrangement is unique, so the
    insertion sort below stands for the library's sort whatever algorithm that uses. */
module StableSort {
  ghost predicate Ascending<T(!new)>(s: seq<T>, key: T -> int) {
    forall i, j :: 0 <= i < j < |s| ==> key(s[i]) <= key(s[j])
  }

  /** The elements with key `k`, in the order they appear. */
  function WithKey<T>(s: seq<T>, key: T -> int, k: int): seq<T> {
    if s == [] then []
    else (if key(s[0]) == k then [s[0]] else []) + WithKey(s[1..], key, k)
  }

  /** Same elements, with equal keys in the same order. */
  ghost predicate StableRearrangement<T(!new)>(s: seq<T>, t: seq<T>, key: T -> int) {
    forall k :: WithKey(s, key, k) == WithKey(t, key, k)
  }

  function Insert<T>(x: T, s: seq<T>, key: T -> int): seq<T> {
    if s == [] || key(x) <= key(s[0]) then [x] + s
    else [s[0]] + Insert(x, s[1..], key)
  }

  function Sort<T>(s: seq<T>, key: T -> int): seq<T> {
    if s == [] then [] else Insert(s[0], Sort(s[1..], key), key)
  }

  lemma {:induction false} InsertContents<T>(x: T, s: seq<T>, key: T -> int)
    ensures multiset(Insert(x, s, key)) == multiset{x} + multiset(s)
  {
    if s == [] || key(x) <= key(s[0]) {
    } else {
      InsertContents(x, s[1..], key);
      assert s == [s[0]] + s[1..];
    }
  }

  lemma {:induction false} InsertAscending<T(!new)>(x: T, s: seq<T>, key: T -> int)
    requires Ascending(s, key)
    ensures Ascending(Insert(x, s, key), key)
  {
    if s == [] || key(x) <= key(s[0]) {
    } else {
      var rest := Insert(x, s[1..], key);
      InsertAscending(x, s[1..], key);
      InsertContents(x, s[1..], key);
      forall j | 0 <= j < |rest| ensures key(s[0]) <= key(rest[j]) {
        assert rest[j] in multiset(rest);
        assert rest[j] == x || rest[j] in s[1..];
      }
    }
  }

  lemma WithKeyPrepend<T>(x: T, s: seq<T>, key: T -> int, k: int)
    ensures WithKey([x] + s, key, k) == if key(x) == k then [x] + WithKey(s, key, k) else WithKey(s, key, k)
  {
    assert ([x] + s)[1..] == s;
  }

  lemma {:induction false} InsertStable<T(!new)>(x: T, s: seq<T>, key: T -> int, k: int)
    requires Ascending(s, key)
    ensures WithKey(Insert(x, s, key), key, k) == WithKey([x] + s, key, k)
  {
    WithKeyPrepend(x, s, key, k);
    if s != [] && key(x) > key(s[0]) {
      var tail := s[1..];
      InsertStable(x, tail, key, k);
      assert s == [s[0]] + tail;
      WithKeyPrepend(s[0], tail, key, k);
      WithKeyPrepend(x, tail, key, k);
      WithKeyPrepend(s[0], Insert(x, tail, key), key, k);
    }
  }

  lemma {:induction false} SortContents<T>(s: seq<T>, key: T -> int)
    ensures multiset(Sort(s, key)) == multiset(s)
    ensures |Sort(s, key)| == |s|
  {
    if s != [] {
      SortContents(s[1..], key);
      InsertContents(s[0], Sort(s[1..], key), key);
      assert s == [s[0]] + s[1..];
      assert |multiset(Sort(s, key))| == |multiset(s)|;
    }
  }

  lemma {:induction false} SortIsStableSort<T(!new)>(s: seq<T>, key: T -> int)
    ensures Ascending(Sort(s, key), key)
    ensures StableRearrangement(s, Sort(s, key), key)
  {
    if s != [] {
      SortIsStableSort(s[1..], key);
      InsertAscending(s[0], Sort(s[1..], key), key);
      forall k ensures WithKey(s, key, k) == WithKey(Sort(s, key), key, k) {
        InsertStable(s[0], Sort(s[1..], key), key, k);
        WithKeyPrepend(s[0], Sort(s[1..], key), key, k);
        WithKeyPrepend(s[0], s[1..], key, k);
        assert s == [s[0]] + s[1..];
      }
    }
  }

  lemma {:induction false} KeyOutside<T(!new)>(s: seq<T>, key: T -> int, k: int)
    requires forall i :: 0 <= i < |s| ==> key(s[i]) != k
    ensures WithKey(s, key, k) == []
  {
    if s != [] {
      KeyOutside(s[1..], key, k);
    }
  }

  /** Two ascending stable rearrangements of the same sequence are equal. */
  lemma {:induction false} StableSortUnique<T(!new)>(a: seq<T>, b: seq<T>, key: T -> int)
    requires Ascending(a, key) && Ascending(b, key) && StableRearrangement(a, b, key)
    ensures a == b
    decreases |a| + |b|
  {
    if a == [] && b == [] {
    } else {
      FirstKeys(a, b, key);
      var k := key(a[0]);
      assert WithKey(a, key, k)[0] == a[0] && WithKey(b, key, k)[0] == b[0];
      forall j ensures WithKey(a[1..], key, j) == WithKey(b[1..], key, j) {
        assert WithKey(a, key, j) == WithKey(b, key, j);
        assert WithKey(a, key, j) == (if j == k then [a[0]] else []) + WithKey(a[1..], key, j);
        assert WithKey(b, key, j) == (if j == k then [b[0]] else []) + WithKey(b[1..], key, j);
        var skip := if j == k then 1 else 0;
        assert WithKey(a, key, j)[skip..] == WithKey(a[1..], key, j);
        assert WithKey(b, key, j)[skip..] == WithKey(b[1..], key, j);
      }
      StableSortUnique(a[1..], b[1..], key);
      assert a == [a[0]] + a[1..] && b == [b[0]] + b[1..];
    }
  }

  lemma FirstKeys<T(!new)>(a: seq<T>, b: seq<T>, key: T -> int)
    requires Ascending(a, key) && Ascending(b, key) && StableRearrangement(a, b, key)
    requires a != [] || b != []
    ensures a != [] && b != [] && key(a[0]) == key(b[0])
  {
    if a != [] && (b == [] || key(a[0]) < key(b[0])) {
      assert WithKey(a, key, key(a[0])) == WithKey(b, key, key(a[0]));
      KeyOutside(b, key, key(a[0]));
      assert false;
    }
    if b != [] && (a == [] || key(b[0]) < key(a[0])) {
      assert WithKey(a, key, key(b[0])) == WithKey(b, key, key(b[0]));
      KeyOutside(a, key, key(b[0]));
      assert false;
    }
  }
}
