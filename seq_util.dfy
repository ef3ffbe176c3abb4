/**
 * Sequence operations the app gets from the Swift and JavaScript standard
 * libraries: sorting by a key, keeping the elements with a given key
 * (`Dictionary(grouping:)` per group, `filter`), and the sorted set of keys
 * (`keys.sorted()`).
 */
module SeqUtil {
  import opened Common

  /** No value occurs twice in `s`. */
  ghost predicate Distinct<T>(s: seq<T>) {
    forall i, j :: 0 <= i < j < |s| ==> s[i] != s[j]
  }

  /** `s` is in ascending order of `key` (equal keys allowed). */
  ghost predicate SortedBy<T>(s: seq<T>, key: T -> int) {
    forall i, j :: 0 <= i < j < |s| ==> key(s[i]) <= key(s[j])
  }

  /** `s` is strictly ascending, so it holds every value at most once. */
  ghost predicate StrictlyIncreasing(s: seq<int>) {
    forall i, j :: 0 <= i < j < |s| ==> s[i] < s[j]
  }

  lemma StrictlyIncreasingIsDistinct(s: seq<int>)
    requires StrictlyIncreasing(s)
    ensures Distinct(s)
  {
  }

  // ---------------------------------------------------------------------
  // Sorting by a key (insertion sort; the library sorts it models make no
  // promise about the order of equal keys, this one keeps input order).
  // ---------------------------------------------------------------------

  /** Inserts `x` into `s` after every leading element whose key is not larger. */
  function InsertBy<T>(s: seq<T>, x: T, key: T -> int): (r: seq<T>)
    ensures multiset(r) == multiset(s) + multiset{x}
  {
    if s == [] then [x]
    else if key(x) < key(s[0]) then [x] + s
    else
      assert s == [s[0]] + s[1..];
      [s[0]] + InsertBy(s[1..], x, key)
  }

  lemma {:induction false} InsertBySorted<T>(s: seq<T>, x: T, key: T -> int)
    requires SortedBy(s, key)
    ensures SortedBy(InsertBy(s, x, key), key)
  {
    if s != [] && key(x) < key(s[0]) {
      SortedCons(x, s, key);
    } else if s != [] {
      var t := s[1..];
      InsertBySorted(t, x, key);
      InsertByLowerBound(t, x, key, key(s[0]));
      SortedCons(s[0], InsertBy(t, x, key), key);
    }
  }

  /** A sorted sequence stays sorted behind an element whose key bounds all of its keys. */
  lemma SortedCons<T>(h: T, s: seq<T>, key: T -> int)
    requires SortedBy(s, key)
    requires forall i :: 0 <= i < |s| ==> key(h) <= key(s[i])
    ensures SortedBy([h] + s, key)
  {
    var r := [h] + s;
    forall i, j | 0 <= i < j < |r|
      ensures key(r[i]) <= key(r[j])
    {
      assert r[j] == s[j - 1];
      if i > 0 {
        assert r[i] == s[i - 1];
      }
    }
  }

  /** A lower bound of `x` and of every element of `s` bounds every element of the insertion. */
  lemma InsertByLowerBound<T>(s: seq<T>, x: T, key: T -> int, low: int)
    requires low <= key(x)
    requires forall i :: 0 <= i < |s| ==> low <= key(s[i])
    ensures forall i :: 0 <= i < |InsertBy(s, x, key)| ==> low <= key(InsertBy(s, x, key)[i])
  {
    var r := InsertBy(s, x, key);
    forall i | 0 <= i < |r|
      ensures low <= key(r[i])
    {
      assert r[i] in multiset(r);
    }
  }

  /** `s` sorted in ascending order of `key`. */
  function SortBy<T>(s: seq<T>, key: T -> int): (r: seq<T>)
    ensures SortedBy(r, key)
    ensures multiset(r) == multiset(s)
  {
    if s == [] then []
    else
      assert s == s[..|s| - 1] + [s[|s| - 1]];
      var sortedInit := SortBy(s[..|s| - 1], key);
      InsertBySorted(sortedInit, s[|s| - 1], key);
      InsertBy(sortedInit, s[|s| - 1], key)
  }

  lemma SortByLength<T>(s: seq<T>, key: T -> int)
    ensures |SortBy(s, key)| == |s|
  {
    assert |multiset(SortBy(s, key))| == |multiset(s)|;
  }

  /** The first `n` elements of `s`, or all of them when there are fewer. */
  function Take<T>(s: seq<T>, n: nat): (r: seq<T>)
    ensures |r| <= n && |r| <= |s|
    ensures |s| <= n ==> r == s
    ensures r <= s
  {
    if |s| <= n then s else s[..n]
  }

  // ---------------------------------------------------------------------
  // Selecting the elements with one key, and grouping by a list of keys
  // ---------------------------------------------------------------------

  /** The elements of `s` whose key is `k`, in their order in `s`. */
  function Select<T, K(==)>(s: seq<T>, key: T -> K, k: K): (r: seq<T>)
    ensures |r| <= |s|
    ensures forall x :: x in r ==> x in s && key(x) == k
  {
    if s == [] then []
    else Select(s[..|s| - 1], key, k) + (if key(s[|s| - 1]) == k then [s[|s| - 1]] else [])
  }

  /** Selecting keeps every element with key `k` as often as `s` has it, and nothing else. */
  lemma {:induction false} SelectCount<T, K>(s: seq<T>, key: T -> K, k: K, y: T)
    ensures multiset(Select(s, key, k))[y] == if key(y) == k then multiset(s)[y] else 0
  {
    if s != [] {
      var init, last := s[..|s| - 1], s[|s| - 1];
      assert s == init + [last];
      SelectCount(init, key, k, y);
    }
  }

  /** Nothing is selected when no element has key `k`. */
  lemma {:induction false} SelectNone<T, K>(s: seq<T>, key: T -> K, k: K)
    requires forall x :: x in s ==> key(x) != k
    ensures Select(s, key, k) == []
  {
    if s != [] {
      SelectNone(s[..|s| - 1], key, k);
    }
  }

  /** Selection distributes over concatenation, so it keeps the input order. */
  lemma {:induction false} SelectAppend<T, K>(a: seq<T>, b: seq<T>, key: T -> K, k: K)
    ensures Select(a + b, key, k) == Select(a, key, k) + Select(b, key, k)
  {
    if b != [] {
      var init, last := b[..|b| - 1], b[|b| - 1];
      assert b == init + [last];
      assert a + b == (a + init) + [last];
      SelectAppend(a, init, key, k);
    } else {
      assert a + b == a;
    }
  }

  /** The groups of `s` for the keys `ks`, one after the other. */
  function Grouped<T, K(==)>(s: seq<T>, key: T -> K, ks: seq<K>): seq<T> {
    if ks == [] then [] else Select(s, key, ks[0]) + Grouped(s, key, ks[1..])
  }

  lemma {:induction false} GroupedCount<T, K>(s: seq<T>, key: T -> K, ks: seq<K>, y: T)
    requires Distinct(ks)
    ensures multiset(Grouped(s, key, ks))[y] == if key(y) in ks then multiset(s)[y] else 0
  {
    if ks != [] {
      assert Distinct(ks[1..]);
      GroupedCount(s, key, ks[1..], y);
      SelectCount(s, key, ks[0], y);
      assert key(y) in ks <==> key(y) == ks[0] || key(y) in ks[1..];
      if key(y) == ks[0] {
        assert key(y) !in ks[1..];
      }
    }
  }

  lemma MultisetsAgree<T>(a: multiset<T>, b: multiset<T>)
    requires forall y :: a[y] == b[y]
    ensures a == b
  {
  }

  /**
   * Grouping by a list of distinct keys that covers every element loses no
   * element and duplicates none.
   */
  lemma GroupedIsPermutation<T, K>(s: seq<T>, key: T -> K, ks: seq<K>)
    requires Distinct(ks)
    requires forall x :: x in s ==> key(x) in ks
    ensures multiset(Grouped(s, key, ks)) == multiset(s)
  {
    var grouped, all := multiset(Grouped(s, key, ks)), multiset(s);
    forall y
      ensures grouped[y] == all[y]
    {
      GroupedCount(s, key, ks, y);
      if key(y) !in ks {
        assert y !in s;
      }
    }
    MultisetsAgree(grouped, all);
  }

  // ---------------------------------------------------------------------
  // The sorted set of keys
  // ---------------------------------------------------------------------

  /** The key of each element of `s`, in order. */
  function Keys<T>(s: seq<T>, key: T -> int): (r: seq<int>)
    ensures |r| == |s|
    ensures forall i :: 0 <= i < |s| ==> r[i] == key(s[i])
  {
    if s == [] then [] else [key(s[0])] + Keys(s[1..], key)
  }

  /** Inserts `x` into the strictly ascending `s` unless it is there already. */
  function InsertUnique(s: seq<int>, x: int): (r: seq<int>)
    requires StrictlyIncreasing(s)
    ensures StrictlyIncreasing(r)
    ensures forall y :: y in r <==> y in s || y == x
  {
    if s == [] then [x]
    else if x < s[0] then [x] + s
    else if x == s[0] then s
    else
      var rest := InsertUnique(s[1..], x);
      assert forall y :: y in rest ==> s[0] < y;
      var r := [s[0]] + rest;
      assert forall i, j :: 0 <= i < j < |r| ==> r[i] < r[j] by {
        forall i, j | 0 <= i < j < |r|
          ensures r[i] < r[j]
        {
          assert r[j] == rest[j - 1];
          if i == 0 {
            assert rest[j - 1] in rest;
          } else {
            assert r[i] == rest[i - 1];
          }
        }
      }
      r
  }

  /** The values of `xs` in strictly ascending order, each once. */
  function SortedSet(xs: seq<int>): (r: seq<int>)
    ensures StrictlyIncreasing(r)
    ensures forall y :: y in r <==> y in xs
  {
    if xs == [] then []
    else
      assert forall y :: y in xs <==> y in xs[..|xs| - 1] || y == xs[|xs| - 1] by {
        assert xs == xs[..|xs| - 1] + [xs[|xs| - 1]];
      }
      InsertUnique(SortedSet(xs[..|xs| - 1]), xs[|xs| - 1])
  }

  // ---------------------------------------------------------------------
  // `compactMap`
  // ---------------------------------------------------------------------

  /** The values `f` gives for the elements of `s`, in order, skipping the elements it rejects. */
  function CompactMap<A, B>(s: seq<A>, f: A -> Option<B>): (r: seq<B>)
    ensures |r| <= |s|
  {
    if s == [] then []
    else CompactMap(s[..|s| - 1], f) + (match f(s[|s| - 1]) case Some(b) => [b] case None => [])
  }

  /** A value is kept exactly when some element of `s` maps to it. */
  lemma {:induction false} CompactMapMembers<A, B>(s: seq<A>, f: A -> Option<B>)
    ensures forall b :: b in CompactMap(s, f) <==> exists a :: a in s && f(a) == Some(b)
  {
    if s != [] {
      var init, last := s[..|s| - 1], s[|s| - 1];
      CompactMapMembers(init, f);
      assert s == init + [last];
      forall b
        ensures b in CompactMap(s, f) <==> exists a :: a in s && f(a) == Some(b)
      {
        if b in CompactMap(s, f) && b !in CompactMap(init, f) {
          assert last in s && f(last) == Some(b);
        }
        if exists a :: a in s && f(a) == Some(b) {
          var a :| a in s && f(a) == Some(b);
          if a != last {
            assert a in init;
          }
        }
      }
    }
  }
}
