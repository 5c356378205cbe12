/** Python's `sorted(xs, key=k, reverse=True)`: a stable sort into
    non-increasing key order, in which items with equal keys keep their input
    order. Used by the leaderboard, by `top_stocks`, and (with a negated key)
    for `order_by` on dates. */
module Sorting {

  /** The keys never increase along `s`. */
  predicate SortedDesc<T>(s: seq<T>, key: T -> real)
  {
    forall i, j :: 0 <= i < j < |s| ==> key(s[i]) >= key(s[j])
  }

  /** Neighbouring keys never increase. */
  predicate AdjacentDesc<T>(s: seq<T>, key: T -> real)
  {
    forall i :: 0 < i < |s| ==> key(s[i - 1]) >= key(s[i])
  }

  lemma {:induction false} ChainDown<T>(s: seq<T>, key: T -> real, i: nat, j: nat)
    requires AdjacentDesc(s, key) && i <= j < |s|
    ensures key(s[i]) >= key(s[j])
    decreases j - i
  {
    if i < j {
      ChainDown(s, key, i + 1, j);
    }
  }

  /** Order between neighbours gives order between any two items. */
  lemma AdjacentIsSorted<T>(s: seq<T>, key: T -> real)
    requires AdjacentDesc(s, key)
    ensures SortedDesc(s, key)
  {
    forall i, j | 0 <= i < j < |s| ensures key(s[i]) >= key(s[j]) {
      ChainDown(s, key, i, j);
    }
  }

  /** Inserts `x` after every item whose key is at least `x`'s key. */
  function Insert<T>(s: seq<T>, x: T, key: T -> real): (r: seq<T>)
    ensures |r| == |s| + 1
  {
    if s == [] then [x]
    else if key(s[0]) < key(x) then [x] + s
    else [s[0]] + Insert(s[1..], x, key)
  }

  lemma {:induction false} InsertPermutes<T>(s: seq<T>, x: T, key: T -> real)
    ensures multiset(Insert(s, x, key)) == multiset(s) + multiset{x}
  {
    if s != [] && key(s[0]) >= key(x) {
      assert Insert(s, x, key) == [s[0]] + Insert(s[1..], x, key);
      InsertPermutes(s[1..], x, key);
      assert s == [s[0]] + s[1..];
    }
  }

  /** Inserting keeps neighbouring keys in order, and the inserted sequence
      starts with `x` or with the old first item. */
  lemma {:induction false} InsertKeepsSorted<T>(s: seq<T>, x: T, key: T -> real)
    requires AdjacentDesc(s, key)
    ensures AdjacentDesc(Insert(s, x, key), key)
    ensures Insert(s, x, key)[0] == if s == [] || key(s[0]) < key(x) then x else s[0]
  {
    if s != [] && key(s[0]) >= key(x) {
      var rest := Insert(s[1..], x, key);
      var r := [s[0]] + rest;
      assert AdjacentDesc(s[1..], key) by {
        forall i | 0 < i < |s| - 1 ensures key(s[1..][i - 1]) >= key(s[1..][i]) {
          assert s[1..][i - 1] == s[i] && s[1..][i] == s[i + 1];
        }
      }
      InsertKeepsSorted(s[1..], x, key);
      forall i | 0 < i < |r| ensures key(r[i - 1]) >= key(r[i]) {
        if i == 1 {
          assert r[1] == rest[0];
          if |s| > 1 {
            assert s[1..][0] == s[1];
          }
        } else {
          assert r[i - 1] == rest[i - 2] && r[i] == rest[i - 1];
        }
      }
    } else if s != [] {
      var r := [x] + s;
      forall i | 1 < i < |r| ensures key(r[i - 1]) >= key(r[i]) {
        assert r[i - 1] == s[i - 2] && r[i] == s[i - 1];
      }
    }
  }

  /** Insertion sort, taking the items in input order. */
  function SortDesc<T>(s: seq<T>, key: T -> real): (r: seq<T>)
    ensures multiset(r) == multiset(s)
    ensures SortedDesc(r, key) && AdjacentDesc(r, key)
    ensures |r| == |s|
  {
    if s == [] then []
    else
      var init := s[..|s| - 1];
      var x := s[|s| - 1];
      assert s == init + [x];
      InsertPermutes(SortDesc(init, key), x, key);
      InsertKeepsSorted(SortDesc(init, key), x, key);
      AdjacentIsSorted(Insert(SortDesc(init, key), x, key), key);
      Insert(SortDesc(init, key), x, key)
  }

  /** The items of `s` whose key is `v`, in the order of `s`. */
  function WithKey<T>(s: seq<T>, key: T -> real, v: real): seq<T>
  {
    if s == [] then []
    else (if key(s[0]) == v then [s[0]] else []) + WithKey(s[1..], key, v)
  }

  lemma {:induction false} WithKeyAppend<T>(a: seq<T>, b: seq<T>, key: T -> real, v: real)
    ensures WithKey(a + b, key, v) == WithKey(a, key, v) + WithKey(b, key, v)
  {
    if a == [] {
      assert a + b == b;
    } else {
      var ab := a + b;
      var head := if key(a[0]) == v then [a[0]] else [];
      assert ab[0] == a[0] && ab[1..] == a[1..] + b;
      WithKeyAppend(a[1..], b, key, v);
      assert WithKey(ab, key, v) == head + (WithKey(a[1..], key, v) + WithKey(b, key, v));
      assert WithKey(a, key, v) == head + WithKey(a[1..], key, v);
    }
  }

  /** No item of `s` has a key as large as `k`. */
  lemma {:induction false} WithKeyAbsent<T>(s: seq<T>, key: T -> real, k: real)
    requires forall i :: 0 <= i < |s| ==> key(s[i]) < k
    ensures WithKey(s, key, k) == []
  {
    if s != [] { WithKeyAbsent(s[1..], key, k); }
  }

  /** Inserting into a sorted sequence puts `x` after the items that share its key. */
  lemma {:induction false} InsertIsStable<T>(s: seq<T>, x: T, key: T -> real, v: real)
    requires AdjacentDesc(s, key)
    ensures WithKey(Insert(s, x, key), key, v) == WithKey(s, key, v) + (if key(x) == v then [x] else [])
  {
    var tail := if key(x) == v then [x] else [];
    if s == [] {
      assert WithKey([x], key, v) == tail + WithKey([x][1..], key, v);
    } else if key(s[0]) < key(x) {
      var r := [x] + s;
      assert r[0] == x && r[1..] == s;
      assert WithKey(r, key, v) == tail + WithKey(s, key, v);
      if key(x) == v {
        forall i | 0 <= i < |s| ensures key(s[i]) < v {
          ChainDown(s, key, 0, i);
        }
        WithKeyAbsent(s, key, v);
      }
    } else {
      var head := if key(s[0]) == v then [s[0]] else [];
      var rest := Insert(s[1..], x, key);
      var r := [s[0]] + rest;
      assert r[0] == s[0] && r[1..] == rest;
      assert AdjacentDesc(s[1..], key) by {
        forall i | 0 < i < |s| - 1 ensures key(s[1..][i - 1]) >= key(s[1..][i]) {
          assert s[1..][i - 1] == s[i] && s[1..][i] == s[i + 1];
        }
      }
      InsertIsStable(s[1..], x, key, v);
      assert WithKey(r, key, v) == head + (WithKey(s[1..], key, v) + tail);
      assert WithKey(s, key, v) == head + WithKey(s[1..], key, v);
    }
  }

  /** Stability: for every key value, the items carrying it appear in the
      sorted output in exactly their input order. */
  lemma {:induction false} SortIsStable<T>(s: seq<T>, key: T -> real, v: real)
    ensures WithKey(SortDesc(s, key), key, v) == WithKey(s, key, v)
  {
    if s != [] {
      var init, x := s[..|s| - 1], s[|s| - 1];
      var sorted := SortDesc(init, key);
      assert s == init + [x];
      assert SortDesc(s, key) == Insert(sorted, x, key);
      SortIsStable(init, key, v);
      InsertIsStable(sorted, x, key, v);
      WithKeyAppend(init, [x], key, v);
      assert [x][1..] == [];
      assert WithKey([x], key, v) == (if key(x) == v then [x] else []) + WithKey([x][1..], key, v);
    }
  }

  /** Items that occur once in the input occur once in the output. */
  lemma SortKeepsDistinct<T>(s: seq<T>, key: T -> real)
    requires forall i, j :: 0 <= i < j < |s| ==> s[i] != s[j]
    ensures forall i, j :: 0 <= i < j < |SortDesc(s, key)| ==> SortDesc(s, key)[i] != SortDesc(s, key)[j]
  {
    var r := SortDesc(s, key);
    forall x ensures multiset(r)[x] <= 1 {
      CountAtMostOnce(s, x);
    }
    DistinctFromCounts(r);
  }

  lemma {:induction false} CountAtMostOnce<T>(s: seq<T>, x: T)
    requires forall i, j :: 0 <= i < j < |s| ==> s[i] != s[j]
    ensures multiset(s)[x] <= 1
  {
    if s != [] {
      assert s == [s[0]] + s[1..];
      CountAtMostOnce(s[1..], x);
      if s[0] == x {
        assert x !in s[1..];
      }
    }
  }

  lemma DistinctFromCounts<T>(r: seq<T>)
    requires forall x :: multiset(r)[x] <= 1
    ensures forall i, j :: 0 <= i < j < |r| ==> r[i] != r[j]
  {
    forall i, j | 0 <= i < j < |r| ensures r[i] != r[j] {
      assert r == r[..j] + r[j..];
      assert multiset(r)[r[j]] == multiset(r[..j])[r[j]] + multiset(r[j..])[r[j]];
      assert r[j] in multiset(r[j..]);
      assert r[i] in multiset(r[..j]);
    }
  }
}
