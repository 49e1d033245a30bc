/** A stable sort into descending key order. ECMAScript requires
    `Array.prototype.sort` to be stable (section 23.1.3.30 of ECMA-262, 2023
    edition), and the dashboard only ever sorts with comparators of the form
    `(a, b) => key(b) - key(a)`; this module is that sort, written as an
    insertion sort on sequences. */
module StableSort {

  /** Keys never increase from left to right. */
  predicate NonIncreasing<T>(s: seq<T>, key: T -> int) {
    forall i, j :: 0 <= i < j < |s| ==> key(s[i]) >= key(s[j])
  }

  /** Places `x` in front of the first element of `s` whose key is not above
      its own, so that `x` precedes every element with an equal key. */
  function Insert<T>(x: T, s: seq<T>, key: T -> int): (r: seq<T>)
    ensures multiset(r) == multiset(s) + multiset{x}
    ensures |r| == |s| + 1
    ensures r[0] == x || (|s| > 0 && r[0] == s[0])
    decreases |s|
  {
    if |s| == 0 || key(s[0]) <= key(x) then [x] + s
    else
      assert s == [s[0]] + s[1..];
      [s[0]] + Insert(x, s[1..], key)
  }

  /** Inserting into a sorted sequence keeps it sorted. */
  lemma {:induction false} InsertSorted<T>(x: T, s: seq<T>, key: T -> int)
    requires NonIncreasing(s, key)
    ensures NonIncreasing(Insert(x, s, key), key)
    decreases |s|
  {
    var r := Insert(x, s, key);
    if |s| == 0 || key(s[0]) <= key(x) {
      assert r == [x] + s;
      forall i, j | 0 <= i < j < |r| ensures key(r[i]) >= key(r[j]) {
        if i == 0 {
          assert r[j] == s[j - 1];
        } else {
          assert r[i] == s[i - 1] && r[j] == s[j - 1];
        }
      }
    } else {
      var t := Insert(x, s[1..], key);
      InsertSorted(x, s[1..], key);
      assert r == [s[0]] + t;
      assert key(t[0]) <= key(s[0]) by {
        if t[0] != x {
          assert t[0] == s[1];
        }
      }
      forall i, j | 0 <= i < j < |r| ensures key(r[i]) >= key(r[j]) {
        assert r[j] == t[j - 1];
        if i > 0 {
          assert r[i] == t[i - 1];
        }
      }
    }
  }

  /** The sort: a permutation of `s` in non-increasing key order. */
  function SortDesc<T>(s: seq<T>, key: T -> int): (r: seq<T>)
    ensures multiset(r) == multiset(s)
    ensures |r| == |s|
    ensures NonIncreasing(r, key)
    decreases |s|
  {
    if |s| == 0 then []
    else
      assert s == [s[0]] + s[1..];
      InsertSorted(s[0], SortDesc(s[1..], key), key);
      Insert(s[0], SortDesc(s[1..], key), key)
  }

  /** The elements of `s` whose key is `k`, in their order in `s`. */
  function WithKey<T>(s: seq<T>, key: T -> int, k: int): seq<T>
    decreases |s|
  {
    if |s| == 0 then []
    else (if key(s[0]) == k then [s[0]] else []) + WithKey(s[1..], key, k)
  }

  lemma {:induction false} InsertWithKey<T>(x: T, s: seq<T>, key: T -> int, k: int)
    ensures WithKey(Insert(x, s, key), key, k) == (if key(x) == k then [x] else []) + WithKey(s, key, k)
    decreases |s|
  {
    var r := Insert(x, s, key);
    var head := if key(x) == k then [x] else [];
    if |s| == 0 || key(s[0]) <= key(x) {
      assert r == [x] + s;
      assert r[0] == x && r[1..] == s;
      assert WithKey(r, key, k) == head + WithKey(s, key, k);
    } else {
      var tail := Insert(x, s[1..], key);
      assert r == [s[0]] + tail;
      assert r[0] == s[0] && r[1..] == tail;
      InsertWithKey(x, s[1..], key, k);
      var first := if key(s[0]) == k then [s[0]] else [];
      assert WithKey(r, key, k) == first + (head + WithKey(s[1..], key, k));
      assert first == [] || head == [];
      assert WithKey(s, key, k) == first + WithKey(s[1..], key, k);
    }
  }

  /** Stability: for every key, the elements carrying it appear in the result
      in exactly the order they had in the input. */
  lemma {:induction false} SortStable<T>(s: seq<T>, key: T -> int, k: int)
    ensures WithKey(SortDesc(s, key), key, k) == WithKey(s, key, k)
    decreases |s|
  {
    if |s| > 0 {
      SortStable(s[1..], key, k);
      InsertWithKey(s[0], SortDesc(s[1..], key), key, k);
    }
  }

  /** The first element of `s` with key `k` heads `WithKey(s, key, k)`: if `s[j]`
      has key `k`, the head is some `s[m]` with `m <= j` and key `k`. */
  lemma {:induction false} WithKeyHead<T>(s: seq<T>, key: T -> int, k: int, j: int)
    requires 0 <= j < |s| && key(s[j]) == k
    ensures |WithKey(s, key, k)| > 0
    ensures exists m :: 0 <= m <= j && key(s[m]) == k && WithKey(s, key, k)[0] == s[m]
    decreases |s|
  {
    if key(s[0]) != k {
      WithKeyHead(s[1..], key, k, j - 1);
      var m :| 0 <= m <= j - 1 && key(s[1..][m]) == k && WithKey(s[1..], key, k)[0] == s[1..][m];
      assert s[m + 1] == s[1..][m];
    } else {
      assert WithKey(s, key, k)[0] == s[0];
    }
  }

  /** The first element of the sorted sequence carries the greatest key. */
  lemma SortedHeadIsMax<T>(s: seq<T>, key: T -> int, i: int)
    requires 0 <= i < |s|
    ensures key(SortDesc(s, key)[0]) >= key(s[i])
  {
    var r := SortDesc(s, key);
    assert s[i] in multiset(r);
    var j :| 0 <= j < |r| && r[j] == s[i];
  }
}
