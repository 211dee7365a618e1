/**
 * Selection of the attractions nearest to a point: a stable sort on a real
 * key followed by taking a prefix, as the stream pipeline
 * `sorted(comparingDouble(key)).limit(k)` does.
 */
module Selection {

  /** `s` is in non-decreasing order of `key`. */
  ghost predicate SortedBy<T>(s: seq<T>, key: T -> real)
  {
    forall i, j :: 0 <= i < j < |s| ==> key(s[i]) <= key(s[j])
  }

  /** Inserts `x` before the first element of `s` whose key is not smaller. */
  function Insert<T>(x: T, s: seq<T>, key: T -> real): (r: seq<T>)
    ensures |r| == |s| + 1
    ensures multiset(r) == multiset(s) + multiset{x}
  {
    if s == [] then [x]
    else if key(x) <= key(s[0]) then [x] + s
    else
      assert s == [s[0]] + s[1..];
      [s[0]] + Insert(x, s[1..], key)
  }

  /**
   * Stable insertion sort: elements with equal keys keep their relative order,
   * as with the source's stream sort.
   */
  function SortBy<T>(s: seq<T>, key: T -> real): (r: seq<T>)
    ensures |r| == |s|
    ensures multiset(r) == multiset(s)
  {
    if s == [] then []
    else
      assert s == [s[0]] + s[1..];
      Insert(s[0], SortBy(s[1..], key), key)
  }

  lemma {:induction false} InsertSorted<T>(x: T, s: seq<T>, key: T -> real)
    requires SortedBy(s, key)
    ensures SortedBy(Insert(x, s, key), key)
  {
    if s != [] && key(x) > key(s[0]) {
      InsertSorted(x, s[1..], key);
      var t := Insert(x, s[1..], key);
      assert multiset(t) == multiset(s[1..]) + multiset{x};
      forall j | 0 <= j < |t| ensures key(s[0]) <= key(t[j]) {
        assert t[j] in multiset(t);
        if t[j] == x {
        } else {
          assert t[j] in multiset(s[1..]);
          var m :| 0 <= m < |s[1..]| && s[1..][m] == t[j];
          assert s[m + 1] == t[j];
        }
      }
    }
  }

  /** The sort yields an ordered permutation of its input. */
  lemma {:induction false} SortBySorted<T>(s: seq<T>, key: T -> real)
    ensures SortedBy(SortBy(s, key), key)
  {
    if s != [] {
      SortBySorted(s[1..], key);
      InsertSorted(s[0], SortBy(s[1..], key), key);
    }
  }

  /**
   * An element that no other element beats, standing first in the input, stays
   * first: ties are resolved in favour of the earlier element.
   */
  lemma {:induction false} SortByKeepsLeastFirst<T>(s: seq<T>, key: T -> real)
    requires s != []
    requires forall x :: x in s ==> key(s[0]) <= key(x)
    ensures SortBy(s, key)[0] == s[0]
  {
    var t := SortBy(s[1..], key);
    if t != [] {
      assert t[0] in multiset(s[1..]);
      assert t[0] in s[1..];
    }
  }

  /** The `k` first elements of the stable sort: the stream's `limit(k)`. */
  function TakeNearest<T>(s: seq<T>, key: T -> real, k: nat): (r: seq<T>)
    ensures |r| == if k < |s| then k else |s|
    ensures multiset(r) <= multiset(s)
    ensures SortedBy(r, key)
    ensures forall x, y :: x in r && y in s && multiset(r)[y] < multiset(s)[y] ==> key(x) <= key(y)
  {
    var t := SortBy(s, key);
    var n := if k < |s| then k else |s|;
    SortBySorted(s, key);
    TakeNearestSplit(t, key, n);
    assert t == t[..n] + t[n..];
    t[..n]
  }

  /** Every element of a sorted sequence's prefix is at most every element left behind. */
  lemma TakeNearestSplit<T>(t: seq<T>, key: T -> real, n: nat)
    requires n <= |t|
    requires SortedBy(t, key)
    ensures forall x, y :: x in t[..n] && y in t && multiset(t[..n])[y] < multiset(t)[y] ==> key(x) <= key(y)
  {
    assert t == t[..n] + t[n..];
    assert multiset(t) == multiset(t[..n]) + multiset(t[n..]);
    forall x, y | x in t[..n] && y in t && multiset(t[..n])[y] < multiset(t)[y]
      ensures key(x) <= key(y)
    {
      assert y in multiset(t[n..]);
      assert y in t[n..];
      var j :| 0 <= j < |t[n..]| && t[n..][j] == y;
      var i :| 0 <= i < n && t[..n][i] == x;
      assert t[i] == x && t[n + j] == y;
    }
  }
}
