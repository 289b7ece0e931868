/** Python's `sorted(xs, key=..., reverse=...)` as a stable insertion sort.
    The order is given by `le(a, b)`, "a may stand before b"; an element is
    inserted in front of the first element it may precede, so of two elements
    that may stand either way round, the one that came first stays first. */
module Sorting {
  import opened Common

  /** `le` is a total preorder on `T`. */
  ghost predicate TotalPreorder<T(!new)>(le: (T, T) -> bool)
  {
    && (forall a, b :: le(a, b) || le(b, a))
    && (forall a, b, c :: le(a, b) && le(b, c) ==> le(a, c))
  }

  ghost predicate SortedBy<T>(s: seq<T>, le: (T, T) -> bool)
  {
    forall i, j :: 0 <= i < j < |s| ==> le(s[i], s[j])
  }

  function Insert<T>(x: T, s: seq<T>, le: (T, T) -> bool): (r: seq<T>)
    ensures |r| == |s| + 1
    ensures multiset(r) == multiset(s) + multiset{x}
  {
    if s == [] then [x]
    else if le(x, s[0]) then [x] + s
    else
      assert s == [s[0]] + s[1..];
      [s[0]] + Insert(x, s[1..], le)
  }

  function Sort<T>(s: seq<T>, le: (T, T) -> bool): (r: seq<T>)
    ensures |r| == |s|
    ensures multiset(r) == multiset(s)
  {
    if s == [] then []
    else
      assert s == [s[0]] + s[1..];
      Insert(s[0], Sort(s[1..], le), le)
  }

  lemma {:induction false} InsertSorted<T(!new)>(x: T, s: seq<T>, le: (T, T) -> bool)
    requires TotalPreorder(le)
    requires SortedBy(s, le)
    ensures SortedBy(Insert(x, s, le), le)
  {
    if s != [] && !le(x, s[0]) {
      var t := Insert(x, s[1..], le);
      InsertSorted(x, s[1..], le);
      assert le(s[0], x);
      forall j | 0 <= j < |t| ensures le(s[0], t[j]) {
        assert t[j] in multiset(t);
        assert t[j] == x || t[j] in multiset(s[1..]);
        if t[j] != x {
          var k :| 0 <= k < |s[1..]| && s[1..][k] == t[j];
          assert s[k + 1] == t[j];
        }
      }
      var r := [s[0]] + t;
      assert Insert(x, s, le) == r;
      forall i, j | 0 <= i < j < |r| ensures le(r[i], r[j]) {
        if i > 0 { assert r[i] == t[i - 1] && r[j] == t[j - 1]; }
        else { assert r[j] == t[j - 1]; }
      }
    }
  }

  /** The result of `Sort` is ordered by `le`. */
  lemma {:induction false} SortSorted<T(!new)>(s: seq<T>, le: (T, T) -> bool)
    requires TotalPreorder(le)
    ensures SortedBy(Sort(s, le), le)
  {
    if s != [] {
      SortSorted(s[1..], le);
      InsertSorted(s[0], Sort(s[1..], le), le);
    }
  }

  /** When every element may precede every other one (all keys equal),
      sorting keeps the original order. */
  lemma {:induction false} SortOfTiesIsIdentity<T>(s: seq<T>, le: (T, T) -> bool)
    requires forall i, j :: 0 <= i < |s| && 0 <= j < |s| ==> le(s[i], s[j])
    ensures Sort(s, le) == s
  {
    if s != [] {
      forall i, j | 0 <= i < |s[1..]| && 0 <= j < |s[1..]| ensures le(s[1..][i], s[1..][j]) {
        assert s[1..][i] == s[i + 1] && s[1..][j] == s[j + 1];
      }
      SortOfTiesIsIdentity(s[1..], le);
      if |s| > 1 {
        assert le(s[0], s[1..][0]);
      }
      assert [s[0]] + s[1..] == s;
    }
  }

  lemma {:induction false} DistinctCounts<T>(s: seq<T>)
    requires Distinct(s)
    ensures forall v :: multiset(s)[v] <= 1
  {
    if s != [] {
      assert s == [s[0]] + s[1..];
      assert Distinct(s[1..]) by {
        forall i, j | 0 <= i < j < |s[1..]| ensures s[1..][i] != s[1..][j] {
          assert s[1..][i] == s[i + 1] && s[1..][j] == s[j + 1];
        }
      }
      DistinctCounts(s[1..]);
      forall k | 0 <= k < |s[1..]| ensures s[1..][k] != s[0] {
        assert s[1..][k] == s[k + 1];
      }
      assert s[0] !in s[1..];
      assert multiset(s) == multiset{s[0]} + multiset(s[1..]);
    }
  }

  lemma CountsDistinct<T>(s: seq<T>)
    requires forall v :: multiset(s)[v] <= 1
    ensures Distinct(s)
  {
    forall i, j | 0 <= i < j < |s| ensures s[i] != s[j] {
      assert s == s[..j] + s[j..];
      assert s[i] in multiset(s[..j]);
      assert s[j] in multiset(s[j..]);
      assert multiset(s) == multiset(s[..j]) + multiset(s[j..]);
      assert multiset(s)[s[i]] >= 1 + multiset(s[j..])[s[i]];
    }
  }

  /** A rearrangement of a sequence without repetitions has none either. */
  lemma PermutationKeepsDistinct<T>(s: seq<T>, t: seq<T>)
    requires Distinct(s)
    requires multiset(t) <= multiset(s)
    ensures Distinct(t)
  {
    DistinctCounts(s);
    CountsDistinct(t);
  }

  /** What `sorted(xs)[:k]` keeps: an ordered selection of `xs`, as long as
      the slice allows, and none of the elements it drops may stand before
      one it keeps. */
  lemma SortTake<T(!new)>(s: seq<T>, le: (T, T) -> bool, k: int)
    requires TotalPreorder(le)
    ensures SortedBy(Take(Sort(s, le), k), le)
    ensures multiset(Take(Sort(s, le), k)) <= multiset(s)
    ensures k >= 0 ==> |Take(Sort(s, le), k)| == if k < |s| then k else |s|
    ensures forall x, y :: x in Take(Sort(s, le), k) && y in multiset(s) - multiset(Take(Sort(s, le), k))
              ==> le(x, y)
    ensures Distinct(s) ==> Distinct(Take(Sort(s, le), k))
  {
    var sorted := Sort(s, le);
    var r := Take(sorted, k);
    var dropped := sorted[|r|..];
    SortSorted(s, le);
    assert sorted == r + dropped;
    assert multiset(sorted) == multiset(r) + multiset(dropped);
    forall x, y | x in r && y in multiset(s) - multiset(r) ensures le(x, y) {
      assert y in multiset(dropped);
      var i :| 0 <= i < |r| && r[i] == x;
      var j :| 0 <= j < |dropped| && dropped[j] == y;
      assert sorted[i] == x && sorted[|r| + j] == y;
    }
    if Distinct(s) {
      PermutationKeepsDistinct(s, r);
    }
  }
}
