/** The helpers of `simsearch/utils.py` that the engine relies on:
    the randomized top-k selection `argsort_best`, the constant-time string
    comparison `_time_independent_equals`, and `auto_assign`. */
module Utils {
  import opened Common
  import Sorting

  // ---------------------------------------------------------------------
  // Sums, means and numpy's boolean filter, over exact reals
  // ---------------------------------------------------------------------

  function Sum(s: seq<real>): real
  {
    if s == [] then 0.0 else s[0] + Sum(s[1..])
  }

  /** numpy's `mean`. The mean of an empty array is NaN in numpy; 0.0
      stands in for it here. The two agree only while `best_k >= 0`: the
      filter of an empty array is empty, so `get_best_threshold` then
      returns its threshold at once. With a negative `best_k` and an empty
      array, Python keeps recursing on the empty array with a NaN threshold
      until it raises at the recursion limit; this model returns the
      threshold instead. */
  function Mean(s: seq<real>): real
  {
    if |s| == 0 then 0.0 else Sum(s) / (|s| as real)
  }

  /** `arr[(arr >= t).nonzero()[0]]`: the values at least `t`, in order. */
  function FilterGe(s: seq<real>, t: real): (r: seq<real>)
    ensures |r| <= |s|
    ensures forall i :: 0 <= i < |r| ==> r[i] >= t
    ensures |r| == |s| ==> r == s
  {
    if s == [] then []
    else (if s[0] >= t then [s[0]] else []) + FilterGe(s[1..], t)
  }

  /** `(arr >= t).nonzero()[0]` from position `i` on: the positions whose
      value is at least `t`, in increasing order. */
  function IndexesFrom(arr: seq<real>, t: real, i: nat): seq<nat>
    requires i <= |arr|
    decreases |arr| - i
  {
    if i == |arr| then []
    else (if arr[i] >= t then [i] else []) + IndexesFrom(arr, t, i + 1)
  }

  lemma {:induction false} IndexesFromBounds(arr: seq<real>, t: real, i: nat)
    requires i <= |arr|
    ensures forall x :: x in IndexesFrom(arr, t, i) ==> i <= x < |arr| && arr[x] >= t
    decreases |arr| - i
  {
    if i < |arr| {
      IndexesFromBounds(arr, t, i + 1);
      var rest := IndexesFrom(arr, t, i + 1);
      if arr[i] >= t {
        assert IndexesFrom(arr, t, i) == [i] + rest;
      } else {
        assert IndexesFrom(arr, t, i) == rest;
      }
    }
  }

  lemma {:induction false} IndexesFromComplete(arr: seq<real>, t: real, i: nat)
    requires i <= |arr|
    ensures forall j :: i <= j < |arr| && arr[j] >= t ==> j in IndexesFrom(arr, t, i)
    decreases |arr| - i
  {
    if i < |arr| {
      IndexesFromComplete(arr, t, i + 1);
      var rest := IndexesFrom(arr, t, i + 1);
      if arr[i] >= t {
        assert IndexesFrom(arr, t, i) == [i] + rest;
      } else {
        assert IndexesFrom(arr, t, i) == rest;
      }
    }
  }

  lemma {:induction false} IndexesFromIncreasing(arr: seq<real>, t: real, i: nat)
    requires i <= |arr|
    ensures forall p, q :: 0 <= p < q < |IndexesFrom(arr, t, i)| ==>
              IndexesFrom(arr, t, i)[p] < IndexesFrom(arr, t, i)[q]
    decreases |arr| - i
  {
    if i < |arr| {
      IndexesFromIncreasing(arr, t, i + 1);
      IndexesFromBounds(arr, t, i + 1);
      var rest := IndexesFrom(arr, t, i + 1);
      var r := IndexesFrom(arr, t, i);
      if arr[i] >= t {
        assert r == [i] + rest;
        PrependIncreasing(i, rest);
      } else {
        assert r == rest;
      }
    }
  }

  /** A position below every later one keeps the positions increasing. */
  lemma PrependIncreasing(i: nat, rest: seq<nat>)
    requires forall x :: x in rest ==> i < x
    requires forall p, q :: 0 <= p < q < |rest| ==> rest[p] < rest[q]
    ensures forall p, q :: 0 <= p < q < |[i] + rest| ==> ([i] + rest)[p] < ([i] + rest)[q]
  {
    var r := [i] + rest;
    forall p, q | 0 <= p < q < |r| ensures r[p] < r[q] {
      assert r[q] == rest[q - 1];
      assert rest[q - 1] in rest;
      if p > 0 { assert r[p] == rest[p - 1]; }
    }
  }

  /** `(arr >= t).nonzero()[0]`: the positions of `arr` whose value is at
      least `t`, in increasing order. */
  function IndexesGe(arr: seq<real>, t: real): (r: seq<nat>)
  {
    IndexesFrom(arr, t, 0)
  }

  lemma IndexesGeFacts(arr: seq<real>, t: real)
    ensures var r := IndexesGe(arr, t);
            && (forall p :: 0 <= p < |r| ==> r[p] < |arr| && arr[r[p]] >= t)
            && (forall j :: 0 <= j < |arr| && arr[j] >= t ==> j in r)
            && Distinct(r)
  {
    IndexesFromBounds(arr, t, 0);
    IndexesFromComplete(arr, t, 0);
    IndexesFromIncreasing(arr, t, 0);
    var r := IndexesGe(arr, t);
    forall p | 0 <= p < |r| ensures r[p] < |arr| && arr[r[p]] >= t {
      assert r[p] in r;
    }
    forall i, j | 0 <= i < j < |r| ensures r[i] != r[j] {
      assert r[i] < r[j];
    }
  }

  // ---------------------------------------------------------------------
  // get_best_threshold
  // ---------------------------------------------------------------------

  /** A working array of at least this many values is sampled. */
  const SampleSize: nat := 1000

  /** The candidate threshold: the mean of a sample of the working array
      when it holds at least `SampleSize` values, its own mean otherwise.
      `sample` stands for `random.sample(arr, 1000)`; it is a function of the
      working array, supplied by the caller. */
  function Candidate(work: seq<real>, sample: seq<real> -> seq<real>): real
  {
    if |work| >= SampleSize then Mean(sample(work)) else Mean(work)
  }

  /** `get_best_threshold(work, threshold)` for `best_k == k`. A candidate is
      adopted only while its filter still holds more than `k` values, so the
      result is the starting threshold or a candidate that leaves more than
      `k` values of `work` at or above it. */
  function BestThreshold(work: seq<real>, threshold: real, k: int,
                         sample: seq<real> -> seq<real>): (cut: real)
    ensures cut == threshold || |FilterGe(work, cut)| > k
    decreases 2 * |work| + (if Candidate(work, sample) == threshold then 0 else 1)
  {
    var c := Candidate(work, sample);
    var next := FilterGe(work, c);
    if |next| <= k then threshold
    else if c == threshold then threshold
    else
      var cut := BestThreshold(next, c, k, sample);
      FilterOfFilter(work, c, cut);
      cut
  }

  lemma {:induction false} FilterOfFilter(s: seq<real>, c: real, t: real)
    ensures |FilterGe(FilterGe(s, c), t)| <= |FilterGe(s, t)|
  {
    if s != [] {
      FilterOfFilter(s[1..], c, t);
      var head := if s[0] >= c then [s[0]] else [];
      assert FilterGe(s, c) == head + FilterGe(s[1..], c);
      FilterAppend(head, FilterGe(s[1..], c), t);
    }
  }

  lemma {:induction false} FilterAppend(a: seq<real>, b: seq<real>, t: real)
    ensures FilterGe(a + b, t) == FilterGe(a, t) + FilterGe(b, t)
  {
    if a != [] {
      assert (a + b)[1..] == a[1..] + b;
      FilterAppend(a[1..], b, t);
    } else {
      assert a + b == b;
    }
  }

  lemma {:induction false} IndexesCountFilter(arr: seq<real>, t: real, i: nat)
    requires i <= |arr|
    ensures |IndexesFrom(arr, t, i)| == |FilterGe(arr[i..], t)|
    decreases |arr| - i
  {
    if i < |arr| {
      IndexesCountFilter(arr, t, i + 1);
      assert arr[i..][1..] == arr[i + 1..];
    }
  }

  /** The cut used by `argsort_best`: `get_best_threshold(arr)`. */
  function Cut(arr: seq<real>, k: int, sample: seq<real> -> seq<real>): real
  {
    BestThreshold(arr, 0.0, k, sample)
  }

  // ---------------------------------------------------------------------
  // argsort_best
  // ---------------------------------------------------------------------

  function ValueAt(arr: seq<real>, i: nat): real
  {
    if i < |arr| then arr[i] else 0.0
  }

  /** The order of `sorted(..., key=lambda i: arr[i], reverse=reverse)`. */
  function ByValue(arr: seq<real>, reverse: bool): (nat, nat) -> bool
  {
    (i: nat, j: nat) => if reverse then ValueAt(arr, i) >= ValueAt(arr, j)
                        else ValueAt(arr, i) <= ValueAt(arr, j)
  }

  lemma ByValueIsTotalPreorder(arr: seq<real>, reverse: bool)
    ensures Sorting.TotalPreorder(ByValue(arr, reverse))
  {
    var le := ByValue(arr, reverse);
    assert forall a, b :: le(a, b) || le(b, a);
    assert forall a, b, c :: le(a, b) && le(b, c) ==> le(a, c);
  }

  /** `(arr[idx] == v).all()`; true of an empty `idx`. */
  predicate AllAt(arr: seq<real>, idx: seq<nat>, v: real)
  {
    forall p :: 0 <= p < |idx| ==> ValueAt(arr, idx[p]) == v
  }

  /** Lines 144-146 of `argsort_best`: the positions at or above the cut,
      cut to `best_k` when they all hold the cut value. */
  function Kept(arr: seq<real>, cut: real, k: int): seq<nat>
  {
    var best := IndexesGe(arr, cut);
    if AllAt(arr, best, cut) then Take(best, k) else best
  }

  /** Lines 144-149 of `argsort_best`, once the cut is known: the kept
      positions sorted by value and cut to `best_k`. */
  function SelectAbove(arr: seq<real>, cut: real, k: int, reverse: bool): seq<nat>
  {
    Take(Sorting.Sort(Kept(arr, cut, k), ByValue(arr, reverse)), k)
  }

  /** `argsort_best(arr, best_k, reverse)`. */
  function ArgsortBest(arr: seq<real>, k: int, reverse: bool,
                       sample: seq<real> -> seq<real>): seq<nat>
  {
    SelectAbove(arr, Cut(arr, k, sample), k, reverse)
  }

  /** The kept positions are distinct positions at or above the cut. */
  lemma KeptFacts(arr: seq<real>, cut: real, k: int)
    ensures Distinct(Kept(arr, cut, k))
    ensures forall x :: x in Kept(arr, cut, k) ==> x < |arr| && arr[x] >= cut
  {
    var best := IndexesGe(arr, cut);
    var kept := Kept(arr, cut, k);
    IndexesGeFacts(arr, cut);
    assert kept == best[..|kept|];
    forall x | x in kept ensures x < |arr| && arr[x] >= cut {
      var p :| 0 <= p < |kept| && kept[p] == x;
      assert best[p] == x;
    }
  }

  lemma SelectAboveSound(arr: seq<real>, cut: real, k: int, reverse: bool)
    ensures var r := SelectAbove(arr, cut, k, reverse);
            && (k >= 0 ==> |r| <= k)
            && Distinct(r)
            && (forall p :: 0 <= p < |r| ==> r[p] < |arr| && arr[r[p]] >= cut)
            && (forall p, q :: 0 <= p < q < |r| ==>
                  if reverse then arr[r[p]] >= arr[r[q]] else arr[r[p]] <= arr[r[q]])
  {
    var kept := Kept(arr, cut, k);
    var le := ByValue(arr, reverse);
    var r := Take(Sorting.Sort(kept, le), k);
    KeptFacts(arr, cut, k);
    ByValueIsTotalPreorder(arr, reverse);
    Sorting.SortTake(kept, le, k);
    forall p | 0 <= p < |r| ensures r[p] < |arr| && arr[r[p]] >= cut {
      assert r[p] in multiset(r);
      assert r[p] in multiset(kept);
      assert r[p] in kept;
    }
    forall p, q | 0 <= p < q < |r|
      ensures if reverse then arr[r[p]] >= arr[r[q]] else arr[r[p]] <= arr[r[q]]
    {
      assert le(r[p], r[q]);
    }
  }

  /** At most `best_k` distinct positions of `arr`, each holding a value at
      or above the cut, ordered by value: non-increasing when `reverse`,
      non-decreasing otherwise. */
  lemma ArgsortBestSound(arr: seq<real>, k: int, reverse: bool,
                         sample: seq<real> -> seq<real>)
    ensures var r := ArgsortBest(arr, k, reverse, sample);
            && (k >= 0 ==> |r| <= k)
            && Distinct(r)
            && (forall p :: 0 <= p < |r| ==> r[p] < |arr| && arr[r[p]] >= Cut(arr, k, sample))
            && (forall p, q :: 0 <= p < q < |r| ==>
                  if reverse then arr[r[p]] >= arr[r[q]] else arr[r[p]] <= arr[r[q]])
  {
    SelectAboveSound(arr, Cut(arr, k, sample), k, reverse);
  }

  /** The cut is the initial 0 or a mean that still leaves more than
      `best_k` values at or above it. */
  lemma CutRule(arr: seq<real>, k: int, sample: seq<real> -> seq<real>)
    ensures var cut := Cut(arr, k, sample);
            cut == 0.0 || |IndexesGe(arr, cut)| > k
  {
    var cut := Cut(arr, k, sample);
    IndexesCountFilter(arr, cut, 0);
    assert arr[0..] == arr;
  }

  /** If the first filter already leaves at most `best_k` values, the cut
      stays 0 and no negative value is returned. */
  lemma FirstFilterKeepsZeroCut(arr: seq<real>, k: int, reverse: bool,
                                sample: seq<real> -> seq<real>)
    requires |FilterGe(arr, Candidate(arr, sample))| <= k
    ensures Cut(arr, k, sample) == 0.0
    ensures forall i :: i in ArgsortBest(arr, k, reverse, sample) ==> 0 <= i < |arr| && arr[i] >= 0.0
  {
    assert Cut(arr, k, sample) == 0.0;
    SelectAboveSound(arr, 0.0, k, reverse);
  }

  /** An array of at most `best_k` negative values yields no position. */
  lemma SmallNegativeArrayIsEmpty(arr: seq<real>, k: int, reverse: bool,
                                  sample: seq<real> -> seq<real>)
    requires |arr| <= k
    requires forall i :: 0 <= i < |arr| ==> arr[i] < 0.0
    ensures ArgsortBest(arr, k, reverse, sample) == []
  {
    assert Cut(arr, k, sample) == 0.0;
    IndexesFromNone(arr, 0.0, 0);
    assert Kept(arr, 0.0, k) == [];
  }

  lemma {:induction false} IndexesFromNone(arr: seq<real>, t: real, i: nat)
    requires i <= |arr|
    requires forall j :: i <= j < |arr| ==> arr[j] < t
    ensures IndexesFrom(arr, t, i) == []
    decreases |arr| - i
  {
    if i < |arr| {
      IndexesFromNone(arr, t, i + 1);
    }
  }

  lemma SelectAboveIsTopK(arr: seq<real>, cut: real, k: nat)
    requires |IndexesGe(arr, cut)| >= k
    ensures var r := SelectAbove(arr, cut, k, true);
            && |r| == k
            && (forall p :: 0 <= p < |r| ==> r[p] < |arr|)
            && forall p, j :: 0 <= p < |r| && 0 <= j < |arr| && j !in r ==> arr[j] <= arr[r[p]]
  {
    var best := IndexesGe(arr, cut);
    var kept := Kept(arr, cut, k);
    var le := ByValue(arr, true);
    var sorted := Sorting.Sort(kept, le);
    var r := Take(sorted, k);
    SelectAboveSound(arr, cut, k, true);
    IndexesGeFacts(arr, cut);
    ByValueIsTotalPreorder(arr, true);
    Sorting.SortSorted(kept, le);
    forall p, j | 0 <= p < |r| && 0 <= j < |arr| && j !in r && arr[j] >= cut
      ensures arr[j] <= arr[r[p]]
    {
      assert j in best;
      if AllAt(arr, best, cut) {
        var m :| 0 <= m < |best| && best[m] == j;
        assert ValueAt(arr, best[m]) == cut;
      } else {
        assert j in multiset(sorted);
        var m :| 0 <= m < |sorted| && sorted[m] == j;
        assert r[p] == sorted[p];
        assert le(sorted[p], sorted[m]);
      }
    }
  }

  /** With `reverse` and at least `best_k` values at or above the cut, the
      result is exactly `best_k` positions and no position left out holds a
      larger value than one returned. */
  lemma ArgsortBestIsTopK(arr: seq<real>, k: nat, sample: seq<real> -> seq<real>)
    requires |IndexesGe(arr, Cut(arr, k, sample))| >= k
    ensures var r := ArgsortBest(arr, k, true, sample);
            && |r| == k
            && (forall p :: 0 <= p < |r| ==> r[p] < |arr|)
            && forall p, j :: 0 <= p < |r| && 0 <= j < |arr| && j !in r ==> arr[j] <= arr[r[p]]
  {
    SelectAboveIsTopK(arr, Cut(arr, k, sample), k);
  }

  /** When the kept positions all hold one value, sorting leaves them in
      index order. */
  lemma SelectAboveTies(arr: seq<real>, cut: real, k: nat, reverse: bool, v: real)
    requires forall x :: x in Kept(arr, cut, k) ==> ValueAt(arr, x) == v
    ensures SelectAbove(arr, cut, k, reverse) == Take(Kept(arr, cut, k), k)
  {
    var kept := Kept(arr, cut, k);
    var le := ByValue(arr, reverse);
    forall i, j | 0 <= i < |kept| && 0 <= j < |kept| ensures le(kept[i], kept[j]) {
      assert kept[i] in kept && kept[j] in kept;
    }
    Sorting.SortOfTiesIsIdentity(kept, le);
  }

  lemma SelectAboveConstant(arr: seq<real>, cut: real, k: nat, reverse: bool)
    requires AllAt(arr, IndexesGe(arr, cut), cut)
    ensures SelectAbove(arr, cut, k, reverse) == Take(IndexesGe(arr, cut), k)
  {
    var best := IndexesGe(arr, cut);
    var kept := Kept(arr, cut, k);
    assert kept == Take(best, k);
    forall x | x in kept ensures ValueAt(arr, x) == cut {
      var p :| 0 <= p < |kept| && kept[p] == x;
      assert best[p] == x;
    }
    SelectAboveTies(arr, cut, k, reverse, cut);
  }

  /** When every surviving value equals the cut, the result is the first
      `best_k` surviving positions in index order. */
  lemma ConstantSurvivorsTruncate(arr: seq<real>, k: nat, reverse: bool,
                                  sample: seq<real> -> seq<real>)
    requires AllAt(arr, IndexesGe(arr, Cut(arr, k, sample)), Cut(arr, k, sample))
    ensures ArgsortBest(arr, k, reverse, sample) == Take(IndexesGe(arr, Cut(arr, k, sample)), k)
  {
    SelectAboveConstant(arr, Cut(arr, k, sample), k, reverse);
  }

  /** The cut of a constant array of non-negative values is 0 or a
      candidate not above the value. */
  lemma ConstantArrayCut(arr: seq<real>, v: real, k: nat, sample: seq<real> -> seq<real>)
    requires v >= 0.0
    requires forall i :: 0 <= i < |arr| ==> arr[i] == v
    ensures Cut(arr, k, sample) <= v
  {
    var c := Candidate(arr, sample);
    FilterConstant(arr, v, c);
    if |FilterGe(arr, c)| > k && c != 0.0 {
      assert BestThreshold(arr, c, k, sample) == c;
    }
  }

  /** A constant array of non-negative values yields its first `best_k`
      positions: exactly `min(best_k, |arr|)` of them. */
  lemma ConstantArray(arr: seq<real>, v: real, k: nat, reverse: bool,
                      sample: seq<real> -> seq<real>)
    requires v >= 0.0
    requires forall i :: 0 <= i < |arr| ==> arr[i] == v
    ensures ArgsortBest(arr, k, reverse, sample) == Take(Range(|arr|), k)
  {
    var cut := Cut(arr, k, sample);
    ConstantArrayCut(arr, v, k, sample);
    ConstantKept(arr, v, cut, k);
    SelectAboveTies(arr, cut, k, reverse, v);
  }

  lemma ConstantKept(arr: seq<real>, v: real, cut: real, k: nat)
    requires cut <= v
    requires forall i :: 0 <= i < |arr| ==> arr[i] == v
    ensures Take(Kept(arr, cut, k), k) == Take(Range(|arr|), k)
    ensures forall x :: x in Kept(arr, cut, k) ==> ValueAt(arr, x) == v
  {
    AllIndexes(arr, v, cut);
    var kept := Kept(arr, cut, k);
    assert kept == Take(Range(|arr|), k) || kept == Range(|arr|);
    forall x | x in kept ensures ValueAt(arr, x) == v {
      var p :| 0 <= p < |kept| && kept[p] == x;
      assert x == p;
    }
  }

  lemma AllIndexes(arr: seq<real>, v: real, cut: real)
    requires cut <= v
    requires forall i :: 0 <= i < |arr| ==> arr[i] == v
    ensures IndexesGe(arr, cut) == Range(|arr|)
  {
    IndexesOfAll(arr, cut, 0);
  }

  lemma {:induction false} FilterConstant(s: seq<real>, v: real, c: real)
    requires forall i :: 0 <= i < |s| ==> s[i] == v
    ensures FilterGe(s, c) == if v >= c then s else []
  {
    if s != [] {
      FilterConstant(s[1..], v, c);
      assert [s[0]] + s[1..] == s;
    }
  }

  lemma {:induction false} IndexesOfAll(arr: seq<real>, t: real, i: nat)
    requires i <= |arr|
    requires forall j :: 0 <= j < |arr| ==> arr[j] >= t
    ensures |IndexesFrom(arr, t, i)| == |arr| - i
    ensures forall p :: 0 <= p < |arr| - i ==> IndexesFrom(arr, t, i)[p] == i + p
    decreases |arr| - i
  {
    if i < |arr| {
      IndexesOfAll(arr, t, i + 1);
      var rest := IndexesFrom(arr, t, i + 1);
      assert arr[i] >= t;
      assert IndexesFrom(arr, t, i) == [i] + rest;
      forall p | 0 <= p < |arr| - i ensures ([i] + rest)[p] == i + p {
        if p > 0 { assert ([i] + rest)[p] == rest[p - 1]; }
      }
    }
  }

  // ---------------------------------------------------------------------
  // Termination of the narrowing below SampleSize
  // ---------------------------------------------------------------------

  lemma {:induction false} SumAtLeast(s: seq<real>, c: real)
    requires forall i :: 0 <= i < |s| ==> s[i] >= c
    ensures Sum(s) >= (|s| as real) * c
  {
    if s != [] {
      SumAtLeast(s[1..], c);
      assert (|s| as real) * c == c + (|s[1..]| as real) * c;
    }
  }

  lemma {:induction false} SumAbove(s: seq<real>, c: real, i: nat)
    requires forall j :: 0 <= j < |s| ==> s[j] >= c
    requires i < |s| && s[i] > c
    ensures Sum(s) > (|s| as real) * c
  {
    assert (|s| as real) * c == c + (|s[1..]| as real) * c;
    if i == 0 {
      SumAtLeast(s[1..], c);
    } else {
      assert s[1..][i - 1] == s[i];
      SumAbove(s[1..], c, i - 1);
    }
  }

  /** If no value lies below the mean, every value is the mean. */
  lemma NothingBelowMean(s: seq<real>)
    requires forall i :: 0 <= i < |s| ==> s[i] >= Mean(s)
    ensures forall i :: 0 <= i < |s| ==> s[i] == Mean(s)
  {
    if s != [] {
      var m := Mean(s);
      var n := |s| as real;
      assert Sum(s) == n * m;
      forall i | 0 <= i < |s| ensures s[i] <= m {
        if s[i] > m {
          SumAbove(s, m, i);
        }
      }
    }
  }

  /** Below `SampleSize` values, each step of `get_best_threshold` that goes
      on either strictly shrinks the working array, or keeps a working array
      all of whose values equal the new threshold, and then the next step
      stops there because the mean repeats. */
  lemma NarrowingProgress(work: seq<real>, threshold: real, k: int,
                          sample: seq<real> -> seq<real>)
    requires |work| < SampleSize
    requires |FilterGe(work, Mean(work))| > k
    requires Mean(work) != threshold
    ensures var next := FilterGe(work, Mean(work));
            || |next| < |work|
            || (next == work && (forall i :: 0 <= i < |work| ==> work[i] == Mean(work))
                && BestThreshold(next, Mean(work), k, sample) == Mean(work))
  {
    var next := FilterGe(work, Mean(work));
    if |next| == |work| {
      assert next == work;
      NothingBelowMean(work);
    }
  }

  // ---------------------------------------------------------------------
  // _time_independent_equals
  // ---------------------------------------------------------------------

  /** Python's `a ^ b` on non-negative integers; zero exactly when a == b. */
  function Xor(a: nat, b: nat): (r: nat)
    ensures r == 0 <==> a == b
  {
    if a == 0 && b == 0 then 0
    else 2 * Xor(a / 2, b / 2) + (if a % 2 == b % 2 then 0 else 1)
  }

  /** Python's `a | b` on non-negative integers; zero exactly when both are. */
  function Or(a: nat, b: nat): (r: nat)
    ensures r == 0 <==> a == 0 && b == 0
  {
    if a == 0 && b == 0 then 0
    else 2 * Or(a / 2, b / 2) + (if a % 2 == 0 && b % 2 == 0 then 0 else 1)
  }

  /** `_time_independent_equals`: false on different lengths; otherwise every
      position is visited and OR-ed into the accumulator. */
  method TimeIndependentEquals(a: string, b: string) returns (eq: bool)
    ensures eq <==> a == b
  {
    if |a| != |b| {
      return false;
    }
    var result: nat := 0;
    for i := 0 to |a|
      invariant result == 0 <==> forall j :: 0 <= j < i ==> a[j] == b[j]
    {
      result := Or(result, Xor(a[i] as int, b[i] as int));
    }
    eq := result == 0;
  }

  // ---------------------------------------------------------------------
  // auto_assign
  // ---------------------------------------------------------------------

  /** `auto_assign(self, locals)`: every entry of `locals` except `self`
      becomes an attribute; `attrs` are the object's attributes before the
      call and `r` those after it. */
  method AutoAssign<V>(attrs: map<string, V>, locals: map<string, V>) returns (r: map<string, V>)
    ensures r.Keys == attrs.Keys + (locals.Keys - {"self"})
    ensures forall key :: key in locals && key != "self" ==> r[key] == locals[key]
    ensures forall key :: key in attrs && key !in (locals.Keys - {"self"}) ==> r[key] == attrs[key]
  {
    r := attrs;
    var todo := locals.Keys;
    while todo != {}
      invariant todo <= locals.Keys
      invariant r.Keys == attrs.Keys + (locals.Keys - todo - {"self"})
      invariant forall key :: key in locals && key !in todo && key != "self" ==> r[key] == locals[key]
      invariant forall key :: key in attrs && key !in (locals.Keys - todo - {"self"}) ==> r[key] == attrs[key]
      decreases todo
    {
      var key :| key in todo;
      if key != "self" {
        r := r[key := locals[key]];
      }
      todo := todo - {key};
    }
  }
}
