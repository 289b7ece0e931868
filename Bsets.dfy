/** `simsearch/bsets.py`: the computed index and the query handler of
    Bayesian Sets.

    The matrix `X` has one row per item and one column per feature; entry
    `(r, j)` is set when item `r` has feature `j`. The logarithm is a
    parameter `log`, so the query vector and the scores are exact
    expressions over it; the floating-point evaluation is not modelled. */
module BayesianSets {
  import opened Common
  import Sorting
  import Utils
  import Indexer

  // ---------------------------------------------------------------------
  // ComputedIndex
  // ---------------------------------------------------------------------

  /** The fields `_create_indexes` and `_compute_matrix_to_csr` set. */
  datatype ComputedIndex = ComputedIndex(
    itemIdToIndex: map<int, nat>,
    indexToItemId: map<nat, int>,
    indexToFeat: map<nat, string>,
    noItems: nat,
    noFeatures: nat,
    x: Indexer.Coo)

  ghost predicate Injective<K, V>(m: map<K, V>)
  {
    forall a, b :: a in m && b in m && m[a] == m[b] ==> a == b
  }

  /** `dict((i, k) for k, i in m.iteritems())`: every value of `m` maps back
      to a key holding it. Which key, when several hold it, is up to the
      dictionary's iteration order. */
  ghost function Inverse<K(!new), V(!new)>(m: map<K, V>): (r: map<V, K>)
    ensures forall v :: v in r <==> v in m.Values
    ensures forall v :: v in r ==> r[v] in m && m[r[v]] == v
  {
    map v | v in m.Values :: var k :| k in m && m[k] == v; k
  }

  /** For an injective map the inverse is exact, and inverting twice gives
      the map back. */
  lemma InverseOfInjective<K(!new), V(!new)>(m: map<K, V>)
    requires Injective(m)
    ensures forall k :: k in m ==> m[k] in Inverse(m) && Inverse(m)[m[k]] == k
    ensures Injective(Inverse(m))
    ensures Inverse(Inverse(m)) == m
  {
    var r := Inverse(m);
    forall k | k in m ensures m[k] in r && r[m[k]] == k {
      assert m[k] in m.Values;
    }
    var rr := Inverse(r);
    forall k ensures k in rr <==> k in m {
      if k in m {
        assert r[m[k]] == k;
        assert k in r.Values;
      }
    }
    forall k | k in m ensures rr[k] == m[k] {
      assert r[m[k]] == k;
    }
  }

  /** `ComputedIndex(index_path)` from the maps and coordinates a read-mode
      `FileIndex` holds: the maps and their inverses, their sizes, and the
      matrix. The matrix cannot be built from empty coordinate files. */
  ghost function CreateIndexes(ids: map<int, nat>, fts: map<string, nat>,
                               xco: seq<int>, yco: seq<int>): Result<ComputedIndex, Indexer.IndexError>
  {
    match Indexer.MakeCoo(xco, yco)
    case Failure(e) => Failure(e)
    case Success(x) => Success(ComputedIndex(ids, Inverse(ids), Inverse(fts), |ids|, |fts|, x))
  }

  /** `index_to_item_id` inverts `item_id_to_index` and `no_items`,
      `no_features` are the sizes of the maps. */
  lemma CreateIndexesFacts(ids: map<int, nat>, fts: map<string, nat>, xco: seq<int>, yco: seq<int>)
    requires Injective(ids) && Injective(fts)
    requires CreateIndexes(ids, fts, xco, yco).Success?
    ensures var ci := CreateIndexes(ids, fts, xco, yco).value;
            && ci.itemIdToIndex == ids
            && (forall id :: id in ids ==> ids[id] in ci.indexToItemId && ci.indexToItemId[ids[id]] == id)
            && (forall i :: i in ci.indexToItemId ==> ci.indexToItemId[i] in ids && ids[ci.indexToItemId[i]] == i)
            && (forall f :: f in fts ==> fts[f] in ci.indexToFeat && ci.indexToFeat[fts[f]] == f)
            && ci.noItems == |ids| && ci.noFeatures == |fts|
  {
    InverseOfInjective(ids);
    InverseOfInjective(fts);
  }

  /** Loading the files an indexer wrote: the index of the item on line `i`
      of `.ids` is `i`, and `index_to_item_id[i]` is that item. */
  lemma LoadFromFiles(disk: Indexer.Disk)
    requires Indexer.WellFormedDisk(disk) && |disk.xco| > 0
    ensures var st := Indexer.OpenStore("read", disk).value;
            var r := CreateIndexes(st.ids, st.fts, st.xco, st.yco);
            && r.Success?
            && r.value.noItems == |disk.ids|
            && (forall i :: 0 <= i < |disk.ids| ==> i in r.value.indexToItemId && r.value.indexToItemId[i] == disk.ids[i])
  {
    Indexer.OpenFacts("read", disk);
    var st := Indexer.OpenStore("read", disk).value;
    assert st.ids == Indexer.Enumerate(disk.ids) && st.xco == disk.xco && st.yco == disk.yco;
    Indexer.ValidIsDense(st);
    Indexer.EnumerateDistinct(disk.ids);
    Indexer.MakeCooFacts(disk.xco, disk.yco);
    CreateIndexesFacts(st.ids, st.fts, st.xco, st.yco);
    var ci := CreateIndexes(st.ids, st.fts, st.xco, st.yco).value;
    forall i | 0 <= i < |disk.ids| ensures i in ci.indexToItemId && ci.indexToItemId[i] == disk.ids[i] {
      assert st.ids[disk.ids[i]] == i;
    }
  }

  /** What the query handler relies on without checking: every indexed
      item has a row of `X`, every row an item id, every column a feature,
      and the set entries lie inside the shape. */
  predicate Shaped(ci: ComputedIndex)
  {
    && ci.x.rows > 0
    && (forall id :: id in ci.itemIdToIndex ==> ci.itemIdToIndex[id] < ci.x.rows)
    && (forall r: nat :: r < ci.x.rows ==> r in ci.indexToItemId)
    && (forall j: nat :: j < ci.x.cols ==> j in ci.indexToFeat)
    && (forall e :: e in ci.x.pairs ==> 0 <= e.0 < ci.x.rows && 0 <= e.1 < ci.x.cols)
  }

  // ---------------------------------------------------------------------
  // Hyper parameters and the query vector
  // ---------------------------------------------------------------------

  /** The number of items having feature `j`. */
  function ColumnCount(x: Indexer.Coo, j: nat): nat
  {
    |set r: nat | r < x.rows && (r, j) in x.pairs|
  }

  /** `mean = X.mean(0)`, `alpha = c * mean`, `beta = c * (1 - mean)` with
      `c = 2`. */
  function Alpha(ci: ComputedIndex, j: nat): real
    requires ci.x.rows > 0
  {
    2.0 * ((ColumnCount(ci.x, j) as real) / (ci.x.rows as real))
  }

  function Beta(ci: ComputedIndex, j: nat): (r: real)
    requires ci.x.rows > 0
    ensures Alpha(ci, j) + r == 2.0
  {
    2.0 * (1.0 - (ColumnCount(ci.x, j) as real) / (ci.x.rows as real))
  }

  /** Row `r` of `X` as a 0/1 vector over the columns. */
  function RowVector(x: Indexer.Coo, r: nat): (v: seq<nat>)
    ensures |v| == x.cols
    ensures forall j :: 0 <= j < |v| ==> v[j] == if (r, j) in x.pairs then 1 else 0
  {
    seq(x.cols, j => if (r, j) in x.pairs then 1 else 0)
  }

  function RowOf(ci: ComputedIndex, id: int): nat
    requires id in ci.itemIdToIndex
  {
    ci.itemIdToIndex[id]
  }

  /** `sum_xi[j]`: how many entries of `ids`, counted with repeats, have
      feature `j`. */
  function Hits(ci: ComputedIndex, ids: seq<int>, j: nat): nat
    requires forall p :: 0 <= p < |ids| ==> ids[p] in ci.itemIdToIndex
  {
    if ids == [] then 0
    else Hits(ci, ids[..|ids| - 1], j) + (if (RowOf(ci, ids[|ids| - 1]), j) in ci.x.pairs then 1 else 0)
  }

  /** Hence `0 <= sum_xi[j] <= N` and `beta_bar[j] >= beta[j]`. */
  lemma {:induction false} HitsBounds(ci: ComputedIndex, ids: seq<int>, j: nat)
    requires forall p :: 0 <= p < |ids| ==> ids[p] in ci.itemIdToIndex
    requires ci.x.rows > 0
    ensures Hits(ci, ids, j) <= |ids|
    ensures Beta(ci, j) + (|ids| as real) - (Hits(ci, ids, j) as real) >= Beta(ci, j)
  {
    if ids != [] {
      HitsBounds(ci, ids[..|ids| - 1], j);
    }
  }

  /** The counts of a concatenation of query ids are the sums of the
      counts of its parts. */
  lemma {:induction false} HitsOfConcat(ci: ComputedIndex, a: seq<int>, b: seq<int>, j: nat)
    requires forall p :: 0 <= p < |a| ==> a[p] in ci.itemIdToIndex
    requires forall p :: 0 <= p < |b| ==> b[p] in ci.itemIdToIndex
    ensures Hits(ci, a + b, j) == Hits(ci, a, j) + Hits(ci, b, j)
    decreases |b|
  {
    if b == [] {
      assert a + b == a;
    } else {
      var b' := b[..|b| - 1];
      assert (a + b)[..|a + b| - 1] == a + b';
      HitsOfConcat(ci, a, b', j);
    }
  }

  /** The loop of `_make_query_vector` that adds up the query items' rows. */
  method SumXi(ci: ComputedIndex, ids: seq<int>) returns (sum: seq<nat>)
    requires |ids| > 0
    requires forall p :: 0 <= p < |ids| ==> ids[p] in ci.itemIdToIndex
    ensures |sum| == ci.x.cols
    ensures forall j :: 0 <= j < |sum| ==> sum[j] == Hits(ci, ids, j)
  {
    assert ids[..1][..0] == [];
    sum := RowVector(ci.x, RowOf(ci, ids[0]));
    var n := 1;
    while n < |ids|
      invariant 1 <= n <= |ids|
      invariant |sum| == ci.x.cols
      invariant forall j :: 0 <= j < |sum| ==> sum[j] == Hits(ci, ids[..n], j)
      decreases |ids| - n
    {
      var row := RowVector(ci.x, RowOf(ci, ids[n]));
      assert ids[..n + 1][..n] == ids[..n];
      sum := seq(|sum|, j requires 0 <= j < |sum| => sum[j] + row[j]);
      n := n + 1;
    }
    assert ids[..n] == ids;
  }

  /** `q = log(alpha_bar) - log(alpha) - log(beta_bar) + log(beta)`, one
      entry per column, for `N` query items with column counts `sum`. */
  function QVector(ci: ComputedIndex, sum: seq<nat>, n: nat, log: real -> real): (q: seq<real>)
    requires ci.x.rows > 0
    ensures |q| == |sum|
  {
    seq(|sum|, j requires 0 <= j < |sum| =>
      log(Alpha(ci, j) + sum[j] as real) - log(Alpha(ci, j))
      - log(Beta(ci, j) + n as real - sum[j] as real) + log(Beta(ci, j)))
  }

  /** `c = (alpha_plus_beta - log(alpha_plus_beta + N) + log(beta_bar) -
      log(beta)).sum()` over the columns from `j` on. The first term is
      `alpha_plus_beta` itself, not its logarithm. */
  function CValue(ci: ComputedIndex, sum: seq<nat>, n: nat, log: real -> real, j: nat): real
    requires ci.x.rows > 0
    requires j <= |sum|
    decreases |sum| - j
  {
    if j == |sum| then 0.0
    else
      var ab := Alpha(ci, j) + Beta(ci, j);
      (ab - log(ab + n as real) + log(Beta(ci, j) + n as real - sum[j] as real) - log(Beta(ci, j)))
      + CValue(ci, sum, n, log, j + 1)
  }

  /** `(X * q)[r]`: the sum of `q` over the features of row `r`, from
      column `j` on. */
  function RowDot(x: Indexer.Coo, r: nat, q: seq<real>, j: nat): real
    requires j <= |q|
    decreases |q| - j
  {
    if j == |q| then 0.0
    else (if (r, j) in x.pairs then q[j] else 0.0) + RowDot(x, r, q, j + 1)
  }

  /** `log_scores = c + X * q`, one score per row. */
  function LogScores(x: Indexer.Coo, q: seq<real>, c: real): (s: seq<real>)
    ensures |s| == x.rows
  {
    seq(x.rows, (r: int) requires 0 <= r => c + RowDot(x, r, q, 0))
  }

  // ---------------------------------------------------------------------
  // Ordering and results
  // ---------------------------------------------------------------------

  /** `_order_indexes_by_scores(max_results)`. */
  function OrderIndexes(scores: seq<real>, maxResults: int,
                        sample: seq<real> -> seq<real>): seq<nat>
  {
    if maxResults == -1 then Range(|scores|)
    else Utils.ArgsortBest(scores, maxResults, true, sample)
  }

  /** `-1` orders every row in its natural order; any other bound gives at
      most that many distinct rows by non-increasing score. */
  lemma OrderIndexesFacts(scores: seq<real>, maxResults: int, sample: seq<real> -> seq<real>)
    ensures var o := OrderIndexes(scores, maxResults, sample);
            && Distinct(o)
            && (forall p :: 0 <= p < |o| ==> o[p] < |scores|)
            && (maxResults == -1 ==> o == Range(|scores|))
            && (maxResults >= 0 ==> |o| <= maxResults)
            && (maxResults != -1 ==> forall p, p' :: 0 <= p < p' < |o| ==> scores[o[p]] >= scores[o[p']])
  {
    if maxResults != -1 {
      Utils.ArgsortBestSound(scores, maxResults, true, sample);
    }
  }

  datatype ResultSet = ResultSet(
    time: real,
    totalFound: nat,
    queryItemIds: seq<int>,
    validQueryItemIds: seq<int>,
    logScores: seq<(int, real)>)

  /** The keyword arguments `get_empty_result_set` may be given. */
  datatype ResultOverrides = ResultOverrides(
    time: Option<real>,
    totalFound: Option<nat>,
    queryItemIds: Option<seq<int>>,
    validQueryItemIds: Option<seq<int>>,
    logScores: Option<seq<(int, real)>>)

  function OrElse<T>(o: Option<T>, d: T): T
  {
    if o.Some? then o.value else d
  }

  /** `ResultSet.get_empty_result_set(**kwargs)`: time 0, nothing found, no
      ids and no scores, except what the arguments replace. */
  function EmptyResultSet(o: ResultOverrides): ResultSet
  {
    ResultSet(OrElse(o.time, 0.0), OrElse(o.totalFound, 0), OrElse(o.queryItemIds, []),
              OrElse(o.validQueryItemIds, []), OrElse(o.logScores, []))
  }

  /** Each field is the default unless overridden, and then the override. */
  lemma EmptyResultSetFields(o: ResultOverrides)
    ensures var r := EmptyResultSet(o);
            && (o.time.None? ==> r.time == 0.0) && (o.time.Some? ==> r.time == o.time.value)
            && (o.totalFound.None? ==> r.totalFound == 0) && (o.totalFound.Some? ==> r.totalFound == o.totalFound.value)
            && (o.queryItemIds.None? ==> r.queryItemIds == []) && (o.queryItemIds.Some? ==> r.queryItemIds == o.queryItemIds.value)
            && (o.validQueryItemIds.None? ==> r.validQueryItemIds == [])
            && (o.validQueryItemIds.Some? ==> r.validQueryItemIds == o.validQueryItemIds.value)
            && (o.logScores.None? ==> r.logScores == []) && (o.logScores.Some? ==> r.logScores == o.logScores.value)
  {
  }

  /** `_item_ids`: the ids of `ids` the index knows, in order, repeats kept. */
  function Known(ci: ComputedIndex, ids: seq<int>): (r: seq<int>)
    ensures forall p :: 0 <= p < |r| ==> r[p] in ci.itemIdToIndex
  {
    if ids == [] then []
    else (if ids[0] in ci.itemIdToIndex then [ids[0]] else []) + Known(ci, ids[1..])
  }

  /** The filter keeps the input's order: it distributes over
      concatenation. */
  lemma {:induction false} KnownConcat(ci: ComputedIndex, a: seq<int>, b: seq<int>)
    ensures Known(ci, a + b) == Known(ci, a) + Known(ci, b)
  {
    if a == [] {
      assert a + b == b;
    } else {
      KnownConcat(ci, a[1..], b);
      assert (a + b)[0] == a[0];
      assert (a + b)[1..] == a[1..] + b;
      var head: seq<int> := if a[0] in ci.itemIdToIndex then [a[0]] else [];
      assert Known(ci, a + b) == head + Known(ci, a[1..] + b);
      assert Known(ci, a) == head + Known(ci, a[1..]);
    }
  }

  /** Each known id keeps its number of occurrences; unknown ones vanish. */
  lemma {:induction false} KnownCounts(ci: ComputedIndex, a: seq<int>)
    ensures forall id :: multiset(Known(ci, a))[id] == if id in ci.itemIdToIndex then multiset(a)[id] else 0
  {
    if a != [] {
      KnownCounts(ci, a[1..]);
      assert a == [a[0]] + a[1..];
      assert multiset(a) == multiset{a[0]} + multiset(a[1..]);
    }
  }

  /** The filter is empty exactly when no id is known. */
  lemma {:induction false} KnownEmpty(ci: ComputedIndex, a: seq<int>)
    ensures Known(ci, a) == [] <==> forall p :: 0 <= p < |a| ==> a[p] !in ci.itemIdToIndex
  {
    if a != [] {
      KnownEmpty(ci, a[1..]);
      if Known(ci, a) == [] {
        forall p | 0 <= p < |a| ensures a[p] !in ci.itemIdToIndex {
          if p > 0 { assert a[p] == a[1..][p - 1]; }
        }
      }
    }
  }

  // ---------------------------------------------------------------------
  // Detailed scores
  // ---------------------------------------------------------------------

  /** One entry of `get_detailed_scores`. */
  datatype Detail = Detail(totalScore: real, scores: seq<(string, real)>)

  /** Python's `<=` on strings: lexicographic by code point. */
  predicate StrLe(a: string, b: string)
  {
    a == [] || (b != [] && (a[0] < b[0] || (a[0] == b[0] && StrLe(a[1..], b[1..]))))
  }

  lemma {:induction false} StrLeTotal(a: string, b: string)
    ensures StrLe(a, b) || StrLe(b, a)
  {
    if a != [] && b != [] && a[0] == b[0] {
      StrLeTotal(a[1..], b[1..]);
    }
  }

  lemma {:induction false} StrLeTrans(a: string, b: string, c: string)
    requires StrLe(a, b) && StrLe(b, c)
    ensures StrLe(a, c)
  {
    if a != [] && b != [] && c != [] && a[0] == b[0] && b[0] == c[0] {
      StrLeTrans(a[1..], b[1..], c[1..]);
    }
  }

  /** `sorted(terms, key=lambda t: (t[1], t[0]), reverse=True)`: a term
      may stand before another whose `(q, feature)` key is not larger. */
  function TermOrder(): ((string, real), (string, real)) -> bool
  {
    (a: (string, real), b: (string, real)) => a.1 > b.1 || (a.1 == b.1 && StrLe(b.0, a.0))
  }

  lemma TermOrderIsTotalPreorder()
    ensures Sorting.TotalPreorder(TermOrder())
  {
    var le := TermOrder();
    forall a, b ensures le(a, b) || le(b, a) {
      StrLeTotal(a.0, b.0);
    }
    forall a, b, c | le(a, b) && le(b, c) ensures le(a, c) {
      if a.1 == b.1 && b.1 == c.1 {
        StrLeTrans(c.0, b.0, a.0);
      }
    }
  }

  /** `zip(feat, qi)` for row `r`: a `(feature, q[j])` term for each column
      `j` of the row, from column `j` on, in column order. */
  function TermsFrom(ci: ComputedIndex, r: nat, q: seq<real>, j: nat): seq<(string, real)>
    requires Shaped(ci) && |q| == ci.x.cols && j <= |q|
    decreases |q| - j
  {
    if j == |q| then []
    else (if (r, j) in ci.x.pairs then [(ci.indexToFeat[j], q[j])] else []) + TermsFrom(ci, r, q, j + 1)
  }

  function TermValues(t: seq<(string, real)>): seq<real>
  {
    if t == [] then [] else [t[0].1] + TermValues(t[1..])
  }

  /** `qi.sum()` is the row's entry of `X * q`: the total score of an item
      is its log score less `c`. */
  lemma {:induction false} TermsSumToRowDot(ci: ComputedIndex, r: nat, q: seq<real>, j: nat)
    requires Shaped(ci) && |q| == ci.x.cols && j <= |q|
    ensures Utils.Sum(TermValues(TermsFrom(ci, r, q, j))) == RowDot(ci.x, r, q, j)
    decreases |q| - j
  {
    if j < |q| {
      TermsSumToRowDot(ci, r, q, j + 1);
      var rest := TermsFrom(ci, r, q, j + 1);
      if (r, j) in ci.x.pairs {
        var t := [(ci.indexToFeat[j], q[j])] + rest;
        assert t[1..] == rest;
        assert TermValues(t) == [q[j]] + TermValues(rest);
        assert TermValues(t)[1..] == TermValues(rest);
      } else {
        assert TermsFrom(ci, r, q, j) == rest;
      }
    }
  }

  /** The terms are exactly the `(index_to_feat[c], q[c])` of the columns
      `c` the row has: each term comes from such a column, and each such
      column gives its term. */
  lemma {:induction false} TermsFromFacts(ci: ComputedIndex, r: nat, q: seq<real>, j: nat)
    requires Shaped(ci) && |q| == ci.x.cols && j <= |q|
    ensures forall t :: t in TermsFrom(ci, r, q, j) ==>
              exists c: nat :: j <= c < |q| && (r, c) in ci.x.pairs && t == (ci.indexToFeat[c], q[c])
    ensures forall c: nat :: j <= c < |q| && (r, c) in ci.x.pairs ==>
              (ci.indexToFeat[c], q[c]) in TermsFrom(ci, r, q, j)
    decreases |q| - j
  {
    if j < |q| {
      TermsFromFacts(ci, r, q, j + 1);
      var head := if (r, j) in ci.x.pairs then [(ci.indexToFeat[j], q[j])] else [];
      var rest := TermsFrom(ci, r, q, j + 1);
      assert TermsFrom(ci, r, q, j) == head + rest;
      forall c: nat | j <= c < |q| && (r, c) in ci.x.pairs
        ensures (ci.indexToFeat[c], q[c]) in TermsFrom(ci, r, q, j)
      {
        if c == j {
          assert (head + rest)[0] == (ci.indexToFeat[c], q[c]);
        } else {
          assert (ci.indexToFeat[c], q[c]) in rest;
        }
      }
    }
  }

  /** The detail of one item for the vector `q`: no score for an unknown
      id; otherwise the `max_terms` largest terms and the sum over all. */
  function DetailFor(ci: ComputedIndex, q: seq<real>, id: int, maxTerms: int): Detail
    requires Shaped(ci) && |q| == ci.x.cols
  {
    if id !in ci.itemIdToIndex then Detail(0.0, [])
    else
      var terms := TermsFrom(ci, RowOf(ci, id), q, 0);
      Detail(Utils.Sum(TermValues(terms)), Take(Sorting.Sort(terms, TermOrder()), maxTerms))
  }

  /** An unknown id scores 0 with no terms. For a known id, `terms` holds
      one `(feature, q)` pair for each feature of its row and nothing else;
      the total is its log score less `c`; and the scores are the first
      `max_terms` of `terms` sorted by descending `(q, feature)`: sorted,
      drawn from `terms`, `min(max_terms, len(terms))` of them, and no
      term left out ranks before one kept. */
  lemma DetailForFacts(ci: ComputedIndex, q: seq<real>, c: real, id: int, maxTerms: int)
    requires Shaped(ci) && |q| == ci.x.cols
    ensures id !in ci.itemIdToIndex ==> DetailFor(ci, q, id, maxTerms) == Detail(0.0, [])
    ensures id in ci.itemIdToIndex ==>
              var row := RowOf(ci, id);
              var terms := TermsFrom(ci, row, q, 0);
              && (forall t :: t in terms ==>
                    exists col: nat :: col < |q| && (row, col) in ci.x.pairs && t == (ci.indexToFeat[col], q[col]))
              && (forall col: nat :: col < |q| && (row, col) in ci.x.pairs ==> (ci.indexToFeat[col], q[col]) in terms)
    ensures id in ci.itemIdToIndex ==>
              var d := DetailFor(ci, q, id, maxTerms);
              var terms := TermsFrom(ci, RowOf(ci, id), q, 0);
              && c + d.totalScore == LogScores(ci.x, q, c)[RowOf(ci, id)]
              && (maxTerms >= 0 ==> |d.scores| == if maxTerms < |terms| then maxTerms else |terms|)
              && multiset(d.scores) <= multiset(terms)
              && Sorting.SortedBy(d.scores, TermOrder())
              && (forall x, y :: x in d.scores && y in multiset(terms) - multiset(d.scores) ==> TermOrder()(x, y))
  {
    if id in ci.itemIdToIndex {
      var terms := TermsFrom(ci, RowOf(ci, id), q, 0);
      TermsFromFacts(ci, RowOf(ci, id), q, 0);
      TermsSumToRowDot(ci, RowOf(ci, id), q, 0);
      TermOrderIsTotalPreorder();
      Sorting.SortTake(terms, TermOrder(), maxTerms);
    }
  }

  // ---------------------------------------------------------------------
  // QueryHandler
  // ---------------------------------------------------------------------

  /** `utils.listify`: a single id becomes a one-element list. */
  datatype QueryInput = One(id: int) | Many(ids: seq<int>)

  function Listify(input: QueryInput): (r: seq<int>)
    ensures input.One? ==> r == [input.id]
    ensures input.Many? ==> r == input.ids
  {
    match input
    case One(id) => [id]
    case Many(ids) => ids
  }

  /** The cached fields of a `QueryHandler`: `item_ids` (absent until the
      first query), `_item_ids`, `q` (absent until a vector is made), `c`,
      `log_scores`, `ordered_indexes` and `time`. */
  datatype Handler = Handler(
    itemIds: Option<seq<int>>,
    validIds: seq<int>,
    q: Option<seq<real>>,
    c: real,
    logScores: seq<real>,
    ordered: seq<nat>,
    time: real)

  /** The fields of a fresh `QueryHandler`: nothing cached, time 0. */
  const NewHandler: Handler := Handler(None, [], None, 0.0, [], [], 0.0)

  /** What makes `results` and the detailed scores well defined. */
  predicate HandlerValid(ci: ComputedIndex, h: Handler)
  {
    && Shaped(ci)
    && (forall p :: 0 <= p < |h.validIds| ==> h.validIds[p] in ci.itemIdToIndex)
    && (h.q.Some? ==> |h.q.value| == ci.x.cols)
    && |h.logScores| <= ci.x.rows
    && (forall p :: 0 <= p < |h.ordered| ==> h.ordered[p] < |h.logScores|)
  }

  /** `is_valid_query(item_ids)`: records the ids and the known ones. */
  function Validate(ci: ComputedIndex, h: Handler, ids: seq<int>): Handler
  {
    h.(itemIds := Some(ids), validIds := Known(ci, ids))
  }

  /** `_make_query_vector` for the recorded known ids. */
  function MakeQueryVector(ci: ComputedIndex, h: Handler, log: real -> real): Handler
    requires Shaped(ci) && |h.validIds| > 0
    requires forall p :: 0 <= p < |h.validIds| ==> h.validIds[p] in ci.itemIdToIndex
  {
    var sum := seq(ci.x.cols, (j: int) requires 0 <= j => Hits(ci, h.validIds, j));
    var n := |h.validIds|;
    h.(q := Some(QVector(ci, sum, n, log)), c := CValue(ci, sum, n, log, 0))
  }

  /** `results`: each ordered row paired with its item id and score. */
  function Results(ci: ComputedIndex, h: Handler): (r: ResultSet)
    requires HandlerValid(ci, h) && h.itemIds.Some?
  {
    ResultSet(h.time, |h.ordered|, h.itemIds.value, h.validIds,
              seq(|h.ordered|, p requires 0 <= p < |h.ordered| =>
                (ci.indexToItemId[h.ordered[p]], h.logScores[h.ordered[p]])))
  }

  /** `empty_results`. */
  function EmptyResults(h: Handler): ResultSet
    requires h.itemIds.Some?
  {
    EmptyResultSet(ResultOverrides(None, None, Some(h.itemIds.value), Some(h.validIds), None))
  }

  /** `query(item_ids, max_results)`: the new fields and the result set.
      `elapsed` stands for the time the timed steps took. */
  function QueryStep(ci: ComputedIndex, h: Handler, input: QueryInput, maxResults: int,
                     sample: seq<real> -> seq<real>, log: real -> real, elapsed: real): (Handler, ResultSet)
    requires HandlerValid(ci, h)
  {
    var h1 := Validate(ci, h, Listify(input));
    if h1.validIds == [] then (h1, EmptyResults(h1))
    else
      var h2 := MakeQueryVector(ci, h1, log);
      var scores := LogScores(ci.x, h2.q.value, h2.c);
      var h3 := h2.(logScores := scores, ordered := OrderIndexes(scores, maxResults, sample), time := elapsed);
      OrderIndexesFacts(scores, maxResults, sample);
      (h3, Results(ci, h3))
  }

  /** A query leaves the handler valid. */
  lemma QueryKeepsValid(ci: ComputedIndex, h: Handler, input: QueryInput, maxResults: int,
                        sample: seq<real> -> seq<real>, log: real -> real, elapsed: real)
    requires HandlerValid(ci, h)
    ensures HandlerValid(ci, QueryStep(ci, h, input, maxResults, sample, log, elapsed).0)
  {
    var h1 := Validate(ci, h, Listify(input));
    if h1.validIds != [] {
      var h2 := MakeQueryVector(ci, h1, log);
      var scores := LogScores(ci.x, h2.q.value, h2.c);
      OrderIndexesFacts(scores, maxResults, sample);
    }
  }

  /** A query with no known id gives the empty result: time 0, nothing
      found, no scores, the input as `query_item_ids` and `[]` as
      `_query_item_ids`. */
  lemma InvalidQueryIsEmpty(ci: ComputedIndex, h: Handler, input: QueryInput, maxResults: int,
                            sample: seq<real> -> seq<real>, log: real -> real, elapsed: real)
    requires HandlerValid(ci, h)
    requires forall p :: 0 <= p < |Listify(input)| ==> Listify(input)[p] !in ci.itemIdToIndex
    ensures QueryStep(ci, h, input, maxResults, sample, log, elapsed).1
            == ResultSet(0.0, 0, Listify(input), [], [])
  {
    KnownEmpty(ci, Listify(input));
  }

  /** A query with a known id finds the ordered rows: all rows in order for
      `-1`, otherwise at most `max_results` of them by descending score;
      each paired with its own item id and log score, no item twice. */
  lemma ValidQueryResults(ci: ComputedIndex, h: Handler, input: QueryInput, maxResults: int,
                          sample: seq<real> -> seq<real>, log: real -> real, elapsed: real)
    requires HandlerValid(ci, h)
    requires Known(ci, Listify(input)) != []
    requires Injective(ci.indexToItemId)
    ensures var (h', r) := QueryStep(ci, h, input, maxResults, sample, log, elapsed);
            && r.totalFound == |h'.ordered| == |r.logScores|
            && r.queryItemIds == Listify(input) && r.validQueryItemIds == Known(ci, Listify(input))
            && r.time == elapsed
            && (maxResults == -1 ==> h'.ordered == Range(ci.x.rows))
            && (maxResults >= 0 ==> r.totalFound <= maxResults)
            && (forall p :: 0 <= p < |r.logScores| ==>
                  && h'.ordered[p] in ci.indexToItemId && h'.ordered[p] < |h'.logScores|
                  && r.logScores[p] == (ci.indexToItemId[h'.ordered[p]], h'.logScores[h'.ordered[p]]))
            && (forall p, p' :: 0 <= p < p' < |r.logScores| ==> r.logScores[p].0 != r.logScores[p'].0)
            && (maxResults != -1 ==> forall p, p' :: 0 <= p < p' < |r.logScores| ==> r.logScores[p].1 >= r.logScores[p'].1)
  {
    var h1 := Validate(ci, h, Listify(input));
    var h2 := MakeQueryVector(ci, h1, log);
    var scores := LogScores(ci.x, h2.q.value, h2.c);
    OrderIndexesFacts(scores, maxResults, sample);
  }

  /** The error `get_detailed_scores` raises when told to reuse the last
      query and no query was made. */
  datatype HandlerError = NoPreviousQuery

  /** One detail per requested id, in order, for the vector `q`. */
  function DetailsFor(ci: ComputedIndex, q: seq<real>, itemIds: seq<int>, maxTerms: int): (r: seq<Detail>)
    requires Shaped(ci) && |q| == ci.x.cols
    ensures |r| == |itemIds|
    ensures forall p :: 0 <= p < |itemIds| ==> r[p] == DetailFor(ci, q, itemIds[p], maxTerms)
  {
    seq(|itemIds|, p requires 0 <= p < |itemIds| => DetailFor(ci, q, itemIds[p], maxTerms))
  }

  /** Whether `_compute_detailed_scores` remakes the vector for `qids`:
      there is none yet, or the ids are not the last ones. */
  predicate Stale(h: Handler, qids: seq<int>)
  {
    h.q.None? || Some(qids) != h.itemIds
  }

  /** The fields after `_compute_detailed_scores` has looked at `qids`:
      unchanged when the vector is current; otherwise the ids are
      validated and, when one is known, the vector is remade. */
  function RefreshStep(ci: ComputedIndex, h: Handler, qids: seq<int>, log: real -> real): Handler
    requires HandlerValid(ci, h)
  {
    if !Stale(h, qids) then h
    else
      var h1 := Validate(ci, h, qids);
      if h1.validIds == [] then h1 else MakeQueryVector(ci, h1, log)
  }

  /** Refreshing keeps the handler valid, and leaves a vector unless the
      new ids are all unknown. */
  lemma RefreshFacts(ci: ComputedIndex, h: Handler, qids: seq<int>, log: real -> real)
    requires HandlerValid(ci, h)
    ensures var h' := RefreshStep(ci, h, qids, log);
            && HandlerValid(ci, h')
            && (!Stale(h, qids) ==> h' == h)
            && (Stale(h, qids) ==> h'.itemIds == Some(qids) && h'.validIds == Known(ci, qids))
            && (Stale(h, qids) && h'.validIds != [] ==>
                  h'.q.Some? && h' == MakeQueryVector(ci, Validate(ci, h, qids), log))
            && (!Stale(h, qids) ==> h'.q.Some?)
  {
    if Stale(h, qids) {
      var h1 := Validate(ci, h, qids);
      assert HandlerValid(ci, h1);
      if h1.validIds != [] {
        assert HandlerValid(ci, MakeQueryVector(ci, h1, log));
      }
    }
  }

  /** `_compute_detailed_scores(item_ids, query_item_ids, max_terms)`: the
      query ids default to the last ones; the vector is remade when there
      is none or the ids differ from the last ones, and an invalid query
      then gives `[]`. The detail is taken with whatever `q` results. */
  function DetailStep(ci: ComputedIndex, h: Handler, itemIds: seq<int>, queryItemIds: Option<seq<int>>,
                      maxTerms: int, log: real -> real): (Handler, Result<seq<Detail>, HandlerError>)
    requires HandlerValid(ci, h)
  {
    if queryItemIds.None? && h.itemIds.None? then (h, Failure(NoPreviousQuery))
    else
      var qids := if queryItemIds.Some? then queryItemIds.value else h.itemIds.value;
      var h1 := RefreshStep(ci, h, qids, log);
      RefreshFacts(ci, h, qids, log);
      if Stale(h, qids) && h1.validIds == [] then (h1, Success([]))
      else (h1, Success(DetailsFor(ci, h1.q.value, itemIds, maxTerms)))
  }

  /** The cache rule: with no previous query and no ids there is an error;
      the vector is kept exactly when one exists and the ids are the last
      ones; otherwise the ids (given, or the last ones when none are
      given) are validated again, an invalid query gives `[]`, and a valid
      one gives the details for the freshly made vector. */
  lemma DetailStepFacts(ci: ComputedIndex, h: Handler, itemIds: seq<int>, queryItemIds: Option<seq<int>>,
                        maxTerms: int, log: real -> real)
    requires HandlerValid(ci, h)
    ensures var (h', r) := DetailStep(ci, h, itemIds, queryItemIds, maxTerms, log);
            && (r.Failure? <==> queryItemIds.None? && h.itemIds.None?)
            && (r.Success? && h.q.Some? && (queryItemIds.None? || Some(queryItemIds.value) == h.itemIds) ==>
                  h' == h && r.value == DetailsFor(ci, h.q.value, itemIds, maxTerms))
            && (queryItemIds.Some? && (h.q.None? || Some(queryItemIds.value) != h.itemIds) ==>
                  && h'.itemIds == Some(queryItemIds.value)
                  && h'.validIds == Known(ci, queryItemIds.value)
                  && (h'.validIds == [] ==> r == Success([]))
                  && (h'.validIds != [] ==>
                        && h' == MakeQueryVector(ci, Validate(ci, h, queryItemIds.value), log)
                        && h'.q.Some? && r == Success(DetailsFor(ci, h'.q.value, itemIds, maxTerms))))
            && (queryItemIds.None? && h.itemIds.Some? && h.q.None? ==>
                  && h'.itemIds == h.itemIds
                  && h'.validIds == Known(ci, h.itemIds.value)
                  && (h'.validIds == [] ==> r == Success([]))
                  && (h'.validIds != [] ==>
                        && h' == MakeQueryVector(ci, Validate(ci, h, h.itemIds.value), log)
                        && h'.q.Some? && r == Success(DetailsFor(ci, h'.q.value, itemIds, maxTerms))))
            && HandlerValid(ci, h')
  {
    if !(queryItemIds.None? && h.itemIds.None?) {
      var qids := if queryItemIds.Some? then queryItemIds.value else h.itemIds.value;
      RefreshFacts(ci, h, qids, log);
    }
  }

  /** A query with a known id leaves a vector and records the ids. */
  lemma ValidQuerySetsVector(ci: ComputedIndex, h: Handler, input: QueryInput, maxResults: int,
                             sample: seq<real> -> seq<real>, log: real -> real, elapsed: real)
    requires HandlerValid(ci, h)
    requires Known(ci, Listify(input)) != []
    ensures var h' := QueryStep(ci, h, input, maxResults, sample, log, elapsed).0;
            h'.q.Some? && h'.itemIds == Some(Listify(input))
  {
  }

  /** A query with no known id only records the ids: the vector, `c`, the
      scores and the order stay those of the last valid query. */
  lemma InvalidQueryKeepsVector(ci: ComputedIndex, h: Handler, input: QueryInput, maxResults: int,
                                sample: seq<real> -> seq<real>, log: real -> real, elapsed: real)
    requires HandlerValid(ci, h)
    requires Known(ci, Listify(input)) == []
    ensures QueryStep(ci, h, input, maxResults, sample, log, elapsed).0
            == h.(itemIds := Some(Listify(input)), validIds := [])
  {
  }

  /** The last query's vector is reused even when that query was invalid:
      after a valid query for `a` and an invalid one for `b`, the detailed
      scores for `b` use the vector of `a`. */
  lemma StaleVectorAfterInvalidQuery(ci: ComputedIndex, h: Handler, a: QueryInput, b: QueryInput,
                                     maxResults: int, sample: seq<real> -> seq<real>,
                                     log: real -> real, elapsed: real, itemIds: seq<int>, maxTerms: int,
                                     h1: Handler, h2: Handler)
    requires HandlerValid(ci, h)
    requires Known(ci, Listify(a)) != []
    requires Known(ci, Listify(b)) == []
    requires h1 == QueryStep(ci, h, a, maxResults, sample, log, elapsed).0
    requires HandlerValid(ci, h1) && h2 == QueryStep(ci, h1, b, maxResults, sample, log, elapsed).0
    ensures HandlerValid(ci, h2) && h2.q == h1.q && h1.q.Some?
    ensures DetailStep(ci, h2, itemIds, None, maxTerms, log).1
            == Success(DetailsFor(ci, h1.q.value, itemIds, maxTerms))
  {
    ValidQuerySetsVector(ci, h, a, maxResults, sample, log, elapsed);
    InvalidQueryKeepsVector(ci, h1, b, maxResults, sample, log, elapsed);
    assert h2 == h1.(itemIds := Some(Listify(b)), validIds := []);
    assert !Stale(h2, Listify(b));
    RefreshFacts(ci, h2, Listify(b), log);
  }

  /** `get_sample_item_ids()`: the item ids of the rows `random.sample`
      picked, given here as `picks`. */
  function SampleItemIds(ci: ComputedIndex, picks: seq<nat>): (r: seq<int>)
    requires forall p :: 0 <= p < |picks| ==> picks[p] in ci.indexToItemId
    ensures |r| == |picks|
    ensures forall p :: 0 <= p < |r| ==> r[p] == ci.indexToItemId[picks[p]]
  {
    seq(|picks|, p requires 0 <= p < |picks| => ci.indexToItemId[picks[p]])
  }

  /** Ten distinct rows of an index built from the files give ten distinct
      item ids, each known to the index. */
  lemma SampleItemIdsAreItems(ci: ComputedIndex, picks: seq<nat>)
    requires forall p :: 0 <= p < |picks| ==> picks[p] in ci.indexToItemId
    requires Distinct(picks) && Injective(ci.indexToItemId)
    requires forall i :: i in ci.indexToItemId ==> ci.indexToItemId[i] in ci.itemIdToIndex
    ensures Distinct(SampleItemIds(ci, picks))
    ensures forall p :: 0 <= p < |picks| ==> SampleItemIds(ci, picks)[p] in ci.itemIdToIndex
  {
    var r := SampleItemIds(ci, picks);
    forall p, p' | 0 <= p < p' < |r| ensures r[p] != r[p'] {
      assert picks[p] != picks[p'];
    }
  }

  class QueryHandler {
    const ci: ComputedIndex
    var itemIds: Option<seq<int>>
    var validIds: seq<int>
    var q: Option<seq<real>>
    var c: real
    var logScores: seq<real>
    var ordered: seq<nat>
    var time: real

    function State(): Handler
      reads this
    {
      Handler(itemIds, validIds, q, c, logScores, ordered, time)
    }

    ghost predicate Valid()
      reads this
    {
      HandlerValid(ci, State())
    }

    /** `QueryHandler(computed_index)`: the index's fields and time 0. */
    constructor (index: ComputedIndex)
      requires Shaped(index)
      ensures Valid() && ci == index
      ensures State() == NewHandler
    {
      ci := index;
      itemIds, validIds, q, c := None, [], None, 0.0;
      logScores, ordered, time := [], [], 0.0;
    }

    /** `is_valid_query(item_ids)`. */
    method IsValidQuery(ids: seq<int>) returns (valid: bool)
      requires Valid()
      modifies this
      ensures State() == Validate(ci, old(State()), ids) && Valid()
      ensures valid <==> validIds != []
    {
      var known: seq<int> := [];
      for n := 0 to |ids|
        invariant known == Known(ci, ids[..n])
        invariant State() == old(State())
      {
        KnownConcat(ci, ids[..n], [ids[n]]);
        assert ids[..n + 1] == ids[..n] + [ids[n]];
        assert Known(ci, [ids[n]]) == (if ids[n] in ci.itemIdToIndex then [ids[n]] else []) + Known(ci, []);
        if ids[n] in ci.itemIdToIndex {
          known := known + [ids[n]];
        }
      }
      assert ids[..|ids|] == ids;
      itemIds := Some(ids);
      validIds := known;
      valid := validIds != [];
    }

    /** `_make_query_vector()`. */
    method MakeVector(log: real -> real)
      requires Valid() && |validIds| > 0
      modifies this
      ensures State() == MakeQueryVector(ci, old(State()), log) && Valid()
    {
      var ids := validIds;
      var sum := SumXi(ci, ids);
      assert sum == seq(ci.x.cols, (j: int) requires 0 <= j => Hits(ci, ids, j));
      var n := |validIds|;
      q := Some(QVector(ci, sum, n, log));
      c := CValue(ci, sum, n, log, 0);
    }

    /** `query(item_ids, max_results)`. */
    method Query(input: QueryInput, maxResults: int, sample: seq<real> -> seq<real>,
                 log: real -> real, elapsed: real) returns (r: ResultSet)
      requires Valid()
      modifies this
      ensures (State(), r) == QueryStep(ci, old(State()), input, maxResults, sample, log, elapsed)
      ensures Valid()
    {
      ghost var h := State();
      QueryKeepsValid(ci, h, input, maxResults, sample, log, elapsed);
      var ids := Listify(input);
      var valid := IsValidQuery(ids);
      if !valid {
        return EmptyResults(State());
      }
      MakeVector(log);
      logScores := LogScores(ci.x, q.value, c);
      ordered := OrderIndexes(logScores, maxResults, sample);
      time := elapsed;
      r := Results(ci, State());
    }

    /** The loop of `_compute_detailed_scores` over the requested ids. */
    method Details(qv: seq<real>, items: seq<int>, maxTerms: int) returns (scores: seq<Detail>)
      requires Shaped(ci) && |qv| == ci.x.cols
      ensures scores == DetailsFor(ci, qv, items, maxTerms)
    {
      scores := [];
      for n := 0 to |items|
        invariant |scores| == n
        invariant forall p :: 0 <= p < n ==> scores[p] == DetailFor(ci, qv, items[p], maxTerms)
      {
        if items[n] !in ci.itemIdToIndex {
          scores := scores + [Detail(0.0, [])];
        } else {
          var terms := TermsFrom(ci, RowOf(ci, items[n]), qv, 0);
          var sorted := Sorting.Sort(terms, TermOrder());
          scores := scores + [Detail(Utils.Sum(TermValues(terms)), Take(sorted, maxTerms))];
        }
      }
    }

    /** `_compute_detailed_scores(item_ids, query_item_ids, max_terms)`. */
    method ComputeDetailedScores(items: seq<int>, queryItemIds: Option<seq<int>>, maxTerms: int,
                                 log: real -> real) returns (r: Result<seq<Detail>, HandlerError>)
      requires Valid()
      modifies this
      ensures (State(), r) == DetailStep(ci, old(State()), items, queryItemIds, maxTerms, log)
      ensures Valid()
    {
      ghost var h := State();
      if queryItemIds.None? && itemIds.None? {
        return Failure(NoPreviousQuery);
      }
      var qids := if queryItemIds.Some? then queryItemIds.value else itemIds.value;
      RefreshFacts(ci, h, qids, log);
      var stale := q.None? || Some(qids) != itemIds;
      if stale {
        var valid := IsValidQuery(qids);
        if !valid {
          return Success([]);
        }
        MakeVector(log);
      }
      assert State() == RefreshStep(ci, h, qids, log);
      var scores := Details(q.value, items, maxTerms);
      r := Success(scores);
    }

    /** `get_detailed_scores(item_ids, query_item_ids, max_terms)`: when the
        scores are computed, `_update_time_taken` then records the time
        taken, given here as `elapsed`; when `_compute_detailed_scores`
        raises, the time is left as it was. */
    method GetDetailedScores(items: QueryInput, queryItemIds: Option<seq<int>>, maxTerms: int,
                             log: real -> real, elapsed: real) returns (r: Result<seq<Detail>, HandlerError>)
      requires Valid()
      modifies this
      ensures var (h', res) := DetailStep(ci, old(State()), Listify(items), queryItemIds, maxTerms, log);
              && r == res
              && State() == if res.Success? then h'.(time := elapsed) else h'
      ensures Valid()
    {
      r := ComputeDetailedScores(Listify(items), queryItemIds, maxTerms, log);
      if r.Success? {
        time := elapsed;
      }
    }
  }
}
