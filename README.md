# SimSearch in Dafny

SimSearch finds items similar to a set of query items using Bayesian Sets.
An *indexer* turns `(item id, feature)` pairs into four line files:

- `.ids`, the item ids in first-seen order;
- `.fts`, the features in first-seen order;
- `.xco` and `.yco`, the row and column of every set entry of the item-by-feature matrix.

A *computed index* loads those files. A *query handler* then:

- keeps the query ids the index knows;
- counts, per feature, how many query items have it;
- scores every item against the query vector;
- returns the best ones with a randomised top-k selection, `argsort_best`;
- explains a score feature by feature.

Around the engine sit three more pieces:

- the `@similar 1234--extra` query term of the Sphinx front end;
- a small HTTP client that encodes ids as `similar=<id>` parameters;
- a server that extracts them again with the pattern `similar=(\d+)`.

The model follows the source's own structure:

| file | module | models |
|---|---|---|
| `Common.dfy` | `Common` | `Option`, `Result`, `Outcome`; Python's `s[:k]` (`Take`); `range(n)` |
| `Sorting.dfy` | `Sorting` | Python's stable `sorted` with a key, as an insertion sort |
| `Decimal.dfy` | `Decimal` | `'%s' % n` and `int(s)` on ASCII digit strings |
| `Utils.dfy` | `Utils` | `argsort_best` and its nested `get_best_threshold`; `_time_independent_equals`; `auto_assign` |
| `Indexer.dfy` | `Indexer` | `FileIndex` as a class over an in-memory `Store` of four line sequences; `Indexer.index_data` |
| `Bsets.dfy` | `BayesianSets` | `ComputedIndex._create_indexes`, the `QueryHandler` class, `ResultSet.get_empty_result_set` |
| `SimSphinx.dfy` | `SimSphinx` | `QueryTermSimilar` and `QuerySimilar.AddQueryTerm` / `GetItemIds` |
| `Client.dfy` | `Client` | the URL of `SimilaritySearchClient` |
| `Server.dfy` | `Server` | id extraction and reply of `RequestHandler.do_GET`; the port and `max_items` defaults |

Stateful code becomes classes:

- `FileIndex` and `QueryHandler` are classes.
- Each has a `State()` function that returns its fields as a datatype value.
- Each method's postcondition ties the new state and its result to a step function of the old state: `AddStep`, `QueryStep` or `DetailStep`.
- The listed properties are lemmas about those step functions.

The loops of the source are methods with loop invariants:

- the `sum_xi` accumulation, `BayesianSets.SumXi`;
- the per-item loop of the detailed scores, `BayesianSets.QueryHandler.Details`;
- the XOR/OR accumulator of `_time_independent_equals`, `Utils.TimeIndependentEquals`;
- `setattr` over `locals`, `Utils.AutoAssign`;
- the `add` loop of `index_data`, `Indexer.Indexer.IndexData`.

Calls into things the model cannot see become parameters:

- `random.sample`, as `sample: seq<real> -> seq<real>` in `argsort_best` and as the chosen rows `picks` in `get_sample_item_ids`;
- the logarithm, as `log: real -> real`;
- the elapsed time, as `elapsed`;
- the JSON encoding of a result set, as `dumps`.

Two behaviours of the code are worth stating outright:

- The docstring of `argsort_best` speaks of "the best k elements" of the array. Its first threshold is 0, though, so when the first mean filter already leaves at most `k` values the cut stays 0 and negative scores are dropped: an array of `k` negative values gives nothing back (`Utils.SmallNegativeArrayIsEmpty`).
- In append mode `add` skips a pair only when it is set in the matrix `X`, and `X` is built once, from the files, when the index is opened. A pair added twice in one append session is therefore written twice (`Indexer.AppendWritesRepeatTwice`).

A similar term's `sphinx` text is always empty (`SimSphinx.Sphinx`), so a similar term adds nothing to the full-text query sent to Sphinx.

## Model

| member | source | states |
|---|---|---|
| Common.Take | simsearch/utils.py:147 | `s[:k]` keeps the first `min(k, len)` elements; a negative `k` drops `-k` from the end |
| Common.Range | simsearch/bsets.py:141 | `xrange(n)` is `0, 1, …, n - 1` |
| Sorting.Sort | simsearch/utils.py:149 | sorting returns a permutation of its input |
| Sorting.SortSorted | simsearch/utils.py:149 | for a total preorder the output is sorted by it |
| Sorting.SortOfTiesIsIdentity | simsearch/utils.py:149 | stability: when all elements tie, `sorted` leaves them in place |
| Sorting.SortTake | simsearch/bsets.py:176-178 | `sorted(xs)[:k]` is sorted, a sub-multiset of `xs` with `min(k, len(xs))` elements for `k >= 0`, distinct when `xs` is, and no element it drops may stand before one it keeps |
| Decimal.ShowNat | tools/client.py:12 | a rendered natural is a non-empty digit string with no leading zero except `"0"` |
| Decimal.ValueOfShowNat | tools/server.py:19 | `int('%s' % n) == n` |
| Decimal.ShowNatOfValue | tools/server.py:19 | a digit string without a redundant leading zero is the rendering of its value |
| Decimal.LeadingZero | tools/server.py:19 | a leading zero does not change `int(s)` |
| Decimal.DigitRun | tools/server.py:10 | `\d+` takes the longest digit prefix: a prefix of digits followed by a non-digit or the end |
| Utils.FilterGe | simsearch/utils.py:135 | `arr[arr >= t]` keeps only values `>= t`; if it keeps as many values as it got, it is the input |
| Utils.IndexesGeFacts | simsearch/utils.py:144 | `(arr >= t).nonzero()[0]` holds exactly the distinct in-range positions whose value is `>= t` |
| Utils.BestThreshold | simsearch/utils.py:128-141 | the threshold returned is the starting one, or a mean whose filter still holds more than `best_k` values |
| Utils.CutRule | simsearch/utils.py:143-144 | the accepted cut is the initial 0 or leaves more than `best_k` positions at or above it |
| Utils.NarrowingProgress | simsearch/utils.py:129-141 | below 1000 values a step of the narrowing strictly shrinks the working array, or the array is constant and the recursion stops at once |
| Utils.KeptFacts | simsearch/utils.py:144-147 | the kept positions are distinct in-range positions at or above the cut |
| Utils.ByValueIsTotalPreorder | simsearch/utils.py:149 | the key `arr[i]`, ascending or reversed, is a total preorder on positions |
| Utils.SelectAboveSound | simsearch/utils.py:144-149 | filter, truncate and sort give at most `best_k` distinct in-range positions at or above the cut, ordered by value in the requested direction |
| Utils.ArgsortBestSound | simsearch/utils.py:124-149 | `argsort_best` returns at most `best_k` distinct valid positions, each at or above the cut, in non-increasing order for `reverse` and non-decreasing otherwise |
| Utils.FirstFilterKeepsZeroCut | simsearch/utils.py:136-144 | if the first mean filter leaves at most `best_k` values, the cut stays 0 and no negative value is returned |
| Utils.SmallNegativeArrayIsEmpty | simsearch/utils.py:128-144 | an array of at most `best_k` negative values yields no position at all |
| Utils.SelectAboveIsTopK | simsearch/utils.py:144-149 | with at least `best_k` positions at or above the cut, the reversed selection is exactly `best_k` positions and none left out holds a larger value |
| Utils.ArgsortBestIsTopK | simsearch/utils.py:124-149 | with `reverse` and at least `best_k` values at or above the cut, the result is exactly `best_k` positions holding the largest values |
| Utils.SelectAboveTies | simsearch/utils.py:146-149 | when the kept positions all hold one value, the sort leaves the first `best_k` of them in index order |
| Utils.ConstantSurvivorsTruncate | simsearch/utils.py:146-147 | when every surviving value equals the cut, the result is the first `best_k` surviving positions in index order |
| Utils.ConstantArray | simsearch/utils.py:124-149 | a constant non-negative array, such as an array of ones, yields its first `best_k` positions, `0, 1, …`, in index order |
| Utils.ConstantArrayCut | simsearch/utils.py:128-141 | the cut of a constant non-negative array is at most its value |
| Utils.NothingBelowMean | simsearch/utils.py:133-135 | if no value lies below the mean, every value is the mean |
| Utils.Xor | simsearch/utils.py:101 | `ord(x) ^ ord(y)` is zero exactly when the characters are equal |
| Utils.Or | simsearch/utils.py:101 | `result \| v` is zero exactly when both operands are |
| Utils.TimeIndependentEquals | simsearch/utils.py:96-102 | false for different lengths; otherwise it scans every position and answers true exactly when the strings are equal |
| Utils.AutoAssign | simsearch/utils.py:60-76 | every entry of `locals` except `self` becomes an attribute with its value; other attributes keep theirs |
| Indexer.ParseModeRoundTrip | simsearch/indexer.py:103-105 | exactly `read`, `append` and `write` are accepted, each for its own mode; any other name raises with that name |
| Indexer.EnumerateFacts | simsearch/indexer.py:212 | `dict((v, i) for i, v in enumerate(vals))` has every line value as a key, mapped to the last line holding it |
| Indexer.EnumerateSnoc | simsearch/indexer.py:212 | a new last line maps its value to that line number |
| Indexer.EnumerateDistinct | simsearch/indexer.py:212 | distinct lines enumerate to a bijection onto `0 … n - 1`, each value at its own line |
| Indexer.Split | simsearch/indexer.py:208 | `split('\n')` always yields at least one piece |
| Indexer.SplitLine | simsearch/indexer.py:208 | a newline-free line followed by `\n` splits off as one piece |
| Indexer.LinesOfText | simsearch/indexer.py:208 | reading back `'%s\n'`-written newline-free entries gives exactly those entries |
| Indexer.NewlineSplitsFeature | simsearch/indexer.py:208 | a feature holding a newline reads back as two features |
| Indexer.MakeCooFacts | simsearch/indexer.py:126-129 | the snapshot matrix builds exactly when the coordinate files match in length, are non-empty and non-negative; it holds exactly their pairs, inside its shape |
| Indexer.ValidIsDense | simsearch/indexer.py:143-150 | in a valid index both maps are bijections onto `0 … n - 1` with one line per key |
| Indexer.AddKeepsValid | simsearch/indexer.py:131-154 | `add` keeps an open index valid (dense maps, coordinates in lockstep naming known rows and columns) |
| Indexer.AddErrors | simsearch/indexer.py:168-183 | read mode raises; a `None` id is skipped with nothing changed; a non-integer id raises; a feature that is not text, even `None`, fails the `_unicode` assertion with nothing changed |
| Indexer.AddAssignsNextIndex | simsearch/indexer.py:143-150 | a new id gets index `len(ids)` and is written once to `.ids`; a known id keeps its index and writes nothing; features likewise |
| Indexer.AddWritesInLockstep | simsearch/indexer.py:151-154 | every `add` writes either no coordinate or one row and one column together |
| Indexer.WriteModeAlwaysWrites | simsearch/indexer.py:151-154 | write mode writes the pair on every call, even a repeated one |
| Indexer.AppendSkipRule | simsearch/indexer.py:159-166 | append mode skips a pair exactly when the snapshot holds it; a pair outside the snapshot's shape is written |
| Indexer.AppendWritesRepeatTwice | simsearch/indexer.py:152-166 | a pair absent from the snapshot and added twice in one append session is written twice |
| Indexer.ReadBackRoundTrip | simsearch/indexer.py:203-213 | reading the files of a valid index with newline-free features rebuilds its id and feature maps |
| Indexer.OpenFacts | simsearch/indexer.py:93-123 | an unknown mode fails; write mode starts an empty valid open index; read and append mode over well-formed files give a valid index holding the files' maps, closed for read and open for append; append over empty coordinate files fails |
| Indexer.FileIndex.constructor | simsearch/indexer.py:93-115 | the object holds the opened state |
| Indexer.FileIndex.Add | simsearch/indexer.py:131-154 | the new fields and the outcome are those of `AddStep` on the old fields |
| Indexer.FileIndex.Close | simsearch/indexer.py:156-157 | the files are closed and nothing else changes |
| Indexer.OpenFileIndex | simsearch/indexer.py:93-123 | opening succeeds exactly when `OpenStore` does, and the fresh object holds that state; otherwise it fails with the same error |
| Indexer.AddAllKeepsValid | simsearch/indexer.py:40-43 | the `add` loop keeps an open index valid, open and in its mode |
| Indexer.AddAllKeepsNoNewline | simsearch/indexer.py:40-43 | features stay newline-free while every feature added is |
| Indexer.IndexDataRoundTrip | simsearch/indexer.py:40-43 | indexing newline-free features into a fresh index and reading the closed files back rebuilds the maps the indexer built |
| Indexer.Indexer.constructor | simsearch/indexer.py:27-37 | the indexer keeps the index it is given |
| Indexer.Indexer.IndexData | simsearch/indexer.py:40-43 | `add` is applied to each pair in order up to the first failure, and the files are closed in every case |
| BayesianSets.Inverse | simsearch/bsets.py:41-42 | the inverted dict has each value of the map as a key, mapped back to a key holding it |
| BayesianSets.InverseOfInjective | simsearch/bsets.py:41-42 | for an injective map the inverse is exact and inverting twice gives the map back |
| BayesianSets.CreateIndexesFacts | simsearch/bsets.py:38-44 | `index_to_item_id` inverts `item_id_to_index`, `index_to_feat` inverts `fts`, and `no_items`, `no_features` are the map sizes |
| BayesianSets.LoadFromFiles | simsearch/bsets.py:26-44 | loading indexer-written files gives `no_items` lines of `.ids` and maps row `i` back to the item on line `i` |
| BayesianSets.Beta | simsearch/bsets.py:55-58 | `alpha[j] + beta[j] == 2`, the constant `c` |
| BayesianSets.SumXi | simsearch/bsets.py:116-121 | `sum_xi[j]` is the number of query ids, with repeats, whose row has feature `j`, for every column |
| BayesianSets.HitsBounds | simsearch/bsets.py:119-124 | `0 <= sum_xi[j] <= N`, so `beta_bar[j] >= beta[j]` |
| BayesianSets.HitsOfConcat | simsearch/bsets.py:119-121 | the counts of two id lists add up |
| BayesianSets.QVector | simsearch/bsets.py:130 | `q` has one entry per column |
| BayesianSets.LogScores | simsearch/bsets.py:133-136 | `log_scores` has one entry per row |
| BayesianSets.OrderIndexesFacts | simsearch/bsets.py:139-144 | `-1` orders every row naturally; otherwise at most `max_results` distinct rows by non-increasing score |
| BayesianSets.EmptyResultSetFields | simsearch/bsets.py:231-240 | each field of the empty result set is its default (0, 0, `[]`, `[]`, `[]`) unless an argument overrides it |
| BayesianSets.Known | simsearch/bsets.py:111 | `_item_ids` holds only ids the index knows |
| BayesianSets.KnownConcat | simsearch/bsets.py:111 | the filter keeps input order: it distributes over concatenation |
| BayesianSets.KnownCounts | simsearch/bsets.py:111 | each known id keeps its number of occurrences and unknown ids vanish |
| BayesianSets.KnownEmpty | simsearch/bsets.py:111-112 | the query is invalid exactly when no id is known |
| BayesianSets.TermOrderIsTotalPreorder | simsearch/bsets.py:176 | the `(q, feature)` key, reversed, is a total preorder on terms |
| BayesianSets.TermsSumToRowDot | simsearch/bsets.py:173-177 | `qi.sum()` over a row's features is that row's entry of `X * q` |
| BayesianSets.TermsFromFacts | simsearch/bsets.py:168-176 | the terms of a row are exactly the `(index_to_feat[j], q[j])` of the columns `j` the row has: each term comes from such a column and each such column gives its term |
| BayesianSets.DetailForFacts | simsearch/bsets.py:162-178 | an unknown id scores 0 with no terms; a known id's terms are one `(feature, q)` pair per feature of its row, its total is its log score less `c`, and its scores are the top `max_terms` of those terms by descending `(q, feature)`: sorted, `min(max_terms, len(terms))` of them, and no term left out ranks before a kept one |
| BayesianSets.QueryKeepsValid | simsearch/bsets.py:72-86 | a query leaves the handler's fields consistent |
| BayesianSets.InvalidQueryIsEmpty | simsearch/bsets.py:76-77 | a query with no known id gives time 0, nothing found, no scores, the input as `query_item_ids` and `[]` as `_query_item_ids` |
| BayesianSets.ValidQueryResults | simsearch/bsets.py:78-86 | a valid query returns the ordered rows, all in order for `-1` and at most `max_results` by descending score otherwise, each paired with its own item id and log score, no item twice, `total_found` their number |
| BayesianSets.InvalidQueryKeepsVector | simsearch/bsets.py:76-77 | an invalid query records only the ids; `q`, `c`, the scores and the order stay those of the last valid query |
| BayesianSets.ValidQuerySetsVector | simsearch/bsets.py:107-130 | a valid query leaves a query vector and records its ids |
| BayesianSets.RefreshFacts | simsearch/bsets.py:149-159 | a current vector is kept unchanged; otherwise the ids are recorded and validated, and when one is known the new state is exactly `MakeQueryVector` of the validated ids, so the vector is rebuilt from the new known ids |
| BayesianSets.DetailStepFacts | simsearch/bsets.py:147-180 | no previous query and no ids is an error; the vector is reused exactly when one exists and the ids are the last ones; otherwise the given ids, or the last ids when none are given, are validated again, an invalid query gives `[]`, and a valid one leaves exactly `MakeQueryVector` of those validated ids and gives `DetailsFor` the requested ids under that new vector |
| BayesianSets.StaleVectorAfterInvalidQuery | simsearch/bsets.py:149-159 | after a valid query for `a` and an invalid one for `b`, the detailed scores for `b` use the vector of `a` |
| BayesianSets.SampleItemIdsAreItems | simsearch/bsets.py:102-105 | distinct rows of an index built from files give distinct, known item ids |
| BayesianSets.QueryHandler.constructor | simsearch/bsets.py:67-70 | the handler holds the index and starts with no query and time 0 |
| BayesianSets.QueryHandler.IsValidQuery | simsearch/bsets.py:107-112 | records the ids and the known ones; the answer is true exactly when a known one exists |
| BayesianSets.QueryHandler.MakeVector | simsearch/bsets.py:114-130 | the new fields are those of `MakeQueryVector` |
| BayesianSets.QueryHandler.Query | simsearch/bsets.py:72-86 | the new fields and the result set are those of `QueryStep` |
| BayesianSets.QueryHandler.Details | simsearch/bsets.py:162-180 | the loop returns `DetailsFor` of the requested ids |
| BayesianSets.QueryHandler.ComputeDetailedScores | simsearch/bsets.py:147-180 | the new fields and the answer are those of `DetailStep` |
| BayesianSets.QueryHandler.GetDetailedScores | simsearch/bsets.py:88-100 | `DetailStep` on the listified ids; on success `_update_time_taken` then sets `time` to the elapsed time, and on `NoPreviousQuery` the time is unchanged |
| SimSphinx.SpaceRun | simsearch/simsphinx.py:201 | `\s*` takes the longest prefix of whitespace: whitespace only, followed by a non-space or the end |
| SimSphinx.FirstDigit | simsearch/simsphinx.py:201 | the first digit position, with no digit before it; none when the term has no digit |
| SimSphinx.SearchIsFirstDigitRun | simsearch/simsphinx.py:201 | `search('\s*(\d+)')` captures the first maximal run of digits |
| SimSphinx.ItemIdPresence | simsearch/simsphinx.py:206 | the search fails exactly when the term has no digit; otherwise `item_id` is non-empty |
| SimSphinx.LazyEnd | simsearch/simsphinx.py:202 | the lazy `.+?` ends after at least one character and within the string |
| SimSphinx.NoDashFindExtra | simsearch/simsphinx.py:202 | text without `-` contributes no extra |
| SimSphinx.ExtraStep | simsearch/simsphinx.py:202 | `--e` followed by `--` or the end yields `e` first |
| SimSphinx.FindExtraOfDashes | simsearch/simsphinx.py:202 | `findall` on `--e1--e2…` returns `e1, e2, …` in order |
| SimSphinx.ParseRender | simsearch/simsphinx.py:203-207 | parsing `<id>--e1--e2…` gives the id's digits as `item_id`, whose value is the id, and the extras as `extra` |
| SimSphinx.MachineLearningExample | simsearch/simsphinx.py:177-181 | `1234--"Machine Learning"` gives `item_id` `'1234'` and `extra` `['"Machine Learning"']` |
| SimSphinx.NoDigitNoTerm | simsearch/simsphinx.py:206 | a term with no digit cannot be parsed |
| SimSphinx.HashIgnoresExtras | simsearch/simsphinx.py:228-229 | two terms with the same id hash alike whatever their status, field and extras |
| SimSphinx.PaddedIdsHashApart | simsearch/simsphinx.py:228-229 | `012` and `12` hash apart although both query item 12 |
| SimSphinx.UniqOfRendered | simsearch/simsphinx.py:218-221 | an included rendered term's `uniq` names its id |
| SimSphinx.AddQueryTermFacts | simsearch/simsphinx.py:183-187 | a `similar` term becomes a parsed similar term, failing exactly when it has no digit; any other term is appended unchanged |
| SimSphinx.GetItemIds | simsearch/simsphinx.py:189-193 | a query of parsed terms yields at most one id per term |
| SimSphinx.GetItemIdsCons | simsearch/simsphinx.py:189-193 | the ids of a query are those of its first term followed by those of the rest |
| SimSphinx.GetItemIdsSnoc | simsearch/simsphinx.py:189-193 | adding a term at the end adds its ids at the end: ids come in query order |
| SimSphinx.AddTermIds | simsearch/simsphinx.py:183-193 | adding a rendered term appends its id to `GetItemIds` exactly when it is a `similar` term with status `''` or `'+'` |
| Client.DefaultBaseUrl | tools/client.py:8-9 | the default client talks to `http://localhost:8000/?` |
| Client.EmptyQueryIsBase | tools/client.py:11-12 | with no ids the URL is the base URL |
| Client.QueryUrlCount | tools/client.py:8-12 | the URL holds exactly one `similar=` per id |
| Server.Findall | tools/server.py:10 | every match of `similar=(\d+)` is a non-empty digit string |
| Server.MarkerFindall | tools/server.py:10 | `similar=` followed by a maximal digit run yields that run, then the matches of the rest |
| Server.MarkerWithoutDigit | tools/server.py:10 | `similar=` not followed by a digit contributes nothing |
| Server.QuietPathHasNoIds | tools/server.py:19 | a path in which `similar=` cannot start yields no ids |
| Server.LeadingZerosCollapse | tools/server.py:19 | `similar=007` gives 7 |
| Server.ClientServerRoundTrip | tools/server.py:19 | extracting ids from the client's URL gives back its non-negative ids, in order |
| Server.ClientServerRoundTripExact | tools/server.py:19 | for non-negative ids the round trip is exact |
| Server.ServeClientQuery | tools/server.py:17-28 | the reply is 200 with the HTML content type; it has no body exactly when no id is extracted, and otherwise the body encodes the query of those ids |
| Server.UnknownIdsGetEmptyResult | tools/server.py:22-28 | when no extracted id is in the index, the body encodes the empty result |
| Server.ConfigDefaults | tools/server.py:75-80 | the command line defaults to port 8000 and `max_items` 10000; a config without `server_port` serves on 8000 |

## Left out

- Bayesian Sets numerics: the logarithms, `q`, `c` and the matrix-vector product are exact real expressions with `log` as a parameter. Floating-point evaluation is not modelled.
- `BayesianSets.CValue`: its first term is `alpha_plus_beta` itself, as the code writes it, not its logarithm. Nothing is proved about its value.
- scipy CSR/COO matrices are modelled as a set of `(row, col)` pairs with a shape. scipy's summation of duplicate entries is not modelled.
- File handles, `codecs`, `os.makedirs` and `scipy.fromfile`: the four files are in-memory sequences of written lines. The decimal text of `.ids`, `.xco` and `.yco` and the int32 range of `scipy.fromfile` are not modelled.
- `Indexer.FileIndex.Add`: the `_unicode` decode of byte strings is not modelled; text is already a Dafny string. Only the assertion that fails for non-text features is kept.
- `BayesianSets.QueryHandler.constructor`: requires `Shaped` of the index, which the source assumes and never checks. The `KeyError` and `IndexError` paths of a malformed index are not modelled.
- The `Indexer.__init__` branch that builds a `FileIndex` from a path is not modelled. Its result is overwritten by the unconditional assignment that follows.
- `show_stats` and all logging.
- MySQL `BagOfWordsIter`, which is database I/O.
- Pickle `Serializable`, `ThreadingMixIn`, `load_index`, `search` and `query_index` are wrappers or I/O. `utils.listify` is called at simsearch/bsets.py:75 and :94 but is not defined in simsearch/utils.py; it is read as "wrap a single id, keep a list".
- Timing: `time_func`, `show_time_taken` and `_update_time_taken` become the `elapsed` parameter of `query` and `get_detailed_scores`.
- Utils.ArgsortBest: on an empty array with a negative `best_k`, Python compares with numpy's NaN mean, recurses until the recursion limit and raises; the model's mean of an empty array is 0.0, so it returns the cut 0 and an empty result instead. Apart from that case, the value taken for the mean of an empty array never decides the result.
- Utils.Candidate: `random.sample` is modelled as a function of the working array, so an unchanged working array is sampled only once. When a draw from at least 1000 values keeps every value, the next step meets the same array, gets the same draw, and stops with that mean as the cut; Python draws afresh and may narrow further (for 1000 values of 0.5 followed by 500 of 1.0, `best_k` 10 and a first draw of only 0.5s, Python can reach the cut 1.0). Runs in which Python redraws on an unchanged array are not covered.
- Randomness: `random.sample` is a parameter in `argsort_best` and the list of chosen rows in `get_sample_item_ids`.
- `_utf8` and `parse_config_file` (`execfile`).
- `SimClient`, a wrapper over the third-party fSphinx client.
- `MultiFieldQuery.AddQueryTerm` belongs to fSphinx and is read as appending the term. The `ChangeQueryTerm` decorator is not modelled.
- The `sph_field` that fSphinx gives a `similar` term is taken from the incoming term.
- `GetExtraStr` always raises, because it calls `.items()` on a list.
- `GetItemIds` on a `similar` term that never went through `AddQueryTerm` fails with `NotParsed`, standing for Python's missing `item_id` attribute.
- `SimSphinx.FindExtraOfDashes`: proved only for extras without `-` and without newline. That is a sufficient condition, not the exact set of extras that round-trip.
- In `p_extra`, `$` is read as the end of the string or the position before a final newline, and `.` excludes the newline. `\d` is ASCII only, as for a pattern compiled without `re.UNICODE`.
- `ResultSet.dumps` is the `dumps` parameter of the server reply.
- The HTTP server loop, the response writing, the `urllib` fetch and `bsets.ResultSet.loads` in the client are I/O.
- Command-line parsing (`getopt`, `int(a)` on the `-p` value, `raw_input`) is left out. `Server.CliOptions` takes the parsed port as an option.
- The client accepts any integer port; a negative one renders with a `-`, as Python does.
- Negative ids render as `-n` in the client URL, so the server drops them. `Server.ClientServerRoundTrip` therefore returns only the non-negative ids.
- The tests, the tutorial, `setup.py`, `config_example.py` and `simsearch/__init__.py` are not part of this model.
