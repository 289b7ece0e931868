/** `simsearch/indexer.py`: the on-disk index of (item id, feature) pairs.

    An index is four files. `.ids` and `.fts` list the item ids and the
    features, one per line, and the line number of a value is its index in
    the matrix; `.xco` and `.yco` list the row and the column of every set
    entry of the matrix, one per line, in lockstep. Here the files are
    in-memory sequences of the lines written to them. */
module Indexer {
  import opened Common

  // ---------------------------------------------------------------------
  // Values, modes and errors
  // ---------------------------------------------------------------------

  /** The Python values `add` can be given. */
  datatype PyValue = PyNone | PyInt(i: int) | PyText(s: string) | PyOther

  datatype Mode = Read | Append | Write

  datatype IndexError =
    | UnknownMode(name: string)   // the constructor refuses the mode name
    | ReadOnlyIndex               // `add` on an index opened for reading
    | IdNotInteger                // an item id that is not an integer
    | FeatureNotText              // `_unicode` fails its assertion
    | ClosedFile                  // a write to a closed file
    | CooLengthMismatch           // the coordinate matrix cannot be built:
    | CooEmpty                    //   lengths differ, no entry at all,
    | CooNegative                 //   or a negative coordinate
    | IterationFailed             // the iterator given to `index_data` raised

  function ModeName(m: Mode): string
  {
    match m
    case Read => "read"
    case Append => "append"
    case Write => "write"
  }

  /** The mode check of `FileIndex.__init__`. */
  function ParseMode(name: string): Result<Mode, IndexError>
  {
    if name == "read" then Success(Read)
    else if name == "append" then Success(Append)
    else if name == "write" then Success(Write)
    else Failure(UnknownMode(name))
  }

  /** Exactly the three mode names are accepted, each for its own mode; any
      other name is refused with that name. */
  lemma ParseModeRoundTrip(name: string, m: Mode)
    ensures ParseMode(ModeName(m)) == Success(m)
    ensures ParseMode(name).Success? <==> name == "read" || name == "append" || name == "write"
    ensures ParseMode(name).Success? ==> ModeName(ParseMode(name).value) == name
    ensures ParseMode(name).Failure? ==> ParseMode(name).error == UnknownMode(name)
  {
  }

  // ---------------------------------------------------------------------
  // Reading the files back
  // ---------------------------------------------------------------------

  /** `dict((v, i) for i, v in enumerate(vals))`: each value maps to its
      line number, the last one when a value repeats. */
  function Enumerate<T>(s: seq<T>): map<T, nat>
  {
    if s == [] then map[] else Enumerate(s[..|s| - 1])[s[|s| - 1] := |s| - 1]
  }

  /** Every value of `s` is a key; its index is the last line holding it. */
  lemma {:induction false} EnumerateFacts<T>(s: seq<T>)
    ensures forall x :: x in Enumerate(s) <==> x in s
    ensures forall x :: x in Enumerate(s) ==> Enumerate(s)[x] < |s| && s[Enumerate(s)[x]] == x
    ensures forall x, j :: x in Enumerate(s) && Enumerate(s)[x] < j < |s| ==> s[j] != x
  {
    if s != [] {
      var init := s[..|s| - 1];
      var last := s[|s| - 1];
      EnumerateFacts(init);
      assert s == init + [last];
      forall x ensures x in Enumerate(s) <==> x in s {
        assert x in init ==> x in s;
        assert x in s && x != last ==> x in init;
      }
    }
  }

  /** Appending a new value gives it the next line number. */
  lemma EnumerateSnoc<T>(s: seq<T>, x: T)
    ensures Enumerate(s + [x]) == Enumerate(s)[x := |s|]
  {
    assert (s + [x])[..|s|] == s;
  }

  /** The values of `m` are exactly `0 .. |m| - 1`, each for one key. */
  predicate Dense<K>(m: map<K, nat>)
  {
    && (forall k :: k in m ==> m[k] < |m|)
    && (forall a, b :: a in m && b in m && m[a] == m[b] ==> a == b)
    && (forall n :: 0 <= n < |m| ==> n in m.Values)
  }

  /** Lines holding distinct values enumerate into a dense map, one key
      per line, each value at its own line. */
  lemma {:induction false} EnumerateDistinct<T>(s: seq<T>)
    requires Distinct(s)
    ensures |Enumerate(s)| == |s|
    ensures forall i :: 0 <= i < |s| ==> s[i] in Enumerate(s) && Enumerate(s)[s[i]] == i
    ensures Dense(Enumerate(s))
  {
    EnumerateFacts(s);
    var m := Enumerate(s);
    if s != [] {
      var init := s[..|s| - 1];
      assert Distinct(init);
      EnumerateDistinct(init);
      EnumerateFacts(init);
      assert s[|s| - 1] !in init;
      assert |m| == |Enumerate(init)| + 1;
    }
    forall i | 0 <= i < |s| ensures m[s[i]] == i {
      assert s[i] in m;
    }
    forall n | 0 <= n < |m| ensures n in m.Values {
      assert m[s[n]] == n;
    }
  }

  /** `str.split('\n')`: the pieces between newlines; always at least one. */
  function Split(s: string): (r: seq<string>)
    ensures |r| >= 1
  {
    if s == [] then [""]
    else
      var rest := Split(s[1..]);
      if s[0] == '\n' then [""] + rest else [[s[0]] + rest[0]] + rest[1..]
  }

  /** `f.read().split('\n')[:-1]`: the lines of the `.fts` file. */
  function Lines(s: string): seq<string>
  {
    var parts := Split(s);
    parts[..|parts| - 1]
  }

  /** The text of a file to which each of `entries` was written as
      `'%s\n' % entry`. */
  function Text(entries: seq<string>): string
  {
    if entries == [] then "" else entries[0] + "\n" + Text(entries[1..])
  }

  predicate NoNewline(e: string)
  {
    forall i :: 0 <= i < |e| ==> e[i] != '\n'
  }

  lemma {:induction false} SplitLine(e: string, t: string)
    requires NoNewline(e)
    ensures Split(e + "\n" + t) == [e] + Split(t)
  {
    if e == [] {
      assert e + "\n" + t == "\n" + t;
      assert ("\n" + t)[1..] == t;
    } else {
      SplitLine(e[1..], t);
      assert (e + "\n" + t)[1..] == e[1..] + "\n" + t;
      assert [e[0]] + e[1..] == e;
    }
  }

  /** Reading back the `.fts` text yields the entries written, provided no
      entry holds a newline. */
  lemma {:induction false} LinesOfText(entries: seq<string>)
    requires forall p :: 0 <= p < |entries| ==> NoNewline(entries[p])
    ensures Split(Text(entries)) == entries + [""]
    ensures Lines(Text(entries)) == entries
  {
    if entries != [] {
      LinesOfText(entries[1..]);
      SplitLine(entries[0], Text(entries[1..]));
      assert [entries[0]] + entries[1..] == entries;
    }
  }

  /** A feature holding a newline reads back as two features. */
  lemma NewlineSplitsFeature()
    ensures Lines(Text(["a\nb"])) == ["a", "b"]
  {
    assert Text(["a\nb"]) == "a" + "\n" + ("b" + "\n" + "");
    SplitLine("b", "");
    SplitLine("a", "b" + "\n" + "");
    assert Split("a\nb\n") == ["a", "b", ""];
  }

  // ---------------------------------------------------------------------
  // The coordinate matrix snapshot of append mode
  // ---------------------------------------------------------------------

  /** `X`: the shape of the sparse matrix and its set entries. */
  datatype Coo = Coo(rows: nat, cols: nat, pairs: set<(int, int)>)

  function Max(s: seq<int>): (r: int)
    requires |s| > 0
    ensures forall p :: 0 <= p < |s| ==> s[p] <= r
    ensures exists p :: 0 <= p < |s| && s[p] == r
  {
    if |s| == 1 then s[0]
    else
      var m := Max(s[1..]);
      assert forall p :: 1 <= p < |s| ==> s[p] == s[1..][p - 1];
      if s[0] >= m then s[0] else m
  }

  /** `_make_coo`: `csr_matrix((ones, (xco, yco)))`. The shape is one more
      than the largest row and column; the matrix cannot be built from
      coordinate lists of different lengths, from empty lists (no shape to
      infer) or from a negative coordinate. */
  function MakeCoo(xco: seq<int>, yco: seq<int>): Result<Coo, IndexError>
  {
    if |xco| != |yco| then Failure(CooLengthMismatch)
    else if |xco| == 0 then Failure(CooEmpty)
    else if exists p :: 0 <= p < |xco| && (xco[p] < 0 || yco[p] < 0) then Failure(CooNegative)
    else Success(Coo(Max(xco) + 1, Max(yco) + 1, set p | 0 <= p < |xco| :: (xco[p], yco[p])))
  }

  /** The matrix holds exactly the pairs of the files, all inside its shape. */
  lemma MakeCooFacts(xco: seq<int>, yco: seq<int>)
    ensures MakeCoo(xco, yco).Success? <==>
              |xco| == |yco| && |xco| > 0 && forall p :: 0 <= p < |xco| ==> xco[p] >= 0 && yco[p] >= 0
    ensures MakeCoo(xco, yco).Success? ==>
              var c := MakeCoo(xco, yco).value;
              && (forall p :: 0 <= p < |xco| ==> (xco[p], yco[p]) in c.pairs)
              && (forall x, y :: (x, y) in c.pairs ==>
                    (exists p :: 0 <= p < |xco| && xco[p] == x && yco[p] == y)
                    && 0 <= x < c.rows && 0 <= y < c.cols)
  {
  }

  // ---------------------------------------------------------------------
  // The state of a FileIndex and `add`
  // ---------------------------------------------------------------------

  /** The lines of the four files: item ids, features, rows and columns. */
  datatype Disk = Disk(ids: seq<int>, fts: seq<string>, xco: seq<int>, yco: seq<int>)

  /** The fields of a `FileIndex`: its mode, the id and feature maps, the
      coordinates read at open, the snapshot `X`, the files and whether
      they are open. */
  datatype Store = Store(mode: Mode, ids: map<int, nat>, fts: map<string, nat>,
                         xco: seq<int>, yco: seq<int>, coo: Option<Coo>,
                         disk: Disk, open: bool)

  /** `_read`: the maps rebuilt from the `.ids` and `.fts` lines. */
  function ReadIds(disk: Disk): map<int, nat>
  {
    Enumerate(disk.ids)
  }

  function ReadFts(disk: Disk): map<string, nat>
  {
    Enumerate(Lines(Text(disk.fts)))
  }

  /** `FileIndex(path, mode)` over files holding `disk`. Write mode starts
      empty files; read mode reads the files and closes them; append mode
      reads them, builds the snapshot and reopens them for appending. */
  function OpenStore(name: string, disk: Disk): Result<Store, IndexError>
  {
    match ParseMode(name)
    case Failure(e) => Failure(e)
    case Success(Write) =>
      Success(Store(Write, map[], map[], [], [], None, Disk([], [], [], []), true))
    case Success(Read) =>
      Success(Store(Read, ReadIds(disk), ReadFts(disk), disk.xco, disk.yco, None, disk, false))
    case Success(Append) =>
      match MakeCoo(disk.xco, disk.yco)
      case Failure(e) => Failure(e)
      case Success(c) =>
        Success(Store(Append, ReadIds(disk), ReadFts(disk), disk.xco, disk.yco, Some(c), disk, true))
  }

  /** `_check_input`: an error, or whether to go on (false skips the pair). */
  function CheckInput(mode: Mode, id: PyValue, feat: PyValue): Result<bool, IndexError>
  {
    if mode == Read then Failure(ReadOnlyIndex)
    else if id.PyNone? then Success(false)
    else if !id.PyInt? then Failure(IdNotInteger)
    else if !feat.PyText? then Success(true)    // "converting": goes on
    else if feat.PyNone? then Success(false)    // never taken: a text is not None
    else Success(true)
  }

  /** `_in_coo(x, y)`: only append mode consults the snapshot; a position
      outside its shape counts as absent. */
  predicate InCoo(st: Store, x: nat, y: nat)
  {
    && st.mode == Append
    && st.coo.Some?
    && x < st.coo.value.rows && y < st.coo.value.cols
    && (x, y) in st.coo.value.pairs
  }

  function NewId(st: Store, i: int): Store
  {
    st.(ids := st.ids[i := |st.ids|])
  }

  function NewFeature(st: Store, f: string): Store
  {
    st.(fts := st.fts[f := |st.fts|])
  }

  /** A new id entered in the map and written to `.ids`. */
  function RecordId(st: Store, i: int): Store
  {
    NewId(st, i).(disk := st.disk.(ids := st.disk.ids + [i]))
  }

  /** A new feature entered in the map and written to `.fts`. */
  function RecordFeature(st: Store, f: string): Store
  {
    NewFeature(st, f).(disk := st.disk.(fts := st.disk.fts + [f]))
  }

  /** A pair written to `.xco` and `.yco`. */
  function WritePair(st: Store, x: nat, y: nat): Store
  {
    st.(disk := st.disk.(xco := st.disk.xco + [x], yco := st.disk.yco + [y]))
  }

  /** `add(id, feat)`, step by step as the source does it, once
      `_check_input` has let the pair through and `_unicode` has accepted
      the feature. */
  function AddStep(st: Store, id: PyValue, feat: PyValue): (Store, Outcome<IndexError>)
  {
    match CheckInput(st.mode, id, feat)
    case Failure(e) => (st, Fail(e))
    case Success(go) =>
      if !go then (st, Pass)
      else if !feat.PyText? then (st, Fail(FeatureNotText))
      else AddId(st, id.i, feat.s)
  }

  /** A new id gets the next index and is written to `.ids`; once the files
      are closed the write fails, after the map was updated. */
  function AddId(st: Store, i: int, f: string): (Store, Outcome<IndexError>)
  {
    if i in st.ids then AddFeature(st, i, f)
    else if !st.open then (NewId(st, i), Fail(ClosedFile))
    else AddFeature(RecordId(st, i), i, f)
  }

  /** The same for a new feature and `.fts`. */
  function AddFeature(st: Store, i: int, f: string): (Store, Outcome<IndexError>)
    requires i in st.ids
  {
    if f in st.fts then AddPair(st, i, f)
    else if !st.open then (NewFeature(st, f), Fail(ClosedFile))
    else AddPair(RecordFeature(st, f), i, f)
  }

  /** The pair is written unless the snapshot holds it. */
  function AddPair(st: Store, i: int, f: string): (Store, Outcome<IndexError>)
    requires i in st.ids && f in st.fts
  {
    var x, y := st.ids[i], st.fts[f];
    if InCoo(st, x, y) then (st, Pass)
    else if !st.open then (st, Fail(ClosedFile))
    else (WritePair(st, x, y), Pass)
  }

  function CloseStore(st: Store): Store
  {
    st.(open := false)
  }

  // ---------------------------------------------------------------------
  // The invariant of an index
  // ---------------------------------------------------------------------

  /** The maps agree with the lines of `.ids` and `.fts`, which hold
      distinct values; the coordinate files grow in lockstep and every row
      and column names a known id and feature. */
  predicate Valid(st: Store)
  {
    && Distinct(st.disk.ids) && Enumerate(st.disk.ids) == st.ids
    && Distinct(st.disk.fts) && Enumerate(st.disk.fts) == st.fts
    && |st.disk.xco| == |st.disk.yco|
    && (forall p :: 0 <= p < |st.disk.xco| ==> 0 <= st.disk.xco[p] < |st.ids|)
    && (forall p :: 0 <= p < |st.disk.yco| ==> 0 <= st.disk.yco[p] < |st.fts|)
  }

  /** In a valid index both maps are bijections onto `0 .. n - 1`, with one
      line per key. */
  lemma ValidIsDense(st: Store)
    requires Valid(st)
    ensures Dense(st.ids) && |st.ids| == |st.disk.ids|
    ensures Dense(st.fts) && |st.fts| == |st.disk.fts|
  {
    EnumerateDistinct(st.disk.ids);
    EnumerateDistinct(st.disk.fts);
  }

  /** Appending a new value to distinct lines keeps them distinct and
      gives it the next index. */
  lemma AppendLine<T>(s: seq<T>, x: T)
    requires Distinct(s) && x !in Enumerate(s)
    ensures Distinct(s + [x])
    ensures Enumerate(s + [x]) == Enumerate(s)[x := |s|]
    ensures |Enumerate(s)| == |s|
  {
    EnumerateFacts(s);
    EnumerateDistinct(s);
    EnumerateSnoc(s, x);
  }

  lemma RecordIdKeepsValid(st: Store, i: int)
    requires Valid(st) && i !in st.ids
    ensures Valid(RecordId(st, i))
  {
    AppendLine(st.disk.ids, i);
    var st' := RecordId(st, i);
    assert st'.ids == Enumerate(st'.disk.ids);
    assert |st'.ids| == |st.ids| + 1;
    assert st'.disk.xco == st.disk.xco && st'.fts == st.fts && st'.disk.fts == st.disk.fts;
  }

  lemma RecordFeatureKeepsValid(st: Store, f: string)
    requires Valid(st) && f !in st.fts
    ensures Valid(RecordFeature(st, f))
  {
    AppendLine(st.disk.fts, f);
    var st' := RecordFeature(st, f);
    assert st'.fts == Enumerate(st'.disk.fts);
    assert |st'.fts| == |st.fts| + 1;
    assert st'.disk.yco == st.disk.yco && st'.ids == st.ids && st'.disk.ids == st.disk.ids;
  }

  lemma WritePairKeepsValid(st: Store, x: nat, y: nat)
    requires Valid(st) && x < |st.ids| && y < |st.fts|
    ensures Valid(WritePair(st, x, y))
  {
  }

  /** `add` on an open valid index leaves it valid. */
  lemma AddKeepsValid(st: Store, id: PyValue, feat: PyValue)
    requires Valid(st) && st.open
    ensures Valid(AddStep(st, id, feat).0)
    ensures AddStep(st, id, feat).0.open && AddStep(st, id, feat).0.mode == st.mode
  {
    if CheckInput(st.mode, id, feat) == Success(true) && feat.PyText? {
      var i, f := id.i, feat.s;
      if i !in st.ids {
        RecordIdKeepsValid(st, i);
        AddFeatureKeepsValid(RecordId(st, i), i, f);
      } else {
        AddFeatureKeepsValid(st, i, f);
      }
    }
  }

  lemma AddFeatureKeepsValid(st: Store, i: int, f: string)
    requires Valid(st) && st.open && i in st.ids
    ensures Valid(AddFeature(st, i, f).0)
    ensures AddFeature(st, i, f).0.open && AddFeature(st, i, f).0.mode == st.mode
  {
    if f !in st.fts {
      RecordFeatureKeepsValid(st, f);
      AddPairKeepsValid(RecordFeature(st, f), i, f);
    } else {
      AddPairKeepsValid(st, i, f);
    }
  }

  lemma AddPairKeepsValid(st: Store, i: int, f: string)
    requires Valid(st) && st.open && i in st.ids && f in st.fts
    ensures Valid(AddPair(st, i, f).0)
    ensures AddPair(st, i, f).0.open && AddPair(st, i, f).0.mode == st.mode
  {
    ValidIsDense(st);
    WritePairKeepsValid(st, st.ids[i], st.fts[f]);
  }

  // ---------------------------------------------------------------------
  // What `add` does
  // ---------------------------------------------------------------------

  /** The refusals of `add`: read mode raises, a `None` id is skipped with
      nothing changed, a non-integer id raises, and any feature that is not
      text (even `None`) fails the assertion of `_unicode`. */
  lemma AddErrors(st: Store, id: PyValue, feat: PyValue)
    ensures st.mode == Read ==> AddStep(st, id, feat) == (st, Fail(ReadOnlyIndex))
    ensures st.mode != Read && id.PyNone? ==> AddStep(st, id, feat) == (st, Pass)
    ensures st.mode != Read && !id.PyNone? && !id.PyInt? ==> AddStep(st, id, feat) == (st, Fail(IdNotInteger))
    ensures st.mode != Read && id.PyInt? && !feat.PyText? ==> AddStep(st, id, feat) == (st, Fail(FeatureNotText))
  {
  }

  /** A new item id gets index `|ids|` and is written once to `.ids`; a
      known id keeps its index and nothing is written. Features likewise. */
  lemma AddAssignsNextIndex(st: Store, i: int, f: string)
    requires st.mode != Read && st.open
    ensures var st' := AddStep(st, PyInt(i), PyText(f)).0;
            && AddStep(st, PyInt(i), PyText(f)).1 == Pass
            && st'.ids == (if i in st.ids then st.ids else st.ids[i := |st.ids|])
            && st'.disk.ids == (if i in st.ids then st.disk.ids else st.disk.ids + [i])
            && st'.fts == (if f in st.fts then st.fts else st.fts[f := |st.fts|])
            && st'.disk.fts == (if f in st.fts then st.disk.fts else st.disk.fts + [f])
  {
  }

  /** `d1` is `d0` with no coordinate written, or with one row and one
      column written together. */
  predicate Lockstep(d0: Disk, d1: Disk)
  {
    || (d1.xco == d0.xco && d1.yco == d0.yco)
    || (&& |d1.xco| == |d0.xco| + 1 && d1.xco[..|d0.xco|] == d0.xco
        && |d1.yco| == |d0.yco| + 1 && d1.yco[..|d0.yco|] == d0.yco)
  }

  /** Each call writes either no coordinate or one row and one column. */
  lemma AddWritesInLockstep(st: Store, id: PyValue, feat: PyValue)
    ensures Lockstep(st.disk, AddStep(st, id, feat).0.disk)
  {
    if CheckInput(st.mode, id, feat) == Success(true) && feat.PyText? {
      var i, f := id.i, feat.s;
      if i !in st.ids && st.open {
        AddFeatureInLockstep(RecordId(st, i), i, f);
      } else if i in st.ids {
        AddFeatureInLockstep(st, i, f);
      }
    }
  }

  lemma AddFeatureInLockstep(st: Store, i: int, f: string)
    requires i in st.ids
    ensures Lockstep(st.disk, AddFeature(st, i, f).0.disk)
  {
    if f !in st.fts && st.open {
      AddPairInLockstep(RecordFeature(st, f), i, f);
    } else if f in st.fts {
      AddPairInLockstep(st, i, f);
    }
  }

  lemma AddPairInLockstep(st: Store, i: int, f: string)
    requires i in st.ids && f in st.fts
    ensures Lockstep(st.disk, AddPair(st, i, f).0.disk)
  {
    var x, y := st.ids[i], st.fts[f];
    if !InCoo(st, x, y) && st.open {
      assert (st.disk.xco + [x])[..|st.disk.xco|] == st.disk.xco;
      assert (st.disk.yco + [y])[..|st.disk.yco|] == st.disk.yco;
    }
  }

  /** The store once `add` has entered the id and the feature, before it
      looks at the pair. */
  function Prepared(st: Store, i: int, f: string): Store
  {
    var st1 := if i in st.ids then st else RecordId(st, i);
    if f in st1.fts then st1 else RecordFeature(st1, f)
  }

  /** On an open writable index, `add` enters the id and the feature and
      then decides about the pair; entering them writes no coordinate and
      changes neither the mode nor the snapshot. */
  lemma AddThroughPair(st: Store, i: int, f: string)
    requires st.mode != Read && st.open
    ensures var st2 := Prepared(st, i, f);
            && i in st2.ids && f in st2.fts
            && AddStep(st, PyInt(i), PyText(f)) == AddPair(st2, i, f)
            && st2.mode == st.mode && st2.coo == st.coo && st2.open
            && st2.disk.xco == st.disk.xco && st2.disk.yco == st.disk.yco
            && st2.ids == (if i in st.ids then st.ids else st.ids[i := |st.ids|])
            && st2.fts == (if f in st.fts then st.fts else st.fts[f := |st.fts|])
  {
  }

  /** In write mode every accepted pair is written, even a repeated one:
      the row is the id's index, old or new, and the column the
      feature's. */
  lemma WriteModeAlwaysWrites(st: Store, i: int, f: string)
    requires st.mode == Write && st.open
    ensures var st' := AddStep(st, PyInt(i), PyText(f)).0;
            && st'.disk.xco == st.disk.xco + [if i in st.ids then st.ids[i] else |st.ids|]
            && st'.disk.yco == st.disk.yco + [if f in st.fts then st.fts[f] else |st.fts|]
  {
    AddThroughPair(st, i, f);
  }

  /** In append mode a pair is skipped exactly when the snapshot taken at
      open holds it; a pair outside the snapshot's shape is written. */
  lemma AppendSkipRule(st: Store, i: int, f: string)
    requires st.mode == Append && st.open && st.coo.Some?
    ensures var st' := AddStep(st, PyInt(i), PyText(f)).0;
            var x, y := st'.ids[i], st'.fts[f];
            && (InCoo(st', x, y) <==> (x, y) in st.coo.value.pairs && x < st.coo.value.rows && y < st.coo.value.cols)
            && (InCoo(st', x, y) ==> st'.disk.xco == st.disk.xco && st'.disk.yco == st.disk.yco)
            && (!InCoo(st', x, y) ==> st'.disk.xco == st.disk.xco + [x] && st'.disk.yco == st.disk.yco + [y])
  {
    AddThroughPair(st, i, f);
    var st2 := Prepared(st, i, f);
    var x, y := st2.ids[i], st2.fts[f];
    if InCoo(st2, x, y) {
      assert AddStep(st, PyInt(i), PyText(f)).0 == st2;
    } else {
      assert AddStep(st, PyInt(i), PyText(f)).0 == WritePair(st2, x, y);
    }
  }

  /** The snapshot is not updated by `add`: a pair added twice in one
      append session, and absent from the snapshot, is written twice. */
  lemma AppendWritesRepeatTwice(st: Store, i: int, f: string)
    requires st.mode == Append && st.open && st.coo.Some?
    requires var st1 := AddStep(st, PyInt(i), PyText(f)).0;
             !InCoo(st1, st1.ids[i], st1.fts[f])
    ensures var st1 := AddStep(st, PyInt(i), PyText(f)).0;
            var st2 := AddStep(st1, PyInt(i), PyText(f)).0;
            var x, y := st1.ids[i], st1.fts[f];
            && st2.disk.xco == st.disk.xco + [x, x]
            && st2.disk.yco == st.disk.yco + [y, y]
  {
    AddThroughPair(st, i, f);
    var p := Prepared(st, i, f);
    var x, y := p.ids[i], p.fts[f];
    assert !InCoo(p, x, y);
    var st1 := WritePair(p, x, y);
    assert AddStep(st, PyInt(i), PyText(f)).0 == st1;
    AddThroughPair(st1, i, f);
    assert Prepared(st1, i, f) == st1;
    assert AddStep(st1, PyInt(i), PyText(f)).0 == WritePair(st1, x, y);
    assert st.disk.xco + [x] + [x] == st.disk.xco + [x, x];
    assert st.disk.yco + [y] + [y] == st.disk.yco + [y, y];
  }

  /** Reading back the files of a valid index rebuilds its maps, provided no
      feature holds a newline. */
  lemma ReadBackRoundTrip(st: Store)
    requires Valid(st)
    requires forall f :: f in st.fts ==> NoNewline(f)
    ensures OpenStore("read", st.disk).Success?
    ensures OpenStore("read", st.disk).value.ids == st.ids
    ensures OpenStore("read", st.disk).value.fts == st.fts
  {
    EnumerateFacts(st.disk.fts);
    forall p | 0 <= p < |st.disk.fts| ensures NoNewline(st.disk.fts[p]) {
      assert st.disk.fts[p] in st.fts;
    }
    LinesOfText(st.disk.fts);
  }

  /** Files the index could have written: distinct ids and features without
      newlines, coordinates in lockstep naming known lines. */
  predicate WellFormedDisk(disk: Disk)
  {
    && Distinct(disk.ids) && Distinct(disk.fts)
    && (forall p :: 0 <= p < |disk.fts| ==> NoNewline(disk.fts[p]))
    && |disk.xco| == |disk.yco|
    && (forall p :: 0 <= p < |disk.xco| ==> 0 <= disk.xco[p] < |disk.ids|)
    && (forall p :: 0 <= p < |disk.yco| ==> 0 <= disk.yco[p] < |disk.fts|)
  }

  /** Opening: an unknown mode is refused; write mode starts an empty valid
      index; read and append mode over well-formed files give a valid index
      holding the files' maps, closed for read and open for append. Append
      mode over empty coordinate files fails to build its snapshot. */
  lemma OpenFacts(name: string, disk: Disk)
    ensures ParseMode(name).Failure? ==> OpenStore(name, disk) == Failure(UnknownMode(name))
    ensures name == "write" ==>
              && OpenStore(name, disk).Success? && Valid(OpenStore(name, disk).value)
              && OpenStore(name, disk).value.ids == map[] && OpenStore(name, disk).value.open
    ensures name == "read" && WellFormedDisk(disk) ==>
              && OpenStore(name, disk).Success? && Valid(OpenStore(name, disk).value)
              && OpenStore(name, disk).value.ids == Enumerate(disk.ids)
              && !OpenStore(name, disk).value.open
    ensures name == "append" && WellFormedDisk(disk) && |disk.xco| > 0 ==>
              && OpenStore(name, disk).Success? && Valid(OpenStore(name, disk).value)
              && OpenStore(name, disk).value.ids == Enumerate(disk.ids)
              && OpenStore(name, disk).value.open
    ensures name == "append" && |disk.xco| == 0 ==> OpenStore(name, disk).Failure?
  {
    if WellFormedDisk(disk) {
      LinesOfText(disk.fts);
      EnumerateDistinct(disk.ids);
      EnumerateDistinct(disk.fts);
      MakeCooFacts(disk.xco, disk.yco);
    }
  }

  /** Write mode starts an empty, valid, open index. */
  lemma OpenWrite(disk: Disk) returns (st: Store)
    ensures OpenStore("write", disk) == Success(st)
    ensures Valid(st) && st.open && st.mode == Write && st.ids == map[] && st.fts == map[]
  {
    st := OpenStore("write", disk).value;
  }

  // ---------------------------------------------------------------------
  // FileIndex
  // ---------------------------------------------------------------------

  class FileIndex {
    var mode: Mode
    var ids: map<int, nat>
    var fts: map<string, nat>
    var xco: seq<int>
    var yco: seq<int>
    var coo: Option<Coo>
    var disk: Disk
    var isOpen: bool

    function State(): Store
      reads this
    {
      Store(mode, ids, fts, xco, yco, coo, disk, isOpen)
    }

    /** The fields as the constructor leaves them, once the mode is known
        and the files are read. */
    constructor (st: Store)
      ensures State() == st
    {
      mode, ids, fts, xco, yco := st.mode, st.ids, st.fts, st.xco, st.yco;
      coo, disk, isOpen := st.coo, st.disk, st.open;
    }

    /** `add(id, feat)`. */
    method Add(id: PyValue, feat: PyValue) returns (res: Outcome<IndexError>)
      modifies this
      ensures (State(), res) == AddStep(old(State()), id, feat)
    {
      var check := CheckInput(mode, id, feat);
      if check.Failure? {
        return Fail(check.error);
      }
      if !check.value {
        return Pass;
      }
      if !feat.PyText? {
        return Fail(FeatureNotText);
      }
      var i, f := id.i, feat.s;
      if i !in ids {
        ids := ids[i := |ids|];
        if !isOpen {
          return Fail(ClosedFile);
        }
        disk := disk.(ids := disk.ids + [i]);
      }
      if f !in fts {
        fts := fts[f := |fts|];
        if !isOpen {
          return Fail(ClosedFile);
        }
        disk := disk.(fts := disk.fts + [f]);
      }
      var x, y := ids[i], fts[f];
      if !InCoo(State(), x, y) {
        if !isOpen {
          return Fail(ClosedFile);
        }
        disk := disk.(xco := disk.xco + [x], yco := disk.yco + [y]);
      }
      return Pass;
    }

    /** `close()` and `__exit__`: the files are closed; closing again
        changes nothing. */
    method Close()
      modifies this
      ensures State() == CloseStore(old(State()))
    {
      isOpen := false;
    }
  }

  /** `FileIndex(index_path, mode)` over files holding `disk`. */
  method OpenFileIndex(name: string, disk: Disk) returns (r: Result<FileIndex, IndexError>)
    ensures r.Success? <==> OpenStore(name, disk).Success?
    ensures r.Success? ==> fresh(r.value) && r.value.State() == OpenStore(name, disk).value
    ensures r.Failure? ==> r.error == OpenStore(name, disk).error
  {
    var st := OpenStore(name, disk);
    if st.Failure? {
      return Failure(st.error);
    }
    var index := new FileIndex(st.value);
    return Success(index);
  }

  // ---------------------------------------------------------------------
  // Indexer
  // ---------------------------------------------------------------------

  /** What the iterator of `index_data` yields: a pair, or an exception. */
  datatype Row = Row(id: PyValue, feat: PyValue) | IterationError

  /** The loop of `index_data`: `add` on each pair in order, stopping at the
      first exception. */
  function AddAll(st: Store, rows: seq<Row>): (Store, Outcome<IndexError>)
    decreases |rows|
  {
    if rows == [] then (st, Pass)
    else match rows[0]
      case IterationError => (st, Fail(IterationFailed))
      case Row(id, feat) =>
        var (st1, res) := AddStep(st, id, feat);
        if res.Fail? then (st1, res) else AddAll(st1, rows[1..])
  }

  /** The loop keeps an open index valid and open. */
  lemma {:induction false} AddAllKeepsValid(st: Store, rows: seq<Row>)
    requires Valid(st) && st.open
    ensures Valid(AddAll(st, rows).0) && AddAll(st, rows).0.open
    ensures AddAll(st, rows).0.mode == st.mode
    decreases |rows|
  {
    if rows != [] && rows[0].Row? {
      AddKeepsValid(st, rows[0].id, rows[0].feat);
      AddAllKeepsValid(AddStep(st, rows[0].id, rows[0].feat).0, rows[1..]);
    }
  }

  predicate TextRow(r: Row)
  {
    r.Row? && r.feat.PyText? && NoNewline(r.feat.s)
  }

  /** The features stay newline-free while every feature added is. */
  lemma {:induction false} AddAllKeepsNoNewline(st: Store, rows: seq<Row>)
    requires forall f :: f in st.fts ==> NoNewline(f)
    requires forall p :: 0 <= p < |rows| && rows[p].Row? && rows[p].feat.PyText? ==> NoNewline(rows[p].feat.s)
    ensures forall f :: f in AddAll(st, rows).0.fts ==> NoNewline(f)
    decreases |rows|
  {
    if rows != [] && rows[0].Row? {
      var st1 := AddStep(st, rows[0].id, rows[0].feat).0;
      assert forall f :: f in st1.fts ==> NoNewline(f);
      AddAllKeepsNoNewline(st1, rows[1..]);
    }
  }

  /** Indexing newline-free features into a fresh index and reading the
      files back rebuilds the id and feature maps the indexer built. */
  lemma IndexDataRoundTrip(disk: Disk, rows: seq<Row>)
    requires forall p :: 0 <= p < |rows| && rows[p].Row? && rows[p].feat.PyText? ==> NoNewline(rows[p].feat.s)
    ensures var st := CloseStore(AddAll(OpenStore("write", disk).value, rows).0);
            && Valid(st) && !st.open
            && OpenStore("read", st.disk).Success?
            && OpenStore("read", st.disk).value.ids == st.ids
            && OpenStore("read", st.disk).value.fts == st.fts
  {
    var st0 := OpenWrite(disk);
    AddAllKeepsValid(st0, rows);
    AddAllKeepsNoNewline(st0, rows);
    ReadBackRoundTrip(CloseStore(AddAll(st0, rows).0));
  }

  class Indexer {
    var index: FileIndex

    constructor (index: FileIndex)
      ensures this.index == index
    {
      this.index := index;
    }

    /** `index_data()`: inside `with self.index`, `add` each pair; the files
        are closed whether or not the loop raised. */
    method IndexData(rows: seq<Row>) returns (res: Outcome<IndexError>)
      modifies index
      ensures index.State() == CloseStore(AddAll(old(index.State()), rows).0)
      ensures res == AddAll(old(index.State()), rows).1
    {
      ghost var start := index.State();
      res := Pass;
      var n := 0;
      while n < |rows|
        invariant 0 <= n <= |rows|
        invariant AddAll(start, rows) == AddAll(index.State(), rows[n..])
        invariant res == Pass
        decreases |rows| - n
      {
        assert rows[n..][1..] == rows[n + 1..];
        match rows[n]
        case IterationError =>
          res := Fail(IterationFailed);
          break;
        case Row(id, feat) =>
          var r := index.Add(id, feat);
          if r.Fail? {
            res := r;
            break;
          }
        n := n + 1;
      }
      index.Close();
    }
  }
}
