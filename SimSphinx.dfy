/** `simsearch/simsphinx.py`: the `@similar` query terms of a multi-field
    query, written `(@similar 1234--"Machine Learning")`, and the choice of
    the item ids a similarity query is made of. The Sphinx client around
    them is not part of this model. */
module SimSphinx {
  import opened Common
  import opened Decimal

  // ---------------------------------------------------------------------
  // p_item_id = re.compile('\s*(\d+)(?:--)?')
  // ---------------------------------------------------------------------

  /** `\s` in a pattern compiled without `re.UNICODE`: space, tab, line
      feed, carriage return, form feed and vertical tab. */
  predicate IsSpace(c: char)
  {
    c == ' ' || c == '\t' || c == '\n' || c == '\r' || c as int == 12 || c as int == 11
  }

  /** The longest prefix of `s` made of spaces. */
  function SpaceRun(s: string): (r: string)
    ensures |r| <= |s| && r == s[..|r|]
    ensures forall i :: 0 <= i < |r| ==> IsSpace(r[i])
    ensures |r| < |s| ==> !IsSpace(s[|r|])
  {
    if s != [] && IsSpace(s[0]) then [s[0]] + SpaceRun(s[1..]) else []
  }

  /** `p_item_id.search(term).group(1)`: the pattern is tried at each
      position from the left; it matches where spaces lead to at least one
      digit, and the group is the run of digits after the spaces. The
      optional `--` after it does not change the group. `None` stands for
      the failed search, on which `.group` raises. */
  function SearchItemId(s: string): Option<Digits>
    decreases |s|
  {
    var d: Digits := DigitRun(s[|SpaceRun(s)|..]);
    if d != [] then Some(d)
    else if s == [] then None
    else SearchItemId(s[1..])
  }

  /** The position of the first digit of `s`. */
  function FirstDigit(s: string): (r: Option<nat>)
    ensures r.Some? ==> r.value < |s| && IsDigit(s[r.value])
    ensures r.Some? ==> forall i :: 0 <= i < r.value ==> !IsDigit(s[i])
    ensures r.None? ==> forall i :: 0 <= i < |s| ==> !IsDigit(s[i])
  {
    if s == [] then None
    else if IsDigit(s[0]) then Some(0)
    else match FirstDigit(s[1..])
      case None => None
      case Some(k) => Some(k + 1)
  }

  /** The first maximal run of digits in `s`. */
  function FirstDigitRun(s: string): Option<Digits>
  {
    match FirstDigit(s)
    case None => None
    case Some(k) => var d: Digits := DigitRun(s[k..]); Some(d)
  }

  lemma FirstDigitRunShift(s: string)
    requires s != [] && !IsDigit(s[0])
    ensures FirstDigitRun(s) == FirstDigitRun(s[1..])
  {
    match FirstDigit(s[1..])
    case None =>
    case Some(k) =>
      assert s[k + 1..] == s[1..][k..];
  }

  /** The search finds the first maximal run of digits of the term,
      whatever precedes it: the leading `\s*` only decides where the match
      starts, not what the group holds. */
  lemma {:induction false} SearchIsFirstDigitRun(s: string)
    ensures SearchItemId(s) == FirstDigitRun(s)
  {
    if s == [] {
    } else if IsDigit(s[0]) {
      assert SpaceRun(s) == [];
      assert s[0..] == s;
    } else {
      SearchIsFirstDigitRun(s[1..]);
      FirstDigitRunShift(s);
      if IsSpace(s[0]) {
        assert s[|SpaceRun(s)|..] == s[1..][|SpaceRun(s[1..])|..];
      } else {
        assert SpaceRun(s) == [];
      }
    }
  }

  /** The search fails exactly when the term holds no digit; otherwise the
      item id is a non-empty run of digits. */
  lemma ItemIdPresence(s: string)
    ensures SearchItemId(s).None? <==> forall i :: 0 <= i < |s| ==> !IsDigit(s[i])
    ensures SearchItemId(s).Some? ==> SearchItemId(s).value != []
  {
    SearchIsFirstDigitRun(s);
    if FirstDigit(s).Some? {
      var k := FirstDigit(s).value;
      assert DigitRun(s[k..]) != [];
    }
  }

  // ---------------------------------------------------------------------
  // p_extra = re.compile('--(.+?)(?=--|$)', re.I|re.U)
  // ---------------------------------------------------------------------

  /** The look-ahead `(?=--|$)` at position `k`: `--` follows, or the
      string ends, or only its final line feed follows. */
  predicate AtStop(s: string, k: nat)
    requires k <= |s|
  {
    (k + 2 <= |s| && s[k] == '-' && s[k + 1] == '-') || k == |s| || (k + 1 == |s| && s[k] == '\n')
  }

  /** The lazy `.+?` whose group started at position 2 and has reached
      position `k`: the end of the shortest group, made of characters other
      than a line feed, at which the look-ahead holds. */
  function LazyEnd(s: string, k: nat): (r: Option<nat>)
    requires 1 <= k
    ensures r.Some? ==> k <= r.value <= |s|
    decreases |s| + 1 - k
  {
    if k > |s| || s[k - 1] == '\n' then None
    else if AtStop(s, k) then Some(k)
    else LazyEnd(s, k + 1)
  }

  /** `p_extra.findall(term)`: at each position from the left, `--`
      followed by a group as short as the look-ahead allows; the scan
      goes on at the end of the group, so the `--` of the look-ahead can
      start the next match. */
  function FindExtra(s: string): seq<string>
    decreases |s|
  {
    if |s| < 3 then []
    else if s[0] == '-' && s[1] == '-' && LazyEnd(s, 3).Some? then
      var k := LazyEnd(s, 3).value;
      [s[2..k]] + FindExtra(s[k..])
    else FindExtra(s[1..])
  }

  /** An extra the parser reads back as written: not empty, with no dash
      and no line feed. */
  predicate Clean(e: string)
  {
    e != [] && '-' !in e && '\n' !in e
  }

  /** `--e1--e2...`: the extras as a term writes them after the id. */
  function Dashes(extras: seq<string>): string
  {
    if extras == [] then "" else "--" + extras[0] + Dashes(extras[1..])
  }

  /** No match starts in a prefix without dashes. */
  lemma {:induction false} NoDashFindExtra(p: string, t: string)
    requires '-' !in p
    ensures FindExtra(p + t) == FindExtra(t)
  {
    if p == [] {
      assert p + t == t;
    } else if |p + t| >= 3 {
      assert (p + t)[0] == p[0];
      assert (p + t)[1..] == p[1..] + t;
      NoDashFindExtra(p[1..], t);
    }
  }

  /** The shortest group after `--` stops at the next `--` or at the end. */
  lemma {:induction false} LazyEndOf(e: string, rest: string, k: nat)
    requires Clean(e)
    requires rest == [] || (|rest| >= 2 && rest[0] == '-' && rest[1] == '-')
    requires 3 <= k <= 2 + |e|
    ensures LazyEnd("--" + e + rest, k) == Some(2 + |e|)
    decreases 2 + |e| - k
  {
    var s := "--" + e + rest;
    assert s[k - 1] == e[k - 3];
    if k < 2 + |e| {
      assert s[k] == e[k - 2];
      LazyEndOf(e, rest, k + 1);
    } else {
      assert rest != [] ==> s[k] == rest[0] && s[k + 1] == rest[1];
    }
  }

  lemma ExtraStep(e: string, rest: string)
    requires Clean(e)
    requires rest == [] || (|rest| >= 2 && rest[0] == '-' && rest[1] == '-')
    ensures FindExtra("--" + e + rest) == [e] + FindExtra(rest)
  {
    var s := "--" + e + rest;
    LazyEndOf(e, rest, 3);
    assert s[2..2 + |e|] == e;
    assert s[2 + |e|..] == rest;
  }

  /** Extras written with `--` in front of each read back as written. */
  lemma {:induction false} FindExtraOfDashes(extras: seq<string>)
    requires forall p :: 0 <= p < |extras| ==> Clean(extras[p])
    ensures FindExtra(Dashes(extras)) == extras
  {
    if extras != [] {
      var rest := Dashes(extras[1..]);
      FindExtraOfDashes(extras[1..]);
      assert extras[1..] != [] ==> rest == "--" + extras[1] + Dashes(extras[2..]);
      ExtraStep(extras[0], rest);
      assert [extras[0]] + extras[1..] == extras;
    }
  }

  // ---------------------------------------------------------------------
  // QueryTermSimilar
  // ---------------------------------------------------------------------

  /** A query term as the multi-field parser hands it over: its status
      (`''`, `'+'` or `'-'`), user field, Sphinx field and text. */
  datatype QueryTerm = QueryTerm(status: string, userField: string, sphField: string, term: string)

  /** `QueryTermSimilar`: a term of the `similar` field with its item id
      and extras. */
  datatype SimilarTerm = SimilarTerm(status: string, sphField: string, term: string,
                                     itemId: Digits, extra: seq<string>)

  /** `NoItemId`: the search for an item id failed and `.group` raised;
      `NotParsed`: a `similar` term that is not a `QueryTermSimilar` has no
      `item_id`. */
  datatype SphinxError = NoItemId | NotParsed

  /** `QueryTermSimilar(status, term)`; `sphField` is the Sphinx field the
      multi-field query gives the `similar` field. */
  function NewSimilarTerm(status: string, term: string, sphField: string): Result<SimilarTerm, SphinxError>
  {
    match SearchItemId(term)
    case None => Failure(NoItemId)
    case Some(d) => Success(SimilarTerm(status, sphField, term, d, FindExtra(term)))
  }

  /** The two statuses that include a term in the query. */
  predicate Included(status: string)
  {
    status == "" || status == "+"
  }

  /** `uniq`: `(@<field> <item id>)` for an included term, `''` otherwise. */
  function Uniq(t: SimilarTerm): (r: string)
    ensures Included(t.status) ==> r == "(@" + t.sphField + " " + t.itemId + ")"
    ensures !Included(t.status) ==> r == ""
  {
    if Included(t.status) then "(@" + t.sphField + " " + t.itemId + ")" else ""
  }

  /** `sphinx`: a similar term adds nothing to the Sphinx query text. */
  function Sphinx(t: SimilarTerm): (r: string)
    ensures r == []
  {
    ""
  }

  /** `__hash__`: the hash of `(user_field, item_id)`. */
  function HashKey(t: SimilarTerm): (string, string)
  {
    ("similar", t.itemId)
  }

  /** The text of a term for the item `id` with `extras`. */
  function Render(id: nat, extras: seq<string>): string
  {
    ShowNat(id) + Dashes(extras)
  }

  /** Parsing the text of a term gives back its item id and its extras. */
  lemma ParseRender(status: string, sphField: string, id: nat, extras: seq<string>)
    requires forall p :: 0 <= p < |extras| ==> Clean(extras[p])
    ensures var r := NewSimilarTerm(status, Render(id, extras), sphField);
            && r.Success? && r.value.itemId == ShowNat(id) && r.value.extra == extras
            && r.value.status == status && Value(r.value.itemId) == id
  {
    var s := Render(id, extras);
    SearchIsFirstDigitRun(s);
    assert FirstDigit(s) == Some(0);
    assert s[0..] == s;
    assert extras != [] ==> Dashes(extras)[0] == '-';
    DigitRunOf(ShowNat(id), Dashes(extras));
    assert '-' !in ShowNat(id) by {
      forall k | 0 <= k < |ShowNat(id)| ensures ShowNat(id)[k] != '-' {
        assert IsDigit(ShowNat(id)[k]);
      }
    }
    NoDashFindExtra(ShowNat(id), Dashes(extras));
    FindExtraOfDashes(extras);
    ValueOfShowNat(id);
  }

  /** `1234--"Machine Learning"` has the item id `1234` and the one extra
      `"Machine Learning"`. */
  lemma MachineLearningExample(term: string, extra: string)
    requires term == "1234--\"Machine Learning\"" && extra == "\"Machine Learning\""
    ensures var r := NewSimilarTerm("", term, "similar");
            r.Success? && r.value.itemId == "1234" && r.value.extra == [extra]
  {
    RenderOf1234(extra);
    CleanTitle();
    TitleTerm(term, extra);
    ParseRender("", "similar", 1234, [extra]);
  }

  lemma TitleTerm(term: string, extra: string)
    requires term == "1234--\"Machine Learning\"" && extra == "\"Machine Learning\""
    ensures term == "1234--" + extra
  {
  }

  lemma CleanTitle()
    ensures Clean("\"Machine Learning\"")
  {
  }

  lemma RenderOf1234(e: string)
    ensures ShowNat(1234) == "1234"
    ensures Render(1234, [e]) == "1234--" + e
  {
    assert ShowNat(1) == "1" && ShowNat(12) == "12" && ShowNat(123) == "123";
    assert Dashes([e]) == "--" + e + "";
  }

  /** A term with no digit cannot be made: the search for its id fails. */
  lemma NoDigitNoTerm(status: string, term: string, sphField: string)
    requires forall i :: 0 <= i < |term| ==> !IsDigit(term[i])
    ensures NewSimilarTerm(status, term, sphField) == Failure(NoItemId)
  {
    ItemIdPresence(term);
  }

  /** The hash ignores the extras and the status: terms for the same
      rendered id hash alike. */
  lemma HashIgnoresExtras(s1: string, s2: string, f1: string, f2: string, id: nat,
                          e1: seq<string>, e2: seq<string>)
    requires forall p :: 0 <= p < |e1| ==> Clean(e1[p])
    requires forall p :: 0 <= p < |e2| ==> Clean(e2[p])
    ensures NewSimilarTerm(s1, Render(id, e1), f1).Success?
    ensures NewSimilarTerm(s2, Render(id, e2), f2).Success?
    ensures HashKey(NewSimilarTerm(s1, Render(id, e1), f1).value)
            == HashKey(NewSimilarTerm(s2, Render(id, e2), f2).value)
  {
    ParseRender(s1, f1, id, e1);
    ParseRender(s2, f2, id, e2);
  }

  /** The hash is taken on the digits: `012` and `12` hash apart although
      they name the same integer id. */
  lemma PaddedIdsHashApart()
    ensures NewSimilarTerm("", "012", "similar").Success?
    ensures NewSimilarTerm("", "12", "similar").Success?
    ensures HashKey(NewSimilarTerm("", "012", "similar").value) != HashKey(NewSimilarTerm("", "12", "similar").value)
    ensures Value(NewSimilarTerm("", "012", "similar").value.itemId) == Value(NewSimilarTerm("", "12", "similar").value.itemId)
  {
    SearchIsFirstDigitRun("012");
    SearchIsFirstDigitRun("12");
    assert FirstDigit("012") == Some(0) && FirstDigit("12") == Some(0);
    assert "012"[0..] == "012" + "" && "12"[0..] == "12" + "";
    DigitRunOf("012", "");
    DigitRunOf("12", "");
    LeadingZero("12");
    assert "0" + "12" == "012";
  }

  // ---------------------------------------------------------------------
  // QuerySimilar
  // ---------------------------------------------------------------------

  /** A term of a multi-field query: one as parsed, or a similar term. */
  datatype Term = Plain(qt: QueryTerm) | Similar(st: SimilarTerm)

  /** The terms were added with `AddQueryTerm`: every `similar` term is a
      `QueryTermSimilar`. */
  predicate Built(query: seq<Term>)
  {
    forall p :: 0 <= p < |query| ==> query[p].Plain? ==> query[p].qt.userField != "similar"
  }

  /** `AddQueryTerm(query_term)`: a `similar` term becomes a
      `QueryTermSimilar`, which fails when the term has no digit; any other
      term is added as it is. The query keeps its terms in the order they
      were added. */
  function AddQueryTerm(query: seq<Term>, qt: QueryTerm): (r: Result<seq<Term>, SphinxError>)
  {
    if qt.userField == "similar" then
      match NewSimilarTerm(qt.status, qt.term, qt.sphField)
      case Failure(e) => Failure(e)
      case Success(st) => Success(query + [Similar(st)])
    else Success(query + [Plain(qt)])
  }

  /** Adding a term keeps the query built; a term of another field is
      appended unchanged; a `similar` one fails exactly when it holds no
      digit and is otherwise appended as a similar term of the same status
      and text. */
  lemma AddQueryTermFacts(query: seq<Term>, qt: QueryTerm)
    requires Built(query)
    ensures var r := AddQueryTerm(query, qt);
            && (r.Success? ==> Built(r.value) && |r.value| == |query| + 1 && r.value[..|query|] == query)
            && (qt.userField != "similar" ==> r == Success(query + [Plain(qt)]))
            && (qt.userField == "similar" ==>
                  && (r.Failure? <==> forall i :: 0 <= i < |qt.term| ==> !IsDigit(qt.term[i]))
                  && (r.Success? ==> var last := r.value[|query|];
                        last.Similar? && last.st.status == qt.status && last.st.term == qt.term))
  {
    ItemIdPresence(qt.term);
    var r := AddQueryTerm(query, qt);
    if r.Success? {
      assert r.value[..|query|] == query;
    }
  }

  /** The ids one term contributes to `GetItemIds`. */
  function IdsOf(t: Term): seq<nat>
  {
    if t.Similar? && Included(t.st.status) then [Value(t.st.itemId)] else []
  }

  /** `GetItemIds()`: `int(item_id)` of every included `similar` term, in
      query order. A `similar` term that is not a `QueryTermSimilar` has no
      item id. */
  function GetItemIds(query: seq<Term>): (r: Result<seq<nat>, SphinxError>)
    ensures Built(query) ==> r.Success? && |r.value| <= |query|
  {
    if query == [] then Success([])
    else
      var rest := GetItemIds(query[1..]);
      match query[0]
      case Similar(st) =>
        if Included(st.status) && rest.Success? then Success([Value(st.itemId)] + rest.value) else rest
      case Plain(qt) =>
        if qt.userField == "similar" && Included(qt.status) then Failure(NotParsed) else rest
  }

  lemma GetItemIdsCons(t: Term, query: seq<Term>)
    requires Built([t] + query)
    ensures Built(query)
    ensures GetItemIds([t] + query) == Success(IdsOf(t) + GetItemIds(query).value)
  {
    assert ([t] + query)[0] == t;
    assert ([t] + query)[1..] == query;
    assert forall p :: 0 <= p < |query| ==> query[p] == ([t] + query)[p + 1];
    assert [] + GetItemIds(query).value == GetItemIds(query).value;
  }

  /** The ids of a query built by adding one more term. */
  lemma {:induction false} GetItemIdsSnoc(query: seq<Term>, t: Term)
    requires Built(query + [t])
    ensures Built(query)
    ensures GetItemIds(query + [t]) == Success(GetItemIds(query).value + IdsOf(t))
  {
    assert forall p :: 0 <= p < |query| ==> query[p] == (query + [t])[p];
    if query == [] {
      assert [] + [t] == [t] + [];
      GetItemIdsCons(t, []);
      assert [] + IdsOf(t) == IdsOf(t) + [];
    } else {
      assert query + [t] == [query[0]] + (query[1..] + [t]);
      assert query == [query[0]] + query[1..];
      GetItemIdsCons(query[0], query[1..] + [t]);
      GetItemIdsSnoc(query[1..], t);
      GetItemIdsCons(query[0], query[1..]);
      var a, b := IdsOf(query[0]), GetItemIds(query[1..]).value;
      assert a + (b + IdsOf(t)) == (a + b) + IdsOf(t);
    }
  }

  /** Adding the term rendered for `id` with an included status adds `id`
      to the item ids; an excluded status or another field adds none. */
  lemma AddTermIds(query: seq<Term>, qt: QueryTerm, id: nat, extras: seq<string>)
    requires Built(query)
    requires qt.term == Render(id, extras)
    requires forall p :: 0 <= p < |extras| ==> Clean(extras[p])
    ensures AddQueryTerm(query, qt).Success?
    ensures GetItemIds(AddQueryTerm(query, qt).value).value
            == GetItemIds(query).value + (if qt.userField == "similar" && Included(qt.status) then [id] else [])
  {
    ParseRender(qt.status, qt.sphField, id, extras);
    AddQueryTermFacts(query, qt);
    var q' := AddQueryTerm(query, qt).value;
    assert q' == query + [q'[|query|]];
    GetItemIdsSnoc(query, q'[|query|]);
  }

  /** An included term rendered for `id` has the `uniq` `(@<field> id)`. */
  lemma UniqOfRendered(status: string, sphField: string, id: nat, extras: seq<string>)
    requires forall p :: 0 <= p < |extras| ==> Clean(extras[p])
    requires Included(status)
    ensures NewSimilarTerm(status, Render(id, extras), sphField).Success?
    ensures Uniq(NewSimilarTerm(status, Render(id, extras), sphField).value)
            == "(@" + sphField + " " + ShowNat(id) + ")"
  {
    ParseRender(status, sphField, id, extras);
  }
}
