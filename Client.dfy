/** `tools/client.py`: the URL a `SimilaritySearchClient` sends to the
    similarity server. The HTTP fetch and the decoding of the answer are
    not part of this model. */
module Client {
  import opened Decimal

  /** The key of each query parameter. */
  const Marker: string := "similar="

  /** The port `main` passes when no `-p` option is given, and the default
      of `SimilaritySearchClient(server_port)`. */
  const DefaultPort: int := 8000

  /** `SimilaritySearchClient(server_port)`: it keeps only its base URL. */
  datatype SimilaritySearchClient = SimilaritySearchClient(baseUrl: string)

  function NewClient(port: int): SimilaritySearchClient
  {
    SimilaritySearchClient("http://localhost:" + Show(port) + "/?")
  }

  /** `sep.join(parts)`. */
  function Join(sep: string, parts: seq<string>): string
  {
    if parts == [] then ""
    else if |parts| == 1 then parts[0]
    else parts[0] + sep + Join(sep, parts[1..])
  }

  /** `'similar=%s' % id`. */
  function Term(id: int): string
  {
    Marker + Show(id)
  }

  function Terms(ids: seq<int>): (r: seq<string>)
    ensures |r| == |ids|
    ensures forall p :: 0 <= p < |ids| ==> r[p] == Term(ids[p])
  {
    seq(|ids|, p requires 0 <= p < |ids| => Term(ids[p]))
  }

  /** The URL `query(item_ids)` fetches. */
  function QueryUrl(c: SimilaritySearchClient, ids: seq<int>): string
  {
    c.baseUrl + Join("&", Terms(ids))
  }

  // ---------------------------------------------------------------------
  // Counting the query parameters
  // ---------------------------------------------------------------------

  /** Whether `similar=` starts `s`. */
  predicate StartsWithMarker(s: string)
  {
    |s| >= |Marker| && s[..|Marker|] == Marker
  }

  /** The number of positions at which `similar=` starts. Occurrences of
      `similar=` cannot overlap, so this is also `s.count('similar=')`. */
  function MarkerCount(s: string): nat
  {
    if s == [] then 0 else (if StartsWithMarker(s) then 1 else 0) + MarkerCount(s[1..])
  }

  /** No `s` in `p` is followed by an `i`, so no `similar=` can start
      inside `p`, whatever follows it. */
  predicate Quiet(p: string)
  {
    forall i :: 0 <= i < |p| && p[i] == 's' ==> i + 1 < |p| && p[i + 1] != 'i'
  }

  /** A quiet prefix holds no marker. */
  lemma {:induction false} QuietCount(p: string, s: string)
    requires Quiet(p)
    ensures MarkerCount(p + s) == MarkerCount(s)
  {
    if p != [] {
      assert !StartsWithMarker(p + s) by {
        if p[0] == 's' {
          assert (p + s)[1] == p[1] != Marker[1];
        } else {
          assert (p + s)[0] != Marker[0];
        }
      }
      assert (p + s)[1..] == p[1..] + s;
      QuietCount(p[1..], s);
      assert MarkerCount(p + s) == MarkerCount(p[1..] + s);
    } else {
      assert p + s == s;
    }
  }

  /** Rendered numbers hold no `s`. */
  lemma ShowIsQuiet(i: int)
    ensures 's' !in Show(i) && Quiet(Show(i))
  {
    var s := Show(i);
    if i >= 0 {
      assert forall k :: 0 <= k < |s| ==> IsDigit(s[k]);
    } else {
      assert forall k :: 0 < k < |s| ==> s[k] == ShowNat(-i)[k - 1];
    }
  }

  lemma NoSIsQuiet(a: string)
    requires 's' !in a
    ensures Quiet(a)
  {
    forall i | 0 <= i < |a| ensures a[i] != 's' {
      assert a[i] in a;
    }
  }

  /** Quiet pieces join into a quiet string: a quiet piece never ends in
      `s`. */
  lemma QuietAppend(a: string, b: string)
    requires Quiet(a) && Quiet(b)
    ensures Quiet(a + b)
  {
    var s := a + b;
    forall i | 0 <= i < |s| && s[i] == 's' ensures i + 1 < |s| && s[i + 1] != 'i' {
      if i < |a| {
        assert a[i] == 's';
        assert s[i + 1] == a[i + 1];
      } else {
        assert b[i - |a|] == 's';
        assert s[i + 1] == b[i + 1 - |a|];
      }
    }
  }

  /** The base URL holds no marker: its only `s`, in `localhost`, is
      followed by a `t`. */
  lemma BaseIsQuiet(port: int)
    ensures Quiet(NewClient(port).baseUrl)
  {
    var host := "http://localho";
    NoSIsQuiet(host);
    var st := "st:";
    assert st[0] == 's' && st[1] == 't' && st[2] == ':';
    assert Quiet(st);
    QuietAppend(host, st);
    assert host + st == "http://localhost:";
    ShowIsQuiet(port);
    QuietAppend("http://localhost:", Show(port));
    NoSIsQuiet("/?");
    QuietAppend("http://localhost:" + Show(port), "/?");
  }

  /** A term followed by nothing or by `&` holds exactly one marker. */
  lemma TermCount(id: int, rest: string)
    ensures MarkerCount(Term(id) + rest) == 1 + MarkerCount(rest)
  {
    var s := Term(id) + rest;
    assert StartsWithMarker(s);
    ShowIsQuiet(id);
    var tail := "imilar=" + Show(id);
    assert 's' !in "imilar=";
    assert Quiet(tail);
    assert s[1..] == tail + rest;
    QuietCount(tail, rest);
  }

  /** The joined terms of one id are its term. */
  lemma JoinOne(ids: seq<int>)
    requires |ids| == 1
    ensures Join("&", Terms(ids)) == Term(ids[0]) + ""
  {
  }

  /** The joined terms of several ids: the first term, `&`, and the rest. */
  lemma JoinCons(ids: seq<int>)
    requires |ids| > 1
    ensures Join("&", Terms(ids)) == Term(ids[0]) + ("&" + Join("&", Terms(ids[1..])))
  {
    assert Terms(ids)[1..] == Terms(ids[1..]);
  }

  lemma {:induction false} JoinCount(ids: seq<int>)
    ensures MarkerCount(Join("&", Terms(ids))) == |ids|
  {
    if |ids| == 1 {
      JoinOne(ids);
      TermCount(ids[0], "");
    } else if |ids| > 1 {
      JoinCount(ids[1..]);
      JoinCons(ids);
      var rest := Join("&", Terms(ids[1..]));
      TermCount(ids[0], "&" + rest);
      QuietCount("&", rest);
    }
  }

  /** The query URL holds exactly one `similar=` per id. */
  lemma QueryUrlCount(port: int, ids: seq<int>)
    ensures MarkerCount(QueryUrl(NewClient(port), ids)) == |ids|
  {
    BaseIsQuiet(port);
    QuietCount(NewClient(port).baseUrl, Join("&", Terms(ids)));
    JoinCount(ids);
  }

  /** With no ids the query URL is the base URL. */
  lemma EmptyQueryIsBase(c: SimilaritySearchClient)
    ensures QueryUrl(c, []) == c.baseUrl
  {
  }

  /** The default client talks to `http://localhost:8000/?`. */
  lemma DefaultBaseUrl()
    ensures NewClient(DefaultPort).baseUrl == "http://localhost:8000/?"
  {
    assert ShowNat(8) == "8";
    assert ShowNat(80) == "80";
    assert ShowNat(800) == "800";
    assert ShowNat(8000) == "8000";
  }
}
