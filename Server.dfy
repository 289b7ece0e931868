/** `tools/server.py`: how the request handler reads the item ids out of
    the request path and answers with the result of a fresh query. The
    HTTP server loop, the JSON encoding of the result and the option
    parsing are not part of this model. */
module Server {
  import opened Common
  import opened Decimal
  import Client
  import BayesianSets

  // ---------------------------------------------------------------------
  // p_url.findall(path)
  // ---------------------------------------------------------------------

  /** `re.compile('similar=(\d+)').findall(s)`: scanning from the left,
      every `similar=` directly followed by a digit yields the longest run
      of digits after it, and the scan goes on after that run; anything
      else moves the scan one character on. */
  function Findall(s: string): (r: seq<string>)
    ensures forall p :: 0 <= p < |r| ==> r[p] != [] && AllDigits(r[p])
    decreases |s|
  {
    if |s| > |Client.Marker| && Client.StartsWithMarker(s) && IsDigit(s[|Client.Marker|]) then
      var d := DigitRun(s[|Client.Marker|..]);
      [d] + Findall(s[|Client.Marker| + |d|..])
    else if s == [] then []
    else Findall(s[1..])
  }

  /** `map(int, p_url.findall(path))`. */
  function ExtractIds(path: string): (r: seq<nat>)
    ensures |r| == |Findall(path)|
    ensures forall p :: 0 <= p < |r| ==> r[p] == Value(Findall(path)[p])
  {
    var f := Findall(path);
    seq(|f|, p requires 0 <= p < |f| => Value(f[p]))
  }

  /** No match starts in a quiet prefix. */
  lemma {:induction false} QuietFindall(p: string, s: string)
    requires Client.Quiet(p)
    ensures Findall(p + s) == Findall(s)
  {
    if p != [] {
      assert !Client.StartsWithMarker(p + s) by {
        if p[0] == 's' {
          assert (p + s)[1] == p[1] != Client.Marker[1];
        } else {
          assert (p + s)[0] != Client.Marker[0];
        }
      }
      assert (p + s)[1..] == p[1..] + s;
      QuietFindall(p[1..], s);
    } else {
      assert p + s == s;
    }
  }

  /** `similar=` followed by digits yields those digits when no digit
      follows them. */
  lemma MarkerFindall(d: string, rest: string)
    requires AllDigits(d) && d != []
    requires rest == [] || !IsDigit(rest[0])
    ensures Findall(Client.Marker + d + rest) == [d] + Findall(rest)
  {
    var s := Client.Marker + d + rest;
    assert s[..|Client.Marker|] == Client.Marker;
    assert s[|Client.Marker|..] == d + rest;
    DigitRunOf(d, rest);
    assert s[|Client.Marker| + |d|..] == rest;
  }

  /** `similar=` not followed by a digit yields nothing. */
  lemma MarkerWithoutDigit(rest: string)
    requires rest == [] || !IsDigit(rest[0])
    ensures Findall(Client.Marker + rest) == Findall(rest)
  {
    var s := Client.Marker + rest;
    assert s[1..] == "imilar=" + rest;
    assert 's' !in "imilar=";
    QuietFindall("imilar=", rest);
  }

  /** Leading zeros collapse: `similar=007` gives the id 7. */
  lemma LeadingZerosCollapse()
    ensures ExtractIds("/?similar=007") == [7]
  {
    FindallOf007();
    ValueOf007();
  }

  lemma FindallOf007()
    ensures Findall("/?similar=007") == ["007"]
  {
    assert "/?similar=007" == "/?" + (Client.Marker + "007" + "");
    assert 's' !in "/?";
    QuietFindall("/?", Client.Marker + "007" + "");
    MarkerFindall("007", "");
  }

  lemma ValueOf007()
    ensures Value("007") == 7
  {
    LeadingZero("07");
    LeadingZero("7");
    assert "0" + "07" == "007" && "0" + "7" == "07";
    assert "7"[..0] == [];
  }

  /** A path in which no `s` is followed by an `i` holds no id. */
  lemma QuietPathHasNoIds(path: string)
    requires Client.Quiet(path)
    ensures ExtractIds(path) == []
  {
    QuietFindall(path, "");
    assert path + "" == path;
  }

  // ---------------------------------------------------------------------
  // Round trip with the client
  // ---------------------------------------------------------------------

  /** The non-negative entries of `ids`, in order. */
  function NonNegative(ids: seq<int>): (r: seq<nat>)
    ensures |r| <= |ids|
  {
    if ids == [] then []
    else (if ids[0] >= 0 then [ids[0] as nat] else []) + NonNegative(ids[1..])
  }

  function Rendered(ns: seq<nat>): seq<string>
  {
    seq(|ns|, p requires 0 <= p < |ns| => ShowNat(ns[p]))
  }

  /** One `similar=<id>` term followed by nothing or by `&`: a
      non-negative id reads back as its digits; a negative one, whose
      rendering starts with `-`, reads back as nothing. */
  lemma TermFindall(id: int, rest: string)
    requires rest == [] || rest[0] == '&'
    ensures Findall(Client.Term(id) + rest) == (if id >= 0 then [ShowNat(id)] else []) + Findall(rest)
  {
    if id >= 0 {
      assert Client.Term(id) + rest == Client.Marker + ShowNat(id) + rest;
      MarkerFindall(ShowNat(id), rest);
    } else {
      var t := ShowNat(-id) + rest;
      assert Client.Term(id) + rest == Client.Marker + ("-" + t);
      MarkerWithoutDigit("-" + t);
      Client.ShowIsQuiet(-id);
      assert 's' !in "-";
      QuietFindall("-", t);
      QuietFindall(ShowNat(-id), rest);
    }
  }

  lemma {:induction false} JoinFindall(ids: seq<int>)
    ensures Findall(Client.Join("&", Client.Terms(ids))) == Rendered(NonNegative(ids))
  {
    if ids == [] {
    } else {
      var rest := Client.Join("&", Client.Terms(ids[1..]));
      if |ids| == 1 {
        Client.JoinOne(ids);
        TermFindall(ids[0], "");
        assert ids[1..] == [];
      } else {
        JoinFindall(ids[1..]);
        Client.JoinCons(ids);
        TermFindall(ids[0], "&" + rest);
        assert 's' !in "&";
        QuietFindall("&", rest);
      }
      RenderedConcat(if ids[0] >= 0 then [ids[0] as nat] else [], NonNegative(ids[1..]));
    }
  }

  lemma RenderedConcat(a: seq<nat>, b: seq<nat>)
    ensures Rendered(a + b) == Rendered(a) + Rendered(b)
  {
  }

  /** Reading the rendered numbers back as integers gives the numbers. */
  lemma ValuesOfRendered(ns: seq<nat>, f: seq<string>)
    requires f == Rendered(ns)
    ensures forall p :: 0 <= p < |f| ==> AllDigits(f[p]) && Value(f[p]) == ns[p]
  {
    forall p | 0 <= p < |f| ensures AllDigits(f[p]) && Value(f[p]) == ns[p] {
      ValueOfShowNat(ns[p]);
    }
  }

  /** The server reads back, in order, exactly the non-negative ids the
      client put in its URL, whatever the port. */
  lemma ClientServerRoundTrip(port: int, ids: seq<int>)
    ensures ExtractIds(Client.QueryUrl(Client.NewClient(port), ids)) == NonNegative(ids)
  {
    var url := Client.QueryUrl(Client.NewClient(port), ids);
    Client.BaseIsQuiet(port);
    QuietFindall(Client.NewClient(port).baseUrl, Client.Join("&", Client.Terms(ids)));
    JoinFindall(ids);
    ValuesOfRendered(NonNegative(ids), Findall(url));
  }

  /** For non-negative ids the round trip is exact. */
  lemma ClientServerRoundTripExact(port: int, ids: seq<nat>)
    ensures ExtractIds(Client.QueryUrl(Client.NewClient(port), ids)) == ids
  {
    ClientServerRoundTrip(port, ids);
    AllNonNegative(ids);
  }

  lemma {:induction false} AllNonNegative(ids: seq<nat>)
    ensures NonNegative(ids) == ids
  {
    if ids != [] {
      AllNonNegative(ids[1..]);
      assert [ids[0]] + ids[1..] == ids;
    }
  }

  // ---------------------------------------------------------------------
  // do_GET
  // ---------------------------------------------------------------------

  /** What the handler writes: the status, the content type, and the body
      when there is one. */
  datatype Reply = Reply(status: int, contentType: string, body: Option<string>)

  /** `do_query(item_ids)`: a fresh `QueryHandler` on the served index
      queried for at most `max_items` results. */
  function DoQuery(ci: BayesianSets.ComputedIndex, ids: seq<int>, maxItems: int,
                   sample: seq<real> -> seq<real>, log: real -> real, elapsed: real): BayesianSets.ResultSet
    requires BayesianSets.Shaped(ci)
  {
    BayesianSets.QueryStep(ci, BayesianSets.NewHandler, BayesianSets.Many(ids), maxItems, sample, log, elapsed).1
  }

  /** `do_GET()`: the headers are always sent; a query runs, and its
      result set is written (`dumps` stands for `ResultSet.dumps`), only
      when the path holds an id. */
  function DoGet(ci: BayesianSets.ComputedIndex, path: string, maxItems: int, sample: seq<real> -> seq<real>,
                 log: real -> real, elapsed: real, dumps: BayesianSets.ResultSet -> string): Reply
    requires BayesianSets.Shaped(ci)
  {
    var ids := ExtractIds(path);
    Reply(200, "text/html; charset=utf-8",
          if ids == [] then None else Some(dumps(DoQuery(ci, ids, maxItems, sample, log, elapsed))))
  }

  /** A URL built by the client with no non-negative id gets the headers
      and no body; otherwise the body is the result of querying those ids. */
  lemma ServeClientQuery(ci: BayesianSets.ComputedIndex, port: int, ids: seq<int>, maxItems: int,
                         sample: seq<real> -> seq<real>, log: real -> real, elapsed: real,
                         dumps: BayesianSets.ResultSet -> string)
    requires BayesianSets.Shaped(ci)
    ensures var reply := DoGet(ci, Client.QueryUrl(Client.NewClient(port), ids), maxItems, sample, log, elapsed, dumps);
            && reply.status == 200 && reply.contentType == "text/html; charset=utf-8"
            && (reply.body.None? <==> NonNegative(ids) == [])
            && (reply.body.Some? ==> reply.body.value == dumps(DoQuery(ci, NonNegative(ids), maxItems, sample, log, elapsed)))
  {
    ClientServerRoundTrip(port, ids);
  }

  /** When no extracted id is in the index, the body is the empty result
      set for those ids. */
  lemma UnknownIdsGetEmptyResult(ci: BayesianSets.ComputedIndex, path: string, maxItems: int,
                                 sample: seq<real> -> seq<real>, log: real -> real, elapsed: real,
                                 dumps: BayesianSets.ResultSet -> string)
    requires BayesianSets.Shaped(ci)
    requires ExtractIds(path) != []
    requires forall p :: 0 <= p < |ExtractIds(path)| ==> ExtractIds(path)[p] !in ci.itemIdToIndex
    ensures DoGet(ci, path, maxItems, sample, log, elapsed, dumps).body
            == Some(dumps(BayesianSets.ResultSet(0.0, 0, ExtractIds(path), [], [])))
  {
    BayesianSets.InvalidQueryIsEmpty(ci, BayesianSets.NewHandler, BayesianSets.Many(ExtractIds(path)),
                                     maxItems, sample, log, elapsed);
  }

  // ---------------------------------------------------------------------
  // Configuration defaults
  // ---------------------------------------------------------------------

  /** The port the server listens on when none is configured; the client's
      `Client.DefaultPort` is a separate setting of the other program. */
  const DefaultServerPort: int := 8000
  const DefaultMaxItems: int := 10000

  /** `config.get('server_port', 8000)`. */
  function ServerPort(config: map<string, int>): int
  {
    if "server_port" in config then config["server_port"] else DefaultServerPort
  }

  /** The options `main` builds: the defaults, with the port of a `-p`
      option when one is given. */
  function CliOptions(port: Option<int>): map<string, int>
  {
    var defaults := map["server_port" := DefaultServerPort, "max_items" := DefaultMaxItems];
    if port.Some? then defaults["server_port" := port.value] else defaults
  }

  /** The server port is the `-p` value or 8000, and `max_items` is 10000;
      a configuration without a port gives 8000. */
  lemma ConfigDefaults(port: Option<int>, config: map<string, int>)
    ensures ServerPort(CliOptions(port)) == if port.Some? then port.value else 8000
    ensures "max_items" in CliOptions(port) && CliOptions(port)["max_items"] == 10000
    ensures "server_port" !in config ==> ServerPort(config) == 8000
  {
  }
}
