// `get_trades` / `__get_trades` as pure functions of the server's scripted
// responses: the query parameters built from the filters, the page loop and
// the dubious-tag warning.

module TradeQuery {
  import opened Wire
  import opened TradeFilters

  /** The most trades the service returns per page. */
  const PageLimit := 100

  /** The filters of `get_trades`; dates come already formatted as MM/DD/YYYY. */
  datatype TradeFilter = TradeFilter(
    symbol: JValue,           // JNull when not given
    tagExpr: Option<string>,
    side: Option<string>,
    duration: Option<string>,
    startDate: Option<string>,
    endDate: Option<string>
  )

  /** The query parameters before paging, or the ValueError of a bad filter;
      the side is checked before the duration. */
  function FilterParams(f: TradeFilter): (r: Outcome<Obj>)
    ensures r.Raise? <==> ((f.side.Some? && NormalizeSide(f.side.value).Raise?)
                           || (f.duration.Some? && NormalizeDuration(f.duration.value).Raise?))
    ensures f.side.Some? && NormalizeSide(f.side.value).Raise? ==> r == Raise(ValueError(BadSide))
    ensures r.Raise? && !(f.side.Some? && NormalizeSide(f.side.value).Raise?) ==> r == Raise(ValueError(BadDuration))
  {
    var data: Obj := map[];
    var data := if f.symbol != JNull then data["symbol" := f.symbol] else data;
    var data := if f.tagExpr.Some? then data["tag" := JString(f.tagExpr.value)] else data;
    var side := if f.side.Some? then NormalizeSide(f.side.value) else Return("");
    var duration := if f.duration.Some? then NormalizeDuration(f.duration.value) else Return("");
    if side.Raise? then Raise(side.exc)
    else if duration.Raise? then Raise(duration.exc)
    else
      var data := if f.side.Some? then data["side" := JString(side.value)] else data;
      var data := if f.duration.Some? then data["duration" := JString(duration.value)] else data;
      var data := if f.startDate.Some? then data["startdate" := JString(f.startDate.value)] else data;
      if f.endDate.Some? then Return(data["enddate" := JString(f.endDate.value)]) else Return(data)
  }

  /** Each filter given appears under its own key, and only then; the side
      and duration are sent as their one-letter codes; paging is left to
      the page loop. */
  lemma FilterParamsKeys(f: TradeFilter)
    requires FilterParams(f).Return?
    ensures var params := FilterParams(f).value;
      && "page" !in params && "count" !in params
      && ("symbol" in params <==> f.symbol != JNull)
      && ("tag" in params <==> f.tagExpr.Some?)
      && ("side" in params <==> f.side.Some?)
      && ("duration" in params <==> f.duration.Some?)
      && ("startdate" in params <==> f.startDate.Some?)
      && ("enddate" in params <==> f.endDate.Some?)
  {
  }

  /** The side and duration are sent as their one-letter codes, the tag
      expression and dates as given. */
  lemma FilterParamsValues(f: TradeFilter)
    requires FilterParams(f).Return?
    ensures var params := FilterParams(f).value;
      && (f.side.Some? ==> params["side"] == JString(if MatchesWord(f.side.value, "long") then "L" else "S"))
      && (f.duration.Some? ==> params["duration"] == JString(if MatchesWord(f.duration.value, "intraday") then "I" else "M"))
      && (f.tagExpr.Some? ==> params["tag"] == JString(f.tagExpr.value))
      && (f.symbol != JNull ==> params["symbol"] == f.symbol)
      && (f.startDate.Some? ==> params["startdate"] == JString(f.startDate.value))
      && (f.endDate.Some? ==> params["enddate"] == JString(f.endDate.value))
  {
    FilterParamsKeys(f);
  }

  /** `total_pages`: one page up to 100 trades, else the integer ceiling of `max_trades / 100`. */
  function TotalPages(maxTrades: int): (n: int)
    ensures n >= 1
    ensures maxTrades <= PageLimit ==> n == 1
    ensures maxTrades > PageLimit ==> (n - 1) * PageLimit < maxTrades <= n * PageLimit
  {
    if maxTrades > PageLimit then (maxTrades + PageLimit - 1) / PageLimit else 1
  }

  /** The `count` asked for when `collected` trades are in hand. */
  function PageSize(maxTrades: int, collected: int): (count: int)
    ensures count <= PageLimit && count <= maxTrades - collected
    ensures count == PageLimit || count == maxTrades - collected
  {
    if maxTrades - collected >= PageLimit then PageLimit else maxTrades - collected
  }

  /** The parameters of the request for one page. */
  function PageQuery(base: Obj, page: int, count: int): Obj {
    base["page" := JInt(page)]["count" := JInt(count)]
  }

  /** The characters of a string, as `list.extend` takes them from a `str`. */
  function Chars(s: string): (items: seq<JValue>)
    ensures |items| == |s|
    ensures forall i :: 0 <= i < |s| ==> items[i] == JString([s[i]])
  {
    if s == [] then [] else [JString([s[0]])] + Chars(s[1..])
  }

  /** `__get_trades` on the response to its GET, followed by what
      `get_trades` makes of it: None on an HTTP error, on a reply without
      `trades` or with a null `trades`; the items of a list, the characters
      of a string; an empty object has length 0 and ends the loop like an
      empty list; `len` fails on a number or a boolean. A non-empty object
      is modelled as failing too (its keys' order is not kept). */
  function PageOf(r: Response): (got: Outcome<Option<seq<JValue>>>)
    ensures got == Return(None) <==>
              r.code != 200 || (r.body.Parsed? && ("trades" !in r.body.obj || r.body.obj["trades"] == JNull))
    ensures got.Return? && got.value.Some? ==>
              && r.code == 200 && r.body.Parsed? && "trades" in r.body.obj
              && (r.body.obj["trades"] == JArray(got.value.value)
                  || (r.body.obj["trades"].JString? && got.value.value == Chars(r.body.obj["trades"].s))
                  || (r.body.obj["trades"] == JObject(map[]) && got.value.value == []))
    ensures r.code == 200 && r.body.Parsed? && "trades" in r.body.obj && r.body.obj["trades"].JArray?
            ==> got == Return(Some(r.body.obj["trades"].items))
    ensures r.code == 200 && r.body.Parsed? && "trades" in r.body.obj && r.body.obj["trades"].JString?
            ==> got == Return(Some(Chars(r.body.obj["trades"].s)))
    ensures r.code == 200 && r.body.Parsed? && "trades" in r.body.obj && r.body.obj["trades"] == JObject(map[])
            ==> got == Return(Some([]))
    ensures got == Raise(JsonDecodeError) <==> r.code == 200 && r.body.NotJson?
    ensures got == Raise(TypeError) <==>
              r.code == 200 && r.body.Parsed? && "trades" in r.body.obj
              && (r.body.obj["trades"].JBool? || r.body.obj["trades"].JInt?
                  || (r.body.obj["trades"].JObject? && r.body.obj["trades"].fields != map[]))
    ensures got.Raise? ==> got.exc in {JsonDecodeError, TypeError}
  {
    if r.code == 200 then
      match r.body
      case NotJson => Raise(JsonDecodeError)
      case Parsed(result) =>
        if "trades" !in result then Return(None)
        else
          match result["trades"]
          case JNull => Return(None)
          case JArray(items) => Return(Some(items))
          case JString(text) => Return(Some(Chars(text)))
          case JObject(fields) => if fields == map[] then Return(Some([])) else Raise(TypeError)
          case _ => Raise(TypeError)
    else Return(None)
  }

  /** The trades of a successful page, else nothing. */
  function PageItems(r: Response): seq<JValue> {
    var got := PageOf(r);
    if got.Return? && got.value.Some? then got.value.value else []
  }

  /** A page with at least one trade: the loop goes on after it. */
  predicate NonEmptyPage(r: Response) {
    var got := PageOf(r);
    got.Return? && got.value.Some? && got.value.value != []
  }

  /** The result of the page loop when it stops at reply `r`, a reply
      without trades: an error or a missing list gives what `PageOf` gives,
      an empty list ends the listing with the trades in hand. */
  function PagesEnd(r: Response, collected: seq<JValue>): Outcome<Option<seq<JValue>>> {
    match PageOf(r)
    case Raise(e) => Raise(e)
    case Return(None) => Return(None)
    case Return(Some(_)) => Return(Some(collected))
  }

  /** The page loop from page `page` on, with `collected` trades in hand. */
  function PagesSpec(script: nat -> Response, next: nat, base: Obj, maxTrades: int,
                     page: int, lastPage: int, collected: seq<JValue>): (run: Run<Outcome<Option<seq<JValue>>>>)
    ensures run.result.Return? && run.result.value.Some? ==> collected <= run.result.value.value
    decreases Max0(lastPage - page + 1)
  {
    if page > lastPage then Run(Return(Some(collected)), [])
    else
      var sent := HttpGet(Trades, PageQuery(base, page, PageSize(maxTrades, |collected|)));
      var r := script(next);
      if NonEmptyPage(r) then
        PagesSpec(script, next + 1, base, maxTrades, page + 1, lastPage, collected + PageItems(r)).After([sent])
      else Run(PagesEnd(r, collected), [sent])
  }

  /** The page loop makes nothing but requests: one GET per page. */
  lemma {:induction false} PagesOnlyRequests(script: nat -> Response, next: nat, base: Obj, maxTrades: int,
                                             page: int, lastPage: int, collected: seq<JValue>)
    ensures var run := PagesSpec(script, next, base, maxTrades, page, lastPage, collected);
      Requests(run.events) == |run.events|
    decreases Max0(lastPage - page + 1)
  {
    if page <= lastPage {
      var sent := HttpGet(Trades, PageQuery(base, page, PageSize(maxTrades, |collected|)));
      var r := script(next);
      if NonEmptyPage(r) {
        var rest := PagesSpec(script, next + 1, base, maxTrades, page + 1, lastPage, collected + PageItems(r));
        PagesOnlyRequests(script, next + 1, base, maxTrades, page + 1, lastPage, collected + PageItems(r));
        RequestsOneThen(sent, rest.events);
      } else {
        RequestsOneThen(sent, []);
      }
    }
  }

  /** Setting the page and count again overrides the previous ones: the
      loop's `data` always holds the base filters and the latest page. */
  lemma RequeryOverrides(base: Obj, page: int, count: int, page2: int, count2: int)
    ensures PageQuery(PageQuery(base, page, count), page2, count2) == PageQuery(base, page2, count2)
  {
  }

  /** One more non-empty page, seen from the caller's side. */
  lemma PagesAdvance(script: nat -> Response, next: nat, base: Obj, maxTrades: int,
                     page: int, lastPage: int, collected: seq<JValue>, trades: seq<JValue>, earlier: seq<Event>)
    requires page <= lastPage
    requires PageOf(script(next)) == Return(Some(trades)) && trades != []
    ensures var sent := HttpGet(Trades, PageQuery(base, page, PageSize(maxTrades, |collected|)));
      PagesSpec(script, next, base, maxTrades, page, lastPage, collected).After(earlier)
      == PagesSpec(script, next + 1, base, maxTrades, page + 1, lastPage, collected + trades).After(earlier + [sent])
  {
    var sent := HttpGet(Trades, PageQuery(base, page, PageSize(maxTrades, |collected|)));
    AfterAfter(PagesSpec(script, next + 1, base, maxTrades, page + 1, lastPage, collected + trades), earlier, [sent]);
  }

  /** What `get_trades` returns, and whether it logged the dubious-tag warning. */
  datatype Listing = Listing(trades: Outcome<Option<seq<JValue>>>, warned: bool)

  function GetTradesSpec(script: nat -> Response, next: nat, f: TradeFilter, maxTrades: int): Run<Listing> {
    match FilterParams(f)
    case Raise(e) => Run(Listing(Raise(e), false), [])
    case Return(base) =>
      var pages := PagesSpec(script, next, base, maxTrades, 1, TotalPages(maxTrades), []);
      var dubious := f.tagExpr.Some? && DubiousTagExpr(f.tagExpr.value);
      Run(Listing(pages.result, dubious && pages.result == Return(Some([]))), pages.events)
  }

  // ----- Properties of the page loop

  /** The trades of `j` consecutive pages served from `script(next)` on. */
  function Gathered(script: nat -> Response, next: nat, j: nat): seq<JValue>
    decreases j
  {
    if j == 0 then [] else PageItems(script(next)) + Gathered(script, next + 1, j - 1)
  }

  /** At most one GET per page from `page` to `lastPage`. */
  lemma {:induction false} PagesBound(script: nat -> Response, next: nat, base: Obj, maxTrades: int,
                                      page: int, lastPage: int, collected: seq<JValue>)
    ensures |PagesSpec(script, next, base, maxTrades, page, lastPage, collected).events| <= Max0(lastPage - page + 1)
    decreases Max0(lastPage - page + 1)
  {
    if page <= lastPage && NonEmptyPage(script(next)) {
      var trades := PageItems(script(next));
      PagesBound(script, next + 1, base, maxTrades, page + 1, lastPage, collected + trades);
    }
  }

  /** Pages are requested in order, one GET each: the `j`-th request asks
      for page `page + j` and for min(100, max_trades - collected) trades,
      counting the trades of the pages before it. */
  lemma {:induction false} PagesRequestAt(script: nat -> Response, next: nat, base: Obj, maxTrades: int,
                                          page: int, lastPage: int, collected: seq<JValue>, j: nat)
    requires j < |PagesSpec(script, next, base, maxTrades, page, lastPage, collected).events|
    ensures PagesSpec(script, next, base, maxTrades, page, lastPage, collected).events[j]
            == HttpGet(Trades, PageQuery(base, page + j, PageSize(maxTrades, |collected| + |Gathered(script, next, j)|)))
    decreases j
  {
    if j > 0 {
      var trades := PageItems(script(next));
      var before := Gathered(script, next + 1, j - 1);
      PagesRequestAt(script, next + 1, base, maxTrades, page + 1, lastPage, collected + trades, j - 1);
      assert Gathered(script, next, j) == trades + before;
      assert |collected| + |trades + before| == |collected + trades| + |before|;
    }
  }

  /** The loop asks for another page only after a page with trades in it. */
  lemma {:induction false} PagesGoOnOnlyAfterTrades(script: nat -> Response, next: nat, base: Obj, maxTrades: int,
                                                    page: int, lastPage: int, collected: seq<JValue>)
    ensures var run := PagesSpec(script, next, base, maxTrades, page, lastPage, collected);
      forall j: nat :: j + 1 < |run.events| ==> NonEmptyPage(Reply(script, next, j))
    decreases Max0(lastPage - page + 1)
  {
    var run := PagesSpec(script, next, base, maxTrades, page, lastPage, collected);
    if page <= lastPage {
      var sent := HttpGet(Trades, PageQuery(base, page, PageSize(maxTrades, |collected|)));
      assert Reply(script, next, 0) == script(next);
      if NonEmptyPage(script(next)) {
        var trades := PageItems(script(next));
        var after := next + 1;
        var rest := PagesSpec(script, after, base, maxTrades, page + 1, lastPage, collected + trades);
        PagesGoOnOnlyAfterTrades(script, after, base, maxTrades, page + 1, lastPage, collected + trades);
        assert |run.events| == 1 + |rest.events|;
        forall j: nat | 0 < j && j + 1 < |run.events| ensures NonEmptyPage(Reply(script, next, j)) {
          assert Reply(script, next, j) == Reply(script, after, j - 1);
        }
      }
    }
  }

  /** A successful listing is the trades in hand followed by every page
      served, in order: nothing is dropped or reordered. */
  lemma {:induction false} PagesCollectAll(script: nat -> Response, next: nat, base: Obj, maxTrades: int,
                                           page: int, lastPage: int, collected: seq<JValue>)
    ensures var run := PagesSpec(script, next, base, maxTrades, page, lastPage, collected);
      run.result.Return? && run.result.value.Some? ==>
        run.result.value.value == collected + Gathered(script, next, |run.events|)
    decreases Max0(lastPage - page + 1)
  {
    var run := PagesSpec(script, next, base, maxTrades, page, lastPage, collected);
    if page <= lastPage {
      var trades := PageItems(script(next));
      if NonEmptyPage(script(next)) {
        var after := next + 1;
        var rest := PagesSpec(script, after, base, maxTrades, page + 1, lastPage, collected + trades);
        PagesCollectAll(script, after, base, maxTrades, page + 1, lastPage, collected + trades);
        assert Gathered(script, next, |run.events|) == trades + Gathered(script, after, |rest.events|);
      } else {
        assert Gathered(script, next, 1) == trades + Gathered(script, next + 1, 0);
      }
    }
  }

  /** All or nothing: the listing is None exactly when the last page served
      was an HTTP error or had no trades list; a partial list is never
      returned. */
  lemma {:induction false} PagesNoneOnlyAtFailure(script: nat -> Response, next: nat, base: Obj, maxTrades: int,
                                                  page: int, lastPage: int, collected: seq<JValue>)
    ensures var run := PagesSpec(script, next, base, maxTrades, page, lastPage, collected);
      run.result == Return(None) <==>
        |run.events| > 0 && PageOf(Reply(script, next, |run.events| - 1)) == Return(None)
    decreases Max0(lastPage - page + 1)
  {
    if page <= lastPage {
      assert Reply(script, next, 0) == script(next);
      if NonEmptyPage(script(next)) {
        var after := next + 1;
        var collectedNext := collected + PageItems(script(next));
        var rest := PagesSpec(script, after, base, maxTrades, page + 1, lastPage, collectedNext);
        PagesNoneOnlyAtFailure(script, after, base, maxTrades, page + 1, lastPage, collectedNext);
        if |rest.events| > 0 {
          assert Reply(script, next, |rest.events|) == Reply(script, after, |rest.events| - 1);
        }
      }
    }
  }

  /** The server honoured the `count` of request `e` in its reply `r`. */
  predicate Honours(e: Event, r: Response) {
    e.HttpGet? && "count" in e.params && e.params["count"].JInt? && |PageItems(r)| <= e.params["count"].i
  }

  /** If the server never returns more trades than asked for, the listing
      never holds more than `max_trades` trades. */
  lemma {:induction false} PagesWithinMax(script: nat -> Response, next: nat, base: Obj, maxTrades: int,
                                          page: int, lastPage: int, collected: seq<JValue>)
    requires |collected| <= Max0(maxTrades)
    requires var run := PagesSpec(script, next, base, maxTrades, page, lastPage, collected);
      forall j: nat :: j < |run.events| ==> Honours(run.events[j], Reply(script, next, j))
    ensures var run := PagesSpec(script, next, base, maxTrades, page, lastPage, collected);
      run.result.Return? && run.result.value.Some? ==> |run.result.value.value| <= Max0(maxTrades)
    decreases Max0(lastPage - page + 1)
  {
    var run := PagesSpec(script, next, base, maxTrades, page, lastPage, collected);
    if page <= lastPage {
      var count := PageSize(maxTrades, |collected|);
      var sent := HttpGet(Trades, PageQuery(base, page, count));
      assert Reply(script, next, 0) == script(next);
      if NonEmptyPage(script(next)) {
        var trades := PageItems(script(next));
        var after := next + 1;
        var rest := PagesSpec(script, after, base, maxTrades, page + 1, lastPage, collected + trades);
        assert run.events == [sent] + rest.events;
        assert Honours(run.events[0], Reply(script, next, 0));
        assert PageQuery(base, page, count)["count"] == JInt(count);
        assert |trades| <= count;
        forall j: nat | j < |rest.events| ensures Honours(rest.events[j], Reply(script, after, j)) {
          assert rest.events[j] == run.events[j + 1];
          assert Reply(script, after, j) == Reply(script, next, j + 1);
        }
        PagesWithinMax(script, after, base, maxTrades, page + 1, lastPage, collected + trades);
      }
    }
  }

  // ----- Properties of the whole listing

  /** A bad side or duration fails with ValueError before any request:
      the side's error when the side is bad, else the duration's. */
  lemma BadFilterSendsNothing(script: nat -> Response, next: nat, f: TradeFilter, maxTrades: int)
    requires FilterParams(f).Raise?
    ensures GetTradesSpec(script, next, f, maxTrades) == Run(Listing(Raise(FilterParams(f).exc), false), [])
    ensures f.side.Some? && NormalizeSide(f.side.value).Raise? ==>
              GetTradesSpec(script, next, f, maxTrades).result.trades == Raise(ValueError(BadSide))
    ensures !(f.side.Some? && NormalizeSide(f.side.value).Raise?) ==>
              GetTradesSpec(script, next, f, maxTrades).result.trades == Raise(ValueError(BadDuration))
  {
  }

  /** The listing asks for pages 1, 2, ... with at most `total_pages`
      requests; it warns only about a dubious tag expression that found
      nothing, and only when the listing succeeded. */
  lemma GetTradesShape(script: nat -> Response, next: nat, f: TradeFilter, maxTrades: int)
    requires FilterParams(f).Return?
    ensures var run := GetTradesSpec(script, next, f, maxTrades);
      && 1 <= |run.events| <= TotalPages(maxTrades)
      && (forall j: nat :: j < |run.events| ==>
            run.events[j].HttpGet? && run.events[j].endpoint == Trades
            && "page" in run.events[j].params && run.events[j].params["page"] == JInt(j + 1))
      && "count" in run.events[0].params && run.events[0].params["count"] == JInt(if maxTrades >= PageLimit then PageLimit else maxTrades)
      && (run.result.warned <==> f.tagExpr.Some? && DubiousTagExpr(f.tagExpr.value)
                                 && run.result.trades == Return(Some([])))
  {
    var base := FilterParams(f).value;
    var run := GetTradesSpec(script, next, f, maxTrades);
    PagesBound(script, next, base, maxTrades, 1, TotalPages(maxTrades), []);
    PagesRequestAt(script, next, base, maxTrades, 1, TotalPages(maxTrades), [], 0);
    assert |Gathered(script, next, 0)| == 0;
    forall j: nat | j < |run.events|
      ensures run.events[j].HttpGet? && run.events[j].endpoint == Trades
              && "page" in run.events[j].params && run.events[j].params["page"] == JInt(j + 1)
    {
      PagesRequestAt(script, next, base, maxTrades, 1, TotalPages(maxTrades), [], j);
      var c := PageSize(maxTrades, |Gathered(script, next, j)|);
      assert PageQuery(base, 1 + j, c)["page"] == JInt(1 + j);
    }
  }

  /** A server that always returns exactly the trades asked for, out of 250. */
  function FullPages(maxTrades: int, n: nat): Response {
    var size := if n < 2 then 100 else if n == 2 then 50 else 0;
    Response(200, "", Parsed(map["trades" := JArray(seq(size, _ => JNull))]))
  }

  /** `max_trades` = 250 takes three requests for 100, 100 and 50 trades. */
  lemma TwoHundredFifty(base: Obj)
    ensures var run := PagesSpec((n: nat) => FullPages(250, n), 0, base, 250, 1, TotalPages(250), []);
      && run.events == [HttpGet(Trades, PageQuery(base, 1, 100)),
                        HttpGet(Trades, PageQuery(base, 2, 100)),
                        HttpGet(Trades, PageQuery(base, 3, 50))]
      && run.result.Return? && run.result.value.Some? && |run.result.value.value| == 250
  {
    var script := (n: nat) => FullPages(250, n);
    var hundred: seq<JValue> := seq(100, _ => JNull);
    var fifty: seq<JValue> := seq(50, _ => JNull);
    assert TotalPages(250) == 3;
    assert PageOf(script(0)) == Return(Some(hundred));
    assert PageOf(script(1)) == Return(Some(hundred));
    assert PageOf(script(2)) == Return(Some(fifty));
    var p4 := PagesSpec(script, 3, base, 250, 4, 3, hundred + hundred + fifty);
    var p3 := PagesSpec(script, 2, base, 250, 3, 3, hundred + hundred);
    assert p3 == p4.After([HttpGet(Trades, PageQuery(base, 3, 50))]);
    var p2 := PagesSpec(script, 1, base, 250, 2, 3, hundred);
    assert p2 == p3.After([HttpGet(Trades, PageQuery(base, 2, 100))]);
  }

  /** With 250 asked for but an empty second page, the loop stops after two requests. */
  lemma StopsAtEmptyPage(base: Obj)
    ensures var script := (n: nat) => if n == 0 then FullPages(250, 0) else FullPages(250, 3);
      var run := PagesSpec(script, 0, base, 250, 1, TotalPages(250), []);
      && |run.events| == 2
      && run.result.Return? && run.result.value.Some? && |run.result.value.value| == 100
  {
    var script := (n: nat) => if n == 0 then FullPages(250, 0) else FullPages(250, 3);
    var hundred: seq<JValue> := seq(100, _ => JNull);
    assert TotalPages(250) == 3;
    assert script(0) == FullPages(250, 0);
    assert PageOf(script(0)) == Return(Some(hundred));
    assert script(1) == FullPages(250, 3);
    assert seq(0, _ => JNull) == [];
    assert PageOf(script(1)) == Return(Some([]));
  }
}
