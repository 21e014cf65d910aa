// The `TraderVue` client object: the modelled public calls and their private
// helpers as methods over a scripted server. Each method's postcondition ties
// its result and the requests it made to the specification functions of
// ImportWorkflow, TradeQuery and TradeUpdate, whose properties are proved
// there.

module Client {
  import opened Wire
  import opened Interpreter
  import opened ImportWorkflow
  import opened TradeFilters
  import opened TradeQuery
  import opened TradeUpdate
  import opened Transport

  /** A Python list owned by the caller; `import_executions` appends to it. */
  class TagList {
    var items: seq<JValue>

    constructor (items: seq<JValue>)
      ensures this.items == items
    {
      this.items := items;
    }
  }

  /** The `tags` argument of `import_executions`. */
  datatype TagsArg = NoTags | ListArg(list: TagList) | NotAListArg

  function KindOfTags(tags: TagsArg): TagsKind {
    match tags
    case NoTags => Absent
    case ListArg(_) => ListOfTags
    case NotAListArg => NotAList
  }

  class TraderVue {
    const username: string
    const password: string
    const userAgent: string
    /** The user impersonated through the `Tradervue-UserId` header; JNull for none. */
    const targetUser: JValue
    /** The HTTP transport and the clock. */
    const net: ScriptedServer

    constructor (username: string, password: string, userAgent: string, targetUser: JValue, net: ScriptedServer)
      ensures this.username == username && this.password == password && this.userAgent == userAgent
      ensures this.targetUser == targetUser && this.net == net
    {
      this.username := username;
      this.password := password;
      this.userAgent := userAgent;
      this.targetUser := targetUser;
      this.net := net;
    }

    /** What `__handle_bad_http_response` reports for `r`. */
    function Complaint(r: Response, showUrl: bool): (report: Report)
      ensures report.permissionHint <==> r.code == 403 && Truthy(targetUser)
    {
      BadResponse(r, showUrl, targetUser)
    }

    // ----- Imports

    /** `import_status`: one GET of the imports resource. */
    method ImportStatus() returns (st: Outcome<Option<Obj>>)
      modifies net
      ensures st == ImportStatusOf(net.script(old(net.served)))
      ensures net.trace == old(net.trace) + [HttpGet(Imports, map[])]
      ensures net.served == old(net.served) + 1
    {
      var r := net.Get(Imports, map[]);
      st := ImportStatusOf(r);
    }

    /** The retry loop of `__import_executions`: POST until the import is
        queued, refused, or the attempts run out, sleeping 5 seconds after
        every busy (424) reply. */
    method SubmitImport(payload: JValue, importRetries: int) returns (outcome: Submission)
      modifies net
      ensures var run := SubmitSpec(net.script, old(net.served), payload, importRetries);
        && outcome == run.result && net.trace == old(net.trace) + run.events
        && net.served == old(net.served) + Requests(run.events)
    {
      ghost var t0, s0 := net.trace, net.served;
      ghost var goal := SubmitSpec(net.script, net.served, payload, importRetries);
      SubmitRequests(net.script, net.served, payload, importRetries);
      var data := payload;
      var retriesLeft := importRetries;
      while retriesLeft > 0
        invariant goal.After(t0) == SubmitSpec(net.script, net.served, data, retriesLeft).After(net.trace)
        invariant |net.trace| - |t0| == 2 * (net.served - s0)
        decreases retriesLeft
      {
        ghost var next := net.served;
        ghost var before := net.trace;
        retriesLeft := retriesLeft - 1;
        var r := net.Post(Imports, data);
        var attempt := ReadSubmitReply(r);
        if attempt.Finished? {
          outcome := attempt.outcome;
          return;
        }
        SubmitAdvance(net.script, next, data, retriesLeft + 1, attempt.reply, before);
        data := JObject(attempt.reply);
        var _ := net.Sleep(BusyDelay);
      }
      AppendNothing(net.trace);
      outcome := GaveUp;
    }

    /** The polling loop of `__import_executions`: while the latest status
        is queued or processing and the counter has not gone below zero,
        sleep and query again. The result is the last status query's. */
    method PollImport(data: Option<Obj>, retriesLeft: int, pause: int) returns (res: Outcome<Option<Obj>>)
      modifies net
      ensures var run := PollSpec(net.script, old(net.served), data, retriesLeft, pause);
        && res == run.result && net.trace == old(net.trace) + run.events
        && net.served == old(net.served) + Requests(run.events)
    {
      ghost var t0, s0 := net.trace, net.served;
      ghost var goal := PollSpec(net.script, net.served, data, retriesLeft, pause);
      PollRequests(net.script, net.served, data, retriesLeft, pause);
      var latest := data;
      var left := retriesLeft;
      while latest.Some? && Pending(latest.value) && left >= 0
        invariant goal.After(t0) == PollSpec(net.script, net.served, latest, left, pause).After(net.trace)
        invariant |net.trace| - |t0| == 2 * (net.served - s0)
        decreases left + 1
      {
        ghost var next := net.served;
        ghost var before := net.trace;
        left := left - 1;
        var failure := net.Sleep(pause);
        if failure.Some? {
          AppendNothing(before);
          res := Raise(failure.value);
          return;
        }
        var st := ImportStatus();
        if st.Raise? {
          AppendPair(before, Slept(pause), HttpGet(Imports, map[]));
          res := Raise(st.exc);
          return;
        }
        PollAdvance(net.script, next, latest, left + 1, pause, st.value, before);
        latest := st.value;
      }
      AppendNothing(net.trace);
      res := Return(latest);
    }

    /** Waiting for completion: query the status, poll, then classify the
        last status. */
    method AwaitImport(waitRetries: int, pause: int) returns (res: Outcome<Option<Obj>>)
      modifies net
      ensures var run := AwaitSpec(net.script, old(net.served), waitRetries, pause);
        && res == run.result && net.trace == old(net.trace) + run.events
        && net.served == old(net.served) + Requests(run.events)
    {
      AwaitRequests(net.script, net.served, waitRetries, pause);
      ghost var t0 := net.trace;
      var st := ImportStatus();
      if st.Raise? {
        res := Raise(st.exc);
        return;
      }
      AppendTwice(t0, [HttpGet(Imports, map[])], PollSpec(net.script, net.served, st.value, waitRetries, pause).events);
      var polled := PollImport(st.value, waitRetries, pause);
      res := Settle(polled);
    }

    /** `__import_executions`: submission, then waiting when asked to. */
    method PostImport(payload: JValue, importRetries: int, waitForCompletion: bool,
                      waitRetries: int, pause: int) returns (res: Outcome<Option<Obj>>)
      modifies net
      ensures var run := ImportSpec(net.script, old(net.served), payload, importRetries,
                                    waitForCompletion, waitRetries, pause);
        && res == run.result && net.trace == old(net.trace) + run.events
        && net.served == old(net.served) + Requests(run.events)
    {
      ghost var t0 := net.trace;
      ghost var submission := SubmitSpec(net.script, net.served, payload, importRetries);
      var submitted := SubmitImport(payload, importRetries);
      if submitted.Queued? && waitForCompletion {
        ghost var awaited := AwaitSpec(net.script, net.served, waitRetries, pause).events;
        RequestsAppend(submission.events, awaited);
        AppendTwice(t0, submission.events, awaited);
        res := AwaitImport(waitRetries, pause);
      } else {
        res := Unwaited(submitted);
      }
    }

    /** `import_executions`: validate the arguments, add the account tag to
        the caller's tag list (creating one when there is none), build the
        payload and import it. Invalid arguments raise before any request
        and leave the tag list alone. */
    method ImportExecutions(executions: JValue, accountTag: JValue, tags: TagsArg,
                            allowDuplicates: bool, overlayCommissions: bool, importRetries: int,
                            waitForCompletion: bool, waitRetries: int, secsPerWaitRetry: int)
      returns (res: Outcome<Option<Obj>>)
      modifies net, if tags.ListArg? then {tags.list} else {}
      ensures var failure := ValidateImport(executions, KindOfTags(tags));
        failure.Some? ==> res == Raise(failure.value) && net.trace == old(net.trace) && net.served == old(net.served)
      ensures tags.ListArg? ==>
        tags.list.items == if ValidateImport(executions, KindOfTags(tags)).None? && accountTag != JNull
                           then WithAccountTag(old(tags.list.items), accountTag)
                           else old(tags.list.items)
      ensures var given := if tags.ListArg? then Some(old(tags.list.items)) else None;
        var payload := ImportPayload(executions, allowDuplicates, overlayCommissions, accountTag,
                                     InjectedTags(accountTag, given));
        var run := ImportSpec(net.script, old(net.served), JObject(payload), importRetries,
                              waitForCompletion, waitRetries, secsPerWaitRetry);
        ValidateImport(executions, KindOfTags(tags)).None? ==>
          && res == run.result && net.trace == old(net.trace) + run.events
          && net.served == old(net.served) + Requests(run.events)
    {
      var failure := ValidateImport(executions, KindOfTags(tags));
      if failure.Some? {
        res := Raise(failure.value);
        return;
      }
      var tagList: Option<TagList> := if tags.ListArg? then Some(tags.list) else None;
      if accountTag != JNull {
        if tagList.None? {
          var created := new TagList([]);
          tagList := Some(created);
        }
        if accountTag !in tagList.value.items {
          tagList.value.items := tagList.value.items + [accountTag];
        }
      }
      var copied := if tagList.Some? then Some(tagList.value.items) else None;
      var payload := ImportPayload(executions, allowDuplicates, overlayCommissions, accountTag, copied);
      res := PostImport(JObject(payload), importRetries, waitForCompletion, waitRetries, secsPerWaitRetry);
    }

    // ----- Trades

    /** `__get_trades`, with the caller's None and length tests: one GET of
        the trades resource with the given parameters. */
    method FetchPage(params: Obj) returns (got: Outcome<Option<seq<JValue>>>)
      modifies net
      ensures got == PageOf(net.script(old(net.served)))
      ensures net.trace == old(net.trace) + [HttpGet(Trades, params)]
      ensures net.served == old(net.served) + 1
    {
      var r := net.Get(Trades, params);
      got := PageOf(r);
    }

    /** The page loop of `get_trades`: pages 1 to `totalPages` of the query
        `base`, stopping at the first empty page; any page error makes the
        whole result None. */
    method FetchPages(base: Obj, maxTrades: int, totalPages: int) returns (got: Outcome<Option<seq<JValue>>>)
      modifies net
      ensures var run := PagesSpec(net.script, old(net.served), base, maxTrades, 1, totalPages, []);
        && got == run.result && net.trace == old(net.trace) + run.events
        && net.served == old(net.served) + Requests(run.events)
    {
      ghost var t0, s0 := net.trace, net.served;
      ghost var goal := PagesSpec(net.script, net.served, base, maxTrades, 1, totalPages, []);
      PagesOnlyRequests(net.script, net.served, base, maxTrades, 1, totalPages, []);
      var all: seq<JValue> := [];
      var page := 1;
      while page <= totalPages
        invariant goal.After(t0) == PagesSpec(net.script, net.served, base, maxTrades, page, totalPages, all).After(net.trace)
        invariant |net.trace| - |t0| == net.served - s0
        decreases totalPages - page
      {
        ghost var next := net.served;
        ghost var before := net.trace;
        // The source updates one dict in place; by RequeryOverrides that
        // dict always equals the base filters with this page and count.
        var data := PageQuery(base, page, PageSize(maxTrades, |all|));
        var trades := FetchPage(data);
        if trades.Raise? || trades.value.None? {
          got := trades;
          return;
        }
        if |trades.value.value| == 0 {
          break;
        }
        PagesAdvance(net.script, next, base, maxTrades, page, totalPages, all, trades.value.value, before);
        all := all + trades.value.value;
        page := page + 1;
      }
      got := Return(Some(all));
    }

    /** `get_trades`: build the query from the filters, fetch the pages, and
        warn about a dubious tag expression that found nothing. */
    method GetTrades(f: TradeFilter, maxTrades: int) returns (listing: Listing)
      modifies net
      ensures var run := GetTradesSpec(net.script, old(net.served), f, maxTrades);
        && listing == run.result && net.trace == old(net.trace) + run.events
        && net.served == old(net.served) + Requests(run.events)
    {
      var params := FilterParams(f);
      if params.Raise? {
        listing := Listing(Raise(params.exc), false);
        return;
      }
      var got := FetchPages(params.value, maxTrades, TotalPages(maxTrades));
      var dubious := f.tagExpr.Some? && DubiousTagExpr(f.tagExpr.value);
      listing := Listing(got, dubious && got == Return(Some([])));
    }

    /** `update_trade`: PUT the fields given, or do nothing when none is. */
    method UpdateTrade(tradeId: string, notes: JValue, shared: JValue, initialRisk: JValue, tags: JValue)
      returns (res: Outcome<bool>)
      modifies net
      ensures var run := UpdateTradeSpec(net.script, old(net.served), tradeId, notes, shared, initialRisk, tags);
        && res == run.result && net.trace == old(net.trace) + run.events
        && net.served == old(net.served) + Requests(run.events)
    {
      var data := UpdatePayload(notes, shared, initialRisk, tags);
      if |data| == 0 {
        res := Return(false);
        return;
      }
      RequestsOneThen(HttpPut(Trade(tradeId), JObject(data)), []);
      var r := net.Put(Trade(tradeId), JObject(data));
      res := UpdateReply(r);
    }
  }
}
