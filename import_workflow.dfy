// The import workflow of `import_executions` / `__import_executions` /
// `import_status`, as pure functions of the server's scripted responses:
// validation, account-tag injection, the submission retry loop, the status
// polling loop and the final classification. Each function returns the
// result together with the requests and sleeps it performed; the methods of
// `Client.TraderVue` are proved to do exactly that.

module ImportWorkflow {
  import opened Wire
  import opened Interpreter

  /** HTTP status the service uses for "busy, try again". */
  const BusyCode := 424
  /** Seconds slept after a busy reply. */
  const BusyDelay := 5

  // ----- Input validation and the request body

  /** What the `tags` argument is, as far as validation cares. */
  datatype TagsKind = Absent | ListOfTags | NotAList

  /** Python's `len` on a value; None when `len` raises TypeError. */
  function PyLen(v: JValue): Option<nat> {
    match v
    case JArray(items) => Some(|items|)
    case JObject(fields) => Some(|fields|)
    case JString(s) => Some(|s|)
    case _ => None
  }

  /** The checks made before any request: emptiness first, then the two type checks. */
  function ValidateImport(executions: JValue, tags: TagsKind): (failure: Option<Exception>)
    ensures failure.None? <==> executions.JArray? && executions.items != [] && tags != NotAList
    ensures PyLen(executions) == Some(0) ==> failure == Some(ValueError(EmptyExecutions))
    ensures failure == Some(TypeError) <==> PyLen(executions).None?
    ensures failure == Some(ValueError(ExecutionsNotList)) <==> PyLen(executions).Some? && PyLen(executions).value > 0 && !executions.JArray?
    ensures failure == Some(ValueError(TagsNotList)) <==> executions.JArray? && executions.items != [] && tags == NotAList
  {
    match PyLen(executions)
    case None => Some(TypeError)
    case Some(n) =>
      if n == 0 then Some(ValueError(EmptyExecutions))
      else if !executions.JArray? then Some(ValueError(ExecutionsNotList))
      else if tags == NotAList then Some(ValueError(TagsNotList))
      else None
  }

  /** `if account_tag not in tags: tags.append(account_tag)`. */
  function WithAccountTag(tags: seq<JValue>, accountTag: JValue): (tagged: seq<JValue>)
    ensures accountTag in tagged
    ensures |tags| <= |tagged| && tagged[..|tags|] == tags
    ensures |tagged| == if accountTag in tags then |tags| else |tags| + 1
    ensures forall t :: t in tagged <==> t in tags || t == accountTag
  {
    if accountTag in tags then tags else tags + [accountTag]
  }

  /** Injecting the account tag a second time changes nothing. */
  lemma WithAccountTagIdempotent(tags: seq<JValue>, accountTag: JValue)
    ensures WithAccountTag(WithAccountTag(tags, accountTag), accountTag) == WithAccountTag(tags, accountTag)
  {
  }

  /** The tag list after injection: None stays None without an account tag,
      and becomes `[account_tag]` with one. */
  function InjectedTags(accountTag: JValue, tags: Option<seq<JValue>>): (res: Option<seq<JValue>>)
    ensures accountTag == JNull ==> res == tags
    ensures accountTag != JNull ==> res.Some? && accountTag in res.value
    ensures accountTag != JNull && tags.Some? ==> tags.value <= res.value && |res.value| <= |tags.value| + 1
    ensures accountTag != JNull && tags.None? ==> res == Some([accountTag])
  {
    if accountTag == JNull then tags
    else Some(WithAccountTag(if tags.Some? then tags.value else [], accountTag))
  }

  /** The body of the import POST (`data` in `import_executions`). */
  function ImportPayload(executions: JValue, allowDuplicates: bool, overlayCommissions: bool,
                         accountTag: JValue, tags: Option<seq<JValue>>): (data: Obj)
    ensures data.Keys == {"executions", "allow_duplicates", "overlay_commissions"}
                         + (if accountTag != JNull then {"account_tag"} else {})
                         + (if tags.Some? then {"tags"} else {})
    ensures data["executions"] == executions
    ensures data["allow_duplicates"] == JBool(allowDuplicates) && data["overlay_commissions"] == JBool(overlayCommissions)
    ensures accountTag != JNull ==> data["account_tag"] == accountTag
    ensures tags.Some? ==> data["tags"] == JArray(tags.value)
  {
    var data := map["executions" := executions,
                    "allow_duplicates" := JBool(allowDuplicates),
                    "overlay_commissions" := JBool(overlayCommissions)];
    var data := if accountTag != JNull then data["account_tag" := accountTag] else data;
    if tags.Some? then data["tags" := JArray(tags.value)] else data
  }

  lemma PayloadCarriesTags(executions: JValue, allowDuplicates: bool, overlayCommissions: bool,
                           accountTag: JValue, tags: Option<seq<JValue>>)
    requires accountTag != JNull
    ensures var data := ImportPayload(executions, allowDuplicates, overlayCommissions, accountTag,
                                      InjectedTags(accountTag, tags));
            && data["executions"] == executions
            && data["account_tag"] == accountTag
            && data["tags"].JArray? && accountTag in data["tags"].items
  {
  }

  // ----- Submission (the retry loop)

  /** How the submission loop ended. */
  datatype Submission =
    | Queued(reply: Obj)                // 200 with status "queued": go on
    | UnexpectedStatus(status: JValue)  // 200 with another status: give up at once
    | Rejected(response: Response)      // any code but 200 and 424: logged, give up at once
    | GaveUp                            // every attempt was busy (or none was made)
    | Crashed(exc: Exception)           // an exception escaped the loop

  /** The handling of a 200 reply to the import POST. */
  function AcceptReply(body: Body): Submission {
    match body
    case NotJson => Crashed(JsonDecodeError)
    case Parsed(reply) =>
      if "status" !in reply then Crashed(KeyError("status"))
      else if reply["status"] == JString("queued") then Queued(reply)
      else UnexpectedStatus(reply["status"])
  }

  /** What one attempt of the submission loop makes of its reply. */
  datatype Attempt = Finished(outcome: Submission) | Retry(reply: Obj)

  /** The branches of the loop body on the POST's response: a 424 whose
      body has an `error` field means wait and retry with that body; every
      other response ends the loop. */
  function ReadSubmitReply(r: Response): (a: Attempt)
    ensures a.Retry? <==> Busy(r)
    ensures a.Retry? ==> a.reply == r.body.obj
    ensures Accepted(r) <==> a.Finished? && a.outcome.Queued?
    ensures a.Finished? && a.outcome.Queued? ==> a.outcome.reply == r.body.obj
    ensures a.Finished? ==> !a.outcome.GaveUp?
    ensures a.Finished? && a.outcome.Rejected? <==> r.code != 200 && r.code != BusyCode
  {
    if r.code == 200 then Finished(AcceptReply(r.body))
    else if r.code == BusyCode then
      match r.body
      case NotJson => Finished(Crashed(JsonDecodeError))
      case Parsed(reply) =>
        if "error" !in reply then Finished(Crashed(KeyError("error"))) else Retry(reply)
    else Finished(Rejected(r))
  }

  /** The submission loop with `retriesLeft` attempts left, POSTing `payload`
      and reading responses from `script(next)` on. After a busy reply the
      code rebinds `data` to that reply's body, so the next attempt POSTs it. */
  function SubmitSpec(script: nat -> Response, next: nat, payload: JValue, retriesLeft: int): Run<Submission>
    decreases Max0(retriesLeft)
  {
    if retriesLeft <= 0 then Run(GaveUp, [])
    else
      var sent := HttpPost(Imports, payload);
      match ReadSubmitReply(script(next))
      case Finished(outcome) => Run(outcome, [sent])
      case Retry(reply) =>
        SubmitSpec(script, next + 1, JObject(reply), retriesLeft - 1).After([sent, Slept(BusyDelay)])
  }

  /** One more busy reply, seen from the caller's side: the loop goes on with
      the reply's body as the next payload. */
  lemma SubmitAdvance(script: nat -> Response, next: nat, payload: JValue, retriesLeft: int,
                      reply: Obj, earlier: seq<Event>)
    requires retriesLeft > 0 && ReadSubmitReply(script(next)) == Retry(reply)
    ensures SubmitSpec(script, next, payload, retriesLeft).After(earlier)
            == SubmitSpec(script, next + 1, JObject(reply), retriesLeft - 1)
                 .After(earlier + [HttpPost(Imports, payload)] + [Slept(BusyDelay)])
  {
    var step := [HttpPost(Imports, payload), Slept(BusyDelay)];
    assert earlier + [HttpPost(Imports, payload)] + [Slept(BusyDelay)] == earlier + step;
    AfterAfter(SubmitSpec(script, next + 1, JObject(reply), retriesLeft - 1), earlier, step);
  }

  /** Every attempt is one POST, and every attempt but a final one that
      ends the loop is followed by a sleep. */
  lemma {:induction false} SubmitRequests(script: nat -> Response, next: nat, payload: JValue, retriesLeft: int)
    ensures var run := SubmitSpec(script, next, payload, retriesLeft);
      2 * Requests(run.events) == |run.events| + if run.result == GaveUp then 0 else 1
    decreases Max0(retriesLeft)
  {
    if retriesLeft > 0 {
      var sent := HttpPost(Imports, payload);
      match ReadSubmitReply(script(next))
      case Finished(_) =>
        RequestsOneThen(sent, []);
      case Retry(reply) =>
        SubmitRequests(script, next + 1, JObject(reply), retriesLeft - 1);
        RequestsPairThen(sent, Slept(BusyDelay), SubmitSpec(script, next + 1, JObject(reply), retriesLeft - 1).events);
    }
  }

  /** A busy reply the loop can read (JSON with an `error` field). */
  predicate Busy(r: Response) {
    r.code == BusyCode && r.body.Parsed? && "error" in r.body.obj
  }

  /** A reply that accepts the import. */
  predicate Accepted(r: Response) {
    r.code == 200 && r.body.Parsed? && "status" in r.body.obj && r.body.obj["status"] == JString("queued")
  }

  /** The submission loop makes at most `import_retries` POSTs, one sleep
      after each busy reply; it gives up only when every attempt was busy,
      and with no attempts allowed it does nothing. */
  lemma {:induction false} SubmitBounds(script: nat -> Response, next: nat, payload: JValue, retriesLeft: int)
    ensures var run := SubmitSpec(script, next, payload, retriesLeft);
      && Count(run.events, PostKind) <= Max0(retriesLeft)
      && Count(run.events, SleepKind) <= Count(run.events, PostKind)
      && (run.result == GaveUp ==> Count(run.events, SleepKind) == Count(run.events, PostKind) == Max0(retriesLeft))
      && (retriesLeft <= 0 ==> run == Run(GaveUp, []))
    decreases Max0(retriesLeft)
  {
    if retriesLeft > 0 {
      var r := script(next);
      var sent := HttpPost(Imports, payload);
      if Busy(r) {
        var rest := SubmitSpec(script, next + 1, JObject(r.body.obj), retriesLeft - 1);
        SubmitBounds(script, next + 1, JObject(r.body.obj), retriesLeft - 1);
        CountPairThen(sent, Slept(BusyDelay), rest.events, PostKind);
        CountPairThen(sent, Slept(BusyDelay), rest.events, SleepKind);
      } else {
        CountOneThen(sent, [], PostKind);
        CountOneThen(sent, [], SleepKind);
      }
    }
  }

  /** The submission loop makes nothing but POSTs and 5-second sleeps. */
  lemma {:induction false} SubmitOnlyPostsAndSleeps(script: nat -> Response, next: nat, payload: JValue, retriesLeft: int)
    ensures var run := SubmitSpec(script, next, payload, retriesLeft);
      && Count(run.events, GetKind) == 0 && Count(run.events, PutKind) == 0
      && (forall e <- run.events :: e.Slept? ==> e.secs == BusyDelay)
    decreases Max0(retriesLeft)
  {
    if retriesLeft > 0 {
      var r := script(next);
      var sent := HttpPost(Imports, payload);
      if Busy(r) {
        var rest := SubmitSpec(script, next + 1, JObject(r.body.obj), retriesLeft - 1);
        SubmitOnlyPostsAndSleeps(script, next + 1, JObject(r.body.obj), retriesLeft - 1);
        CountPairThen(sent, Slept(BusyDelay), rest.events, GetKind);
        CountPairThen(sent, Slept(BusyDelay), rest.events, PutKind);
      } else {
        CountOneThen(sent, [], GetKind);
        CountOneThen(sent, [], PutKind);
      }
    }
  }

  /** k > 0 busy replies followed by an accepting one, seen one response
      later: k-1 busy replies followed by the same accepting one. */
  lemma ShiftReplies(script: nat -> Response, next: nat, after: nat, k: nat)
    requires 0 < k && after == next + 1
    requires forall j :: 0 <= j < k ==> Busy(Reply(script, next, j))
    requires Accepted(Reply(script, next, k))
    ensures Busy(script(next))
    ensures forall j :: 0 <= j < k - 1 ==> Busy(Reply(script, after, j))
    ensures Accepted(Reply(script, after, k - 1))
  {
    assert Busy(Reply(script, next, 0));
    forall j: nat | j < k - 1 ensures Busy(Reply(script, after, j)) {
      assert Busy(Reply(script, next, j + 1));
    }
    assert Reply(script, after, k - 1) == Reply(script, next, k);
  }

  /** k busy replies followed by an accepting one: the import is queued,
      with the accepting reply, if and only if k+1 attempts are allowed;
      otherwise the loop gives up. */
  lemma {:induction false} QueuedAfterBusyReplies(script: nat -> Response, next: nat, payload: JValue,
                                                  retriesLeft: int, k: nat)
    requires forall j :: 0 <= j < k ==> Busy(Reply(script, next, j))
    requires Accepted(Reply(script, next, k))
    ensures var run := SubmitSpec(script, next, payload, retriesLeft);
      && (run.result.Queued? <==> k + 1 <= retriesLeft)
      && (run.result.Queued? ==> run.result.reply == script(next + k).body.obj)
      && (!run.result.Queued? ==> run.result == GaveUp)
    decreases k
  {
    if retriesLeft > 0 && k > 0 {
      ShiftReplies(script, next, next + 1, k);
      QueuedAfterBusyReplies(script, next + 1, JObject(script(next).body.obj), retriesLeft - 1, k - 1);
    }
  }

  /** In the same situation, a queued import took exactly k+1 POSTs and k
      sleeps; an import given up took one POST and one sleep per attempt. */
  lemma {:induction false} SubmitAfterBusyReplies(script: nat -> Response, next: nat, payload: JValue,
                                                  retriesLeft: int, k: nat)
    requires forall j :: 0 <= j < k ==> Busy(Reply(script, next, j))
    requires Accepted(Reply(script, next, k))
    ensures var run := SubmitSpec(script, next, payload, retriesLeft);
      && (k + 1 <= retriesLeft ==> Count(run.events, PostKind) == k + 1 && Count(run.events, SleepKind) == k)
      && (k + 1 > retriesLeft ==> Count(run.events, PostKind) == Count(run.events, SleepKind) == Max0(retriesLeft))
    decreases k
  {
    var run := SubmitSpec(script, next, payload, retriesLeft);
    var sent := HttpPost(Imports, payload);
    if k + 1 > retriesLeft {
      QueuedAfterBusyReplies(script, next, payload, retriesLeft, k);
      SubmitBounds(script, next, payload, retriesLeft);
    } else if k == 0 {
      assert Reply(script, next, 0) == script(next);
      CountOneThen(sent, [], PostKind);
      CountOneThen(sent, [], SleepKind);
    } else {
      ShiftReplies(script, next, next + 1, k);
      var reply := script(next).body.obj;
      SubmitAfterBusyReplies(script, next + 1, JObject(reply), retriesLeft - 1, k - 1);
      var rest := SubmitSpec(script, next + 1, JObject(reply), retriesLeft - 1);
      CountPairThen(sent, Slept(BusyDelay), rest.events, PostKind);
      CountPairThen(sent, Slept(BusyDelay), rest.events, SleepKind);
    }
  }

  /** A 200 whose status is not "queued", or a code other than 200 and 424,
      ends the loop after that single POST. */
  lemma SubmitAbortsAtOnce(script: nat -> Response, next: nat, payload: JValue, retriesLeft: int)
    requires retriesLeft > 0
    requires var r := script(next);
      (r.code == 200 && r.body.Parsed? && "status" in r.body.obj && r.body.obj["status"] != JString("queued"))
      || (r.code != 200 && r.code != BusyCode)
    ensures var run := SubmitSpec(script, next, payload, retriesLeft);
      && run.events == [HttpPost(Imports, payload)]
      && (run.result.UnexpectedStatus? || run.result.Rejected?)
  {
  }

  // ----- Status queries and polling

  const KnownStatuses: set<JValue> :=
    {JString("ready"), JString("queued"), JString("processing"), JString("succeeded"), JString("failed")}

  /** A status payload `import_status` lets through. */
  predicate Known(d: Obj) {
    "status" in d && d["status"] in KnownStatuses
  }

  /** `import_status` on the response to its GET. */
  function ImportStatusOf(r: Response): (st: Outcome<Option<Obj>>)
    ensures st.Return? && st.value.Some? ==> Known(st.value.value) && r.code == 200 && r.body == Parsed(st.value.value)
    ensures r.code != 200 ==> st == Return(None)
    ensures st.Raise? ==> r.code == 200 && st.exc in {JsonDecodeError, KeyError("status")}
    ensures r.code == 200 && r.body.Parsed? && "status" in r.body.obj && r.body.obj["status"] !in KnownStatuses
            ==> st == Return(None)
    ensures r.code == 200 && r.body.Parsed? && Known(r.body.obj) ==> st == Return(Some(r.body.obj))
    ensures r.code == 200 && r.body.NotJson? ==> st == Raise(JsonDecodeError)
    ensures r.code == 200 && r.body.Parsed? && "status" !in r.body.obj ==> st == Raise(KeyError("status"))
  {
    if r.code == 200 then
      match r.body
      case NotJson => Raise(JsonDecodeError)
      case Parsed(data) =>
        if "status" !in data then Raise(KeyError("status"))
        else if data["status"] !in KnownStatuses then Return(None)
        else Return(Some(data))
    else Return(None)
  }

  /** Still running: the polling loop goes on. */
  predicate Pending(d: Obj) {
    "status" in d && (d["status"] == JString("queued") || d["status"] == JString("processing"))
  }

  /** The polling loop from its condition on: `data` is the latest status
      query result and `retriesLeft` the counter, which may go down to -1.
      A negative pause makes `time.sleep` raise ValueError in the first round. */
  function PollSpec(script: nat -> Response, next: nat, data: Option<Obj>, retriesLeft: int, pause: int)
    : (run: Run<Outcome<Option<Obj>>>)
    decreases Max0(retriesLeft + 1)
  {
    if data.Some? && Pending(data.value) && retriesLeft >= 0 then
      if pause < 0 then Run(Raise(ValueError(NegativeSleep)), []) else
      var step := [Slept(pause), HttpGet(Imports, map[])];
      match ImportStatusOf(script(next))
      case Raise(e) => Run(Raise(e), step)
      case Return(d) => PollSpec(script, next + 1, d, retriesLeft - 1, pause).After(step)
    else Run(Return(data), [])
  }

  /** The loop hands back a status still pending only once the counter has
      run out: every one of the `retries_left + 1` rounds was made. */
  lemma {:induction false} PollPendingOnlyWhenExhausted(script: nat -> Response, next: nat, data: Option<Obj>,
                                                        retriesLeft: int, pause: int)
    ensures var run := PollSpec(script, next, data, retriesLeft, pause);
      run.result.Return? && run.result.value.Some? && Pending(run.result.value.value)
      ==> |run.events| == 2 * Max0(retriesLeft + 1)
    decreases Max0(retriesLeft + 1)
  {
    if data.Some? && Pending(data.value) && retriesLeft >= 0 && pause >= 0 {
      match ImportStatusOf(script(next))
      case Raise(_) =>
      case Return(d) =>
        PollPendingOnlyWhenExhausted(script, next + 1, d, retriesLeft - 1, pause);
    }
  }

  /** One more round of the polling loop, seen from the caller's side. */
  lemma PollAdvance(script: nat -> Response, next: nat, data: Option<Obj>, retriesLeft: int, pause: int,
                    polled: Option<Obj>, earlier: seq<Event>)
    requires data.Some? && Pending(data.value) && retriesLeft >= 0 && pause >= 0
    requires ImportStatusOf(script(next)) == Return(polled)
    ensures PollSpec(script, next, data, retriesLeft, pause).After(earlier)
            == PollSpec(script, next + 1, polled, retriesLeft - 1, pause).After(earlier + [Slept(pause)] + [HttpGet(Imports, map[])])
  {
    var step := [Slept(pause), HttpGet(Imports, map[])];
    assert earlier + [Slept(pause)] + [HttpGet(Imports, map[])] == earlier + step;
    AfterAfter(PollSpec(script, next + 1, polled, retriesLeft - 1, pause), earlier, step);
  }

  /** The final classification after polling (the tail of `__import_executions`).
      Line 372 tests for "failure", a status `import_status` never lets
      through, so a "failed" import falls to the last branch. A failed
      status query leaves None, which the first test subscripts. */
  function Classify(data: Option<Obj>): Outcome<Option<Obj>> {
    match data
    case None => Raise(TypeError)
    case Some(d) =>
      if "status" !in d then Raise(KeyError("status"))
      else if d["status"] == JString("ready") then Return(None)
      else if d["status"] == JString("succeeded") then Return(Some(d))
      else if d["status"] == JString("failure") then Return(Some(d))
      else if d["status"] == JString("queued") || d["status"] == JString("processing") then Return(None)
      else Return(None)
  }

  /** The classification raises TypeError on None and KeyError without a
      status; it hands the payload back exactly for "succeeded" and "failure". */
  lemma ClassifyOutcome(data: Option<Obj>)
    ensures var res := Classify(data);
      && (data.None? ==> res == Raise(TypeError))
      && (data.Some? && "status" !in data.value ==> res == Raise(KeyError("status")))
      && (res.Raise? ==> res == Raise(TypeError) || res == Raise(KeyError("status")))
      && (res.Return? && res.value.Some? <==>
            data.Some? && "status" in data.value
            && (data.value["status"] == JString("succeeded") || data.value["status"] == JString("failure")))
      && (res.Return? && res.value.Some? ==> res.value == data)
  {
  }

  /** Of the statuses that can reach it, only "succeeded" yields the payload;
      "ready", "queued", "processing" and "failed" all yield None. */
  lemma ClassifyKnown(d: Obj)
    requires Known(d)
    ensures Classify(Some(d)).Return?
    ensures Classify(Some(d)) == Return(Some(d)) <==> d["status"] == JString("succeeded")
    ensures d["status"] != JString("succeeded") ==> Classify(Some(d)) == Return(None)
  {
  }

  /** What waiting makes of the polling loop's outcome: a raise passes
      through, a last status is classified. */
  function Settle(polled: Outcome<Option<Obj>>): Outcome<Option<Obj>> {
    match polled
    case Raise(e) => Raise(e)
    case Return(last) => Classify(last)
  }

  /** Waiting for completion: one status query, the polling loop, the classification. */
  function AwaitSpec(script: nat -> Response, next: nat, waitRetries: int, pause: int): Run<Outcome<Option<Obj>>> {
    var query := HttpGet(Imports, map[]);
    match ImportStatusOf(script(next))
    case Raise(e) => Run(Raise(e), [query])
    case Return(d) =>
      var polled := PollSpec(script, next + 1, d, waitRetries, pause);
      Run(Settle(polled.result), [query] + polled.events)
  }

  /** Waiting sends the status query and then whatever polling sends. */
  lemma AwaitRequests(script: nat -> Response, next: nat, waitRetries: int, pause: int)
    ensures Requests(AwaitSpec(script, next, waitRetries, pause).events) ==
      1 + match ImportStatusOf(script(next))
          case Raise(_) => 0
          case Return(d) => Requests(PollSpec(script, next + 1, d, waitRetries, pause).events)
  {
    var query := HttpGet(Imports, map[]);
    match ImportStatusOf(script(next))
    case Raise(e) =>
      RequestsOneThen(query, []);
    case Return(d) =>
      RequestsOneThen(query, PollSpec(script, next + 1, d, waitRetries, pause).events);
  }

  /** The polling loop sleeps at most `wait_retries + 1` times and queries
      once after each sleep. */
  lemma {:induction false} PollBounds(script: nat -> Response, next: nat, data: Option<Obj>, retriesLeft: int, pause: int)
    ensures var run := PollSpec(script, next, data, retriesLeft, pause);
      Count(run.events, SleepKind) == Count(run.events, GetKind) <= Max0(retriesLeft + 1)
    decreases Max0(retriesLeft + 1)
  {
    if data.Some? && Pending(data.value) && retriesLeft >= 0 && pause >= 0 {
      match ImportStatusOf(script(next))
      case Raise(e) =>
        CountPairThen(Slept(pause), HttpGet(Imports, map[]), [], SleepKind);
        CountPairThen(Slept(pause), HttpGet(Imports, map[]), [], GetKind);
      case Return(d) =>
        var rest := PollSpec(script, next + 1, d, retriesLeft - 1, pause).events;
        PollBounds(script, next + 1, d, retriesLeft - 1, pause);
        CountPairThen(Slept(pause), HttpGet(Imports, map[]), rest, SleepKind);
        CountPairThen(Slept(pause), HttpGet(Imports, map[]), rest, GetKind);
    }
  }

  /** Every round of the polling loop is a sleep and a query. */
  lemma {:induction false} PollRequests(script: nat -> Response, next: nat, data: Option<Obj>, retriesLeft: int, pause: int)
    ensures var run := PollSpec(script, next, data, retriesLeft, pause);
      2 * Requests(run.events) == |run.events|
    decreases Max0(retriesLeft + 1)
  {
    if data.Some? && Pending(data.value) && retriesLeft >= 0 && pause >= 0 {
      match ImportStatusOf(script(next))
      case Raise(_) =>
        RequestsPairThen(Slept(pause), HttpGet(Imports, map[]), []);
        assert [Slept(pause), HttpGet(Imports, map[])] + [] == [Slept(pause), HttpGet(Imports, map[])];
      case Return(d) =>
        PollRequests(script, next + 1, d, retriesLeft - 1, pause);
        RequestsPairThen(Slept(pause), HttpGet(Imports, map[]), PollSpec(script, next + 1, d, retriesLeft - 1, pause).events);
    }
  }

  /** The polling loop makes nothing but status queries and sleeps of the
      given pause. */
  lemma {:induction false} PollOnlyGetsAndSleeps(script: nat -> Response, next: nat, data: Option<Obj>, retriesLeft: int, pause: int)
    ensures var run := PollSpec(script, next, data, retriesLeft, pause);
      && Count(run.events, PostKind) == 0 && Count(run.events, PutKind) == 0
      && (forall e <- run.events :: e.Slept? ==> e.secs == pause)
    decreases Max0(retriesLeft + 1)
  {
    if data.Some? && Pending(data.value) && retriesLeft >= 0 && pause >= 0 {
      match ImportStatusOf(script(next))
      case Raise(e) =>
        CountPairThen(Slept(pause), HttpGet(Imports, map[]), [], PostKind);
        CountPairThen(Slept(pause), HttpGet(Imports, map[]), [], PutKind);
      case Return(d) =>
        var rest := PollSpec(script, next + 1, d, retriesLeft - 1, pause).events;
        PollOnlyGetsAndSleeps(script, next + 1, d, retriesLeft - 1, pause);
        CountPairThen(Slept(pause), HttpGet(Imports, map[]), rest, PostKind);
        CountPairThen(Slept(pause), HttpGet(Imports, map[]), rest, PutKind);
    }
  }

  /** The polling loop leaves only a status `import_status` admits, and
      raises only what `import_status` raises. */
  lemma {:induction false} PollKeepsKnown(script: nat -> Response, next: nat, data: Option<Obj>, retriesLeft: int, pause: int)
    requires data.Some? ==> Known(data.value)
    ensures var run := PollSpec(script, next, data, retriesLeft, pause);
      && (run.result.Return? && run.result.value.Some? ==> Known(run.result.value.value))
      && (run.result.Raise? ==> run.result.exc in {JsonDecodeError, KeyError("status"), ValueError(NegativeSleep)})
    decreases Max0(retriesLeft + 1)
  {
    if data.Some? && Pending(data.value) && retriesLeft >= 0 && pause >= 0 {
      match ImportStatusOf(script(next))
      case Raise(e) =>
      case Return(d) =>
        PollKeepsKnown(script, next + 1, d, retriesLeft - 1, pause);
    }
  }

  /** Waiting makes one more status query than it sleeps, sleeps at most
      `wait_retries + 1` times (so at most `wait_retries + 2` queries), and
      returns a payload only for a "succeeded" import. */
  lemma AwaitBounds(script: nat -> Response, next: nat, waitRetries: int, pause: int)
    ensures var run := AwaitSpec(script, next, waitRetries, pause);
      && Count(run.events, GetKind) == Count(run.events, SleepKind) + 1
      && Count(run.events, SleepKind) <= Max0(waitRetries + 1)
      && Count(run.events, PostKind) == 0 && Count(run.events, PutKind) == 0
      && (forall e <- run.events :: e.Slept? ==> e.secs == pause)
      && (run.result.Return? && run.result.value.Some? ==> run.result.value.value["status"] == JString("succeeded"))
  {
    var query := HttpGet(Imports, map[]);
    match ImportStatusOf(script(next))
    case Raise(e) =>
      CountOneThen(query, [], GetKind);
      CountOneThen(query, [], SleepKind);
      CountOneThen(query, [], PostKind);
      CountOneThen(query, [], PutKind);
    case Return(d) =>
      var polled := PollSpec(script, next + 1, d, waitRetries, pause);
      PollBounds(script, next + 1, d, waitRetries, pause);
      PollOnlyGetsAndSleeps(script, next + 1, d, waitRetries, pause);
      PollKeepsKnown(script, next + 1, d, waitRetries, pause);
      CountOneThen(query, polled.events, GetKind);
      CountOneThen(query, polled.events, SleepKind);
      CountOneThen(query, polled.events, PostKind);
      CountOneThen(query, polled.events, PutKind);
      if polled.result.Return? && polled.result.value.Some? {
        ClassifyKnown(polled.result.value.value);
      }
  }

  /** A status reply the client admits, with the given status. */
  predicate StatusReply(r: Response, status: string) {
    r.code == 200 && r.body.Parsed? && "status" in r.body.obj && r.body.obj["status"] == JString(status)
  }

  /** Statuses queued, processing, succeeded: the succeeded payload is
      returned after exactly two sleeps and three queries. */
  lemma AwaitQueuedProcessingSucceeded(script: nat -> Response, next: nat, waitRetries: int, pause: int)
    requires StatusReply(Reply(script, next, 0), "queued")
    requires StatusReply(Reply(script, next, 1), "processing")
    requires StatusReply(Reply(script, next, 2), "succeeded")
    requires waitRetries >= 1 && pause >= 0
    ensures var run := AwaitSpec(script, next, waitRetries, pause);
      && run.result == Return(Some(script(next + 2).body.obj))
      && run.events == [HttpGet(Imports, map[]), Slept(pause), HttpGet(Imports, map[]), Slept(pause), HttpGet(Imports, map[])]
  {
    var r0, r1, r2 := Reply(script, next, 0), Reply(script, next, 1), Reply(script, next, 2);
    assert r0 == script(next) && r1 == script(next + 1) && r2 == script(next + 2);
    var q, s := HttpGet(Imports, map[]), Slept(pause);
    assert ImportStatusOf(r0) == Return(Some(r0.body.obj));
    assert ImportStatusOf(r1) == Return(Some(r1.body.obj));
    assert ImportStatusOf(r2) == Return(Some(r2.body.obj));
    var p2 := PollSpec(script, next + 3, Some(r2.body.obj), waitRetries - 2, pause);
    assert p2 == Run(Return(Some(r2.body.obj)), []);
    var p1 := PollSpec(script, next + 2, Some(r1.body.obj), waitRetries - 1, pause);
    assert p1 == p2.After([s, q]);
    var p0 := PollSpec(script, next + 1, Some(r0.body.obj), waitRetries, pause);
    assert p0 == p1.After([s, q]);
    assert Classify(Some(r2.body.obj)) == Return(Some(r2.body.obj));
  }

  /** The polling loop against a server that always answers "processing". */
  lemma {:induction false} PollNeverSettles(script: nat -> Response, next: nat, retriesLeft: int, pause: int)
    requires forall j :: Reply(script, next, j) == script(next)
    requires StatusReply(script(next), "processing")
    ensures var run := PollSpec(script, next, Some(script(next).body.obj), retriesLeft, pause);
      && run.result == (if pause < 0 && retriesLeft >= 0 then Raise(ValueError(NegativeSleep))
                        else Return(Some(script(next).body.obj)))
      && Count(run.events, SleepKind) == Count(run.events, GetKind) == (if pause < 0 then 0 else Max0(retriesLeft + 1))
    decreases Max0(retriesLeft + 1)
  {
    if retriesLeft >= 0 && pause >= 0 {
      var after := next + 1;
      assert Reply(script, next, 1) == script(next);
      forall j: nat ensures Reply(script, after, j) == script(after) {
        assert Reply(script, next, j + 1) == script(next);
      }
      PollNeverSettles(script, after, retriesLeft - 1, pause);
      var rest := PollSpec(script, after, Some(script(after).body.obj), retriesLeft - 1, pause).events;
      CountPairThen(Slept(pause), HttpGet(Imports, map[]), rest, SleepKind);
      CountPairThen(Slept(pause), HttpGet(Imports, map[]), rest, GetKind);
    }
  }

  /** An import that never leaves "processing" is polled until the counter
      runs out: `wait_retries + 1` sleeps and `wait_retries + 2` queries in
      all (a single query when `wait_retries` < -1), and the result is None.
      With a negative pause the first sleep raises ValueError instead. */
  lemma AwaitNeverSettles(script: nat -> Response, next: nat, waitRetries: int, pause: int)
    requires forall j :: Reply(script, next, j) == script(next)
    requires StatusReply(script(next), "processing")
    ensures var run := AwaitSpec(script, next, waitRetries, pause);
      var sleeps := if pause < 0 then 0 else Max0(waitRetries + 1);
      && run.result == (if pause < 0 && waitRetries >= 0 then Raise(ValueError(NegativeSleep)) else Return(None))
      && Count(run.events, SleepKind) == sleeps
      && Count(run.events, GetKind) == sleeps + 1
  {
    var after := next + 1;
    assert Reply(script, next, 1) == script(next);
    forall j: nat ensures Reply(script, after, j) == script(after) {
      assert Reply(script, next, j + 1) == script(next);
    }
    PollNeverSettles(script, after, waitRetries, pause);
    var polled := PollSpec(script, after, Some(script(after).body.obj), waitRetries, pause);
    CountOneThen(HttpGet(Imports, map[]), polled.events, SleepKind);
    CountOneThen(HttpGet(Imports, map[]), polled.events, GetKind);
  }

  /** `time.sleep` refuses a negative delay: with a pending status and a
      round left, waiting raises ValueError after its first query and
      before any sleep. */
  lemma NegativePauseRaises(script: nat -> Response, next: nat, waitRetries: int, pause: int)
    requires StatusReply(script(next), "queued") || StatusReply(script(next), "processing")
    requires waitRetries >= 0 && pause < 0
    ensures AwaitSpec(script, next, waitRetries, pause)
            == Run(Raise(ValueError(NegativeSleep)), [HttpGet(Imports, map[])])
  {
    assert ImportStatusOf(script(next)) == Return(Some(script(next).body.obj));
  }

  // ----- The whole of `__import_executions`

  /** The outcome of an import that does not wait: an escaped exception
      propagates, anything else yields None. */
  function Unwaited(submitted: Submission): Outcome<Option<Obj>> {
    if submitted.Crashed? then Raise(submitted.exc) else Return(None)
  }

  /** Submission, then, when asked for, waiting for completion. Without
      waiting, a queued import yields None just like a failed one. */
  function ImportSpec(script: nat -> Response, next: nat, payload: JValue, importRetries: int,
                      waitForCompletion: bool, waitRetries: int, pause: int): (run: Run<Outcome<Option<Obj>>>)
    ensures !waitForCompletion ==> run.result.Raise? || run.result == Return(None)
  {
    var submitted := SubmitSpec(script, next, payload, importRetries);
    if submitted.result.Queued? && waitForCompletion then
      AwaitSpec(script, next + Requests(submitted.events), waitRetries, pause).After(submitted.events)
    else Run(Unwaited(submitted.result), submitted.events)
  }

  /** An import that does not wait, because the submission was not queued
      or the caller did not ask to, makes only the submission's requests,
      raises exactly when the submission raised, and otherwise returns None:
      after giving up, after an abort, and after a queued submission alike. */
  lemma ImportWithoutWaiting(script: nat -> Response, next: nat, payload: JValue, importRetries: int,
                             waitForCompletion: bool, waitRetries: int, pause: int)
    ensures var run := ImportSpec(script, next, payload, importRetries, waitForCompletion, waitRetries, pause);
      var s := SubmitSpec(script, next, payload, importRetries);
      !s.result.Queued? || !waitForCompletion ==>
        && run.events == s.events
        && (run.result.Raise? <==> s.result.Crashed?)
        && (!s.result.Crashed? ==> run.result == Return(None))
  {
  }

  /** The first request of each phase: the first attempt POSTs the
      caller's batch, and waiting starts with a status query. */
  lemma FirstRequests(script: nat -> Response, next: nat, payload: JValue, importRetries: int,
                      waitForCompletion: bool, waitRetries: int, pause: int)
    ensures var submitted := SubmitSpec(script, next, payload, importRetries);
      importRetries > 0 ==> submitted.events != [] && submitted.events[0] == HttpPost(Imports, payload)
    ensures var awaited := AwaitSpec(script, next, waitRetries, pause);
      awaited.events != [] && awaited.events[0] == HttpGet(Imports, map[])
    ensures var run := ImportSpec(script, next, payload, importRetries, waitForCompletion, waitRetries, pause);
      importRetries > 0 ==> run.events != [] && run.events[0] == HttpPost(Imports, payload)
  {
  }

  /** The whole import makes at most `import_retries` POSTs, no status query
      unless asked to wait and then at most `wait_retries + 2`, and returns a
      payload only when it waited and the import "succeeded"; with
      `import_retries` <= 0 it does nothing and returns None. */
  lemma ImportBounds(script: nat -> Response, next: nat, payload: JValue, importRetries: int,
                     waitForCompletion: bool, waitRetries: int, pause: int)
    ensures var run := ImportSpec(script, next, payload, importRetries, waitForCompletion, waitRetries, pause);
      && Count(run.events, PostKind) <= Max0(importRetries)
      && Count(run.events, GetKind) <= (if waitForCompletion then Max0(waitRetries + 1) + 1 else 0)
      && Count(run.events, PutKind) == 0
      && (run.result.Return? && run.result.value.Some? ==>
            waitForCompletion && run.result.value.value["status"] == JString("succeeded"))
      && (importRetries <= 0 ==> run == Run(Return(None), []))
  {
    var submitted := SubmitSpec(script, next, payload, importRetries);
    SubmitBounds(script, next, payload, importRetries);
    SubmitOnlyPostsAndSleeps(script, next, payload, importRetries);
    if submitted.result.Queued? && waitForCompletion {
      var resumed := next + Requests(submitted.events);
      var awaited := AwaitSpec(script, resumed, waitRetries, pause);
      AwaitBounds(script, resumed, waitRetries, pause);
      CountAppend(submitted.events, awaited.events, PostKind);
      CountAppend(submitted.events, awaited.events, GetKind);
      CountAppend(submitted.events, awaited.events, PutKind);
    }
  }

  /** A "failed" import is never handed back to the caller: the check on
      line 372 looks for "failure" instead. */
  lemma FailedImportNeverReturned(script: nat -> Response, next: nat, payload: JValue, importRetries: int,
                                  waitForCompletion: bool, waitRetries: int, pause: int)
    ensures var run := ImportSpec(script, next, payload, importRetries, waitForCompletion, waitRetries, pause);
      run.result.Return? && run.result.value.Some? ==> run.result.value.value["status"] != JString("failed")
  {
    ImportBounds(script, next, payload, importRetries, waitForCompletion, waitRetries, pause);
  }
}
