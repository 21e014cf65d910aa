// Places where the client, as written, does not do what its own structure
// and messages show was meant. For each: a lemma exhibiting the behaviour
// of the code as written (over the model of `ImportWorkflow` and
// `TradeUpdate`), and the corrected definition with the intended property
// proved about it.

module Findings {
  import opened Wire
  import opened ImportWorkflow
  import opened TradeUpdate

  // ----- The 424 retry re-POSTs the busy reply instead of the executions

  /** As written: after a busy reply the loop rebinds `data` to that reply's
      body, so the second POST sends the server's error object back to it. */
  lemma RetryPostsErrorBody(script: nat -> Response, next: nat, payload: JValue, retriesLeft: int)
    requires retriesLeft >= 2 && Busy(script(next))
    ensures var run := SubmitSpec(script, next, payload, retriesLeft);
      |run.events| >= 3 && run.events[2] == HttpPost(Imports, JObject(script(next).body.obj))
  {
    var reply := script(next).body.obj;
    assert ReadSubmitReply(script(next)) == Retry(reply);
    var rest := SubmitSpec(script, next + 1, JObject(reply), retriesLeft - 1);
    assert rest.events[0] == HttpPost(Imports, JObject(reply));
  }

  /** The submission loop as intended: every attempt POSTs the same batch. */
  function SubmitIntended(script: nat -> Response, next: nat, payload: JValue, retriesLeft: int): (run: Run<Submission>)
    ensures forall e <- run.events :: e.HttpPost? ==> e.payload == payload
    decreases Max0(retriesLeft)
  {
    if retriesLeft <= 0 then Run(GaveUp, [])
    else
      var sent := HttpPost(Imports, payload);
      match ReadSubmitReply(script(next))
      case Finished(outcome) => Run(outcome, [sent])
      case Retry(_) => SubmitIntended(script, next + 1, payload, retriesLeft - 1).After([sent, Slept(BusyDelay)])
  }

  /** The fix changes only what is sent: given the same sequence of
      replies, the outcome and the number of requests and sleeps are those
      of the loop as written, whatever either loop started from. */
  lemma {:induction false} SubmitIntendedSameOutcome(script: nat -> Response, next: nat,
                                                     intended: JValue, written: JValue, retriesLeft: int)
    ensures var fixed := SubmitIntended(script, next, intended, retriesLeft);
      var asWritten := SubmitSpec(script, next, written, retriesLeft);
      fixed.result == asWritten.result && |fixed.events| == |asWritten.events|
    decreases Max0(retriesLeft)
  {
    if retriesLeft > 0 {
      match ReadSubmitReply(script(next))
      case Finished(_) =>
      case Retry(reply) =>
        SubmitIntendedSameOutcome(script, next + 1, intended, JObject(reply), retriesLeft - 1);
    }
  }

  // ----- Line 372 tests for "failure", a status the service never reports

  /** As written: an import whose status is "failed" is reported like one
      still running, as None. */
  lemma FailedStatusDropped(d: Obj)
    requires "status" in d && d["status"] == JString("failed")
    ensures Classify(Some(d)) == Return(None)
  {
  }

  /** As written: when the last status query fails (an HTTP error makes
      `import_status` return None), the classification subscripts None and
      raises TypeError instead of returning None. */
  lemma LostStatusCrashes(script: nat -> Response, next: nat, waitRetries: int, pause: int)
    requires script(next).code != 200
    ensures AwaitSpec(script, next, waitRetries, pause) == Run(Raise(TypeError), [HttpGet(Imports, map[])])
  {
  }

  /** The classification as intended: a lost status gives None, and both
      final statuses hand the payload back. */
  function ClassifyIntended(data: Option<Obj>): (res: Outcome<Option<Obj>>)
    ensures data.None? ==> res == Return(None)
    ensures res.Raise? <==> data.Some? && "status" !in data.value
    ensures res.Return? && res.value.Some? <==>
              data.Some? && "status" in data.value
              && (data.value["status"] == JString("succeeded") || data.value["status"] == JString("failed"))
    ensures res.Return? && res.value.Some? ==> res.value == data
  {
    match data
    case None => Return(None)
    case Some(d) =>
      if "status" !in d then Raise(KeyError("status"))
      else if d["status"] == JString("ready") then Return(None)
      else if d["status"] == JString("succeeded") then Return(Some(d))
      else if d["status"] == JString("failed") then Return(Some(d))
      else Return(None)
  }

  /** The correction changes nothing but the two cases above. */
  lemma ClassifyIntendedAgrees(d: Obj)
    requires "status" in d && d["status"] != JString("failed") && d["status"] != JString("failure")
    ensures ClassifyIntended(Some(d)) == Classify(Some(d))
  {
  }

  /** Waiting for completion with the intended classification. */
  function AwaitIntended(script: nat -> Response, next: nat, waitRetries: int, pause: int): Run<Outcome<Option<Obj>>> {
    var query := HttpGet(Imports, map[]);
    match ImportStatusOf(script(next))
    case Raise(e) => Run(Raise(e), [query])
    case Return(d) =>
      var polled := PollSpec(script, next + 1, d, waitRetries, pause);
      var outcome := match polled.result
        case Raise(e) => Raise(e)
        case Return(last) => ClassifyIntended(last);
      Run(outcome, [query] + polled.events)
  }

  /** Corrected, waiting hands back exactly the final statuses, never
      raises TypeError, and a lost status just gives None. */
  lemma AwaitIntendedOutcome(script: nat -> Response, next: nat, waitRetries: int, pause: int)
    ensures var run := AwaitIntended(script, next, waitRetries, pause);
      && (run.result.Return? && run.result.value.Some? ==>
            run.result.value.value["status"] in {JString("succeeded"), JString("failed")})
      && (run.result.Raise? ==> run.result.exc != TypeError)
      && (script(next).code != 200 ==> run == Run(Return(None), [HttpGet(Imports, map[])]))
  {
    match ImportStatusOf(script(next))
    case Raise(e) =>
    case Return(d) =>
      PollKeepsKnown(script, next + 1, d, waitRetries, pause);
  }

  // ----- `update_trade` fails to log its own error message

  /** As written: the error message on line 286 has one `%s` for two
      arguments, so any reply but 200 raises TypeError out of `update_trade`. */
  lemma RejectedUpdateRaises(script: nat -> Response, next: nat, tradeId: string,
                             notes: JValue, shared: JValue, initialRisk: JValue, tags: JValue)
    requires notes != JNull || shared != JNull || initialRisk != JNull || tags != JNull
    requires script(next).code != 200
    ensures UpdateTradeSpec(script, next, tradeId, notes, shared, initialRisk, tags).result == Raise(TypeError)
  {
    UpdateTradeOutcome(script, next, tradeId, notes, shared, initialRisk, tags);
  }

  /** `update_trade` as intended: log the bad response and return False. */
  function UpdateTradeIntended(script: nat -> Response, next: nat, tradeId: string,
                               notes: JValue, shared: JValue, initialRisk: JValue, tags: JValue): (run: Run<bool>)
    ensures run.result <==> (notes != JNull || shared != JNull || initialRisk != JNull || tags != JNull)
                            && script(next).code == 200
    ensures |run.events| <= 1
  {
    var data := UpdatePayload(notes, shared, initialRisk, tags);
    if data == map[] then Run(false, [])
    else Run(script(next).code == 200, [HttpPut(Trade(tradeId), JObject(data))])
  }

  /** The correction makes the same request as the code as written, returns
      what that returns whenever it returns, and False where it raises. */
  lemma UpdateIntendedAgrees(script: nat -> Response, next: nat, tradeId: string,
                             notes: JValue, shared: JValue, initialRisk: JValue, tags: JValue)
    ensures var fixed := UpdateTradeIntended(script, next, tradeId, notes, shared, initialRisk, tags);
      var asWritten := UpdateTradeSpec(script, next, tradeId, notes, shared, initialRisk, tags);
      && fixed.events == asWritten.events
      && (asWritten.result.Return? ==> fixed.result == asWritten.result.value)
      && (asWritten.result.Raise? ==> !fixed.result)
  {
  }
}
