// `update_trade`: the partial-update payload and the handling of the PUT's
// response, as the code is written.

module TradeUpdate {
  import opened Wire

  /** The fields `update_trade` may change. */
  const UpdateFields: set<string> := {"notes", "shared", "initial_risk", "tags"}

  /** The PUT body: every argument that is not None, under its own key; a
      `False` for `shared` is sent like any other value. */
  function UpdatePayload(notes: JValue, shared: JValue, initialRisk: JValue, tags: JValue): (data: Obj)
    ensures data.Keys <= UpdateFields
    ensures "notes" in data <==> notes != JNull
    ensures "shared" in data <==> shared != JNull
    ensures "initial_risk" in data <==> initialRisk != JNull
    ensures "tags" in data <==> tags != JNull
    ensures forall k <- data :: data[k] != JNull
    ensures "notes" in data ==> data["notes"] == notes
    ensures "shared" in data ==> data["shared"] == shared
    ensures "initial_risk" in data ==> data["initial_risk"] == initialRisk
    ensures "tags" in data ==> data["tags"] == tags
    ensures data == map[] <==> notes == JNull && shared == JNull && initialRisk == JNull && tags == JNull
  {
    var data: Obj := map[];
    var data := if notes != JNull then data["notes" := notes] else data;
    var data := if shared != JNull then data["shared" := shared] else data;
    var data := if initialRisk != JNull then data["initial_risk" := initialRisk] else data;
    if tags != JNull then data["tags" := tags] else data
  }

  /** The PUT's response as the code handles it: 200 gives True; any other
      code reaches a log message whose format string has one `%s` for two
      arguments, so Python raises TypeError before anything is logged. */
  function UpdateReply(r: Response): (res: Outcome<bool>)
    ensures res == Return(true) <==> r.code == 200
    ensures res != Return(false)
    ensures res.Raise? ==> res.exc == TypeError
  {
    if r.code == 200 then Return(true) else Raise(TypeError)
  }

  /** The whole of `update_trade` against the server's scripted responses. */
  function UpdateTradeSpec(script: nat -> Response, next: nat, tradeId: string,
                           notes: JValue, shared: JValue, initialRisk: JValue, tags: JValue): Run<Outcome<bool>>
  {
    var data := UpdatePayload(notes, shared, initialRisk, tags);
    if data == map[] then Run(Return(false), [])
    else Run(UpdateReply(script(next)), [HttpPut(Trade(tradeId), JObject(data))])
  }

  /** With nothing to change no request is made and the result is False;
      otherwise exactly one PUT of the payload goes to the trade's URL, and
      the result is True exactly when the server answered 200. */
  lemma UpdateTradeOutcome(script: nat -> Response, next: nat, tradeId: string,
                           notes: JValue, shared: JValue, initialRisk: JValue, tags: JValue)
    ensures var run := UpdateTradeSpec(script, next, tradeId, notes, shared, initialRisk, tags);
      var data := UpdatePayload(notes, shared, initialRisk, tags);
      var nothing := notes == JNull && shared == JNull && initialRisk == JNull && tags == JNull;
      && (nothing ==> run == Run(Return(false), []))
      && (!nothing ==> run.events == [HttpPut(Trade(tradeId), JObject(data))])
      && (!nothing ==> (run.result == Return(true) <==> script(next).code == 200))
      && (!nothing ==> (run.result.Raise? <==> script(next).code != 200))
  {
  }

  /** Only the fields passed are touched: the payload of a call naming just
      `shared = False` holds that one field. */
  lemma SharedFalseIsSent()
    ensures UpdatePayload(JNull, JBool(false), JNull, JNull) == map["shared" := JBool(false)]
  {
  }
}
