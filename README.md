# Tradervue REST client: a Dafny model of its import, listing and update calls

This project models the core of `tradervue.py`, a Python client for the Tradervue trading-journal REST API, and proves properties of that model.

It covers these calls:

- **`import_executions`**: validation, account-tag injection into the caller's tag list, and the import body.
- **`__import_executions`**: the submission loop, which retries on HTTP 424 with a 5-second sleep, and the optional wait for completion, which polls `import_status` and then classifies the final status.
- **`import_status`**.
- **`get_trades` / `__get_trades`**: filter validation, the query parameters, the page loop (up to 100 trades per page, stopping at an empty page, all or nothing on errors) and the dubious-tag warning.
- **`update_trade`**: the partial-update payload and the handling of the PUT's response.
- **`__handle_bad_http_response`**: what it reports about a failed response.
- **`TraderVueLogFormatter.format`**: the mapping from level to severity and colour.

## How the model is organised

The server is a scripted function `script: nat -> Response`: the i-th request of a session gets `script(i)`. The class `Transport.ScriptedServer` holds that script, the number of responses handed out, and a trace of every request (POST, GET, PUT, with its endpoint and body or parameters) and every `time.sleep`.

Each client call has two forms:

- **A pure specification function** returning `Run(result, events)`: the Python return value and the requests and sleeps made, in order.
  - These are `ImportWorkflow.SubmitSpec`, `PollSpec`, `AwaitSpec`, `ImportSpec`, `TradeQuery.PagesSpec`, `GetTradesSpec` and `TradeUpdate.UpdateTradeSpec`.
  - The properties of the calls are proved about these functions.
- **An imperative method** of `Client.TraderVue` with the loops of the source.
  - Each method is proved to return exactly the specification's result.
  - Each is also proved to append exactly the specification's events to the server's trace.
  - Each is also proved to advance the server's count of responses handed out by the number of requests among those events.

Python exceptions are results too: `Outcome.Raise(ValueError(..) | JsonDecodeError | KeyError(key) | TypeError)`. `JNull` stands for `None`.

The model follows the code as written, including four defects. They are listed under "## Findings", with corrected definitions in module `Findings`.

Two behaviours of the code differ from what its own messages suggest. The model follows the code:

- **Polling.** The polling loop on line 361 runs while `retries_left >= 0`. Waiting therefore makes up to `wait_retries + 1` sleeps and `wait_retries + 2` status queries, although the message on line 376 reports `wait_retries` attempts.
- **The "failed" status.** Line 372 tests for "failure", a status that `import_status` (line 297) never lets through. A "failed" import therefore falls to the last branch and gives None, although the branch on lines 372-374 logs "Import had some failures" and returns the payload.

Files:

- `wire.dfy`: JSON values, responses, request events, exceptions, and event counting.
- `transport.dfy`: the scripted server.
- `interpreter.dfy`: `__handle_bad_http_response`.
- `log_format.dfy`: the log formatter.
- `trade_filters.dfy`: the side, duration and tag-expression regular expressions.
- `trade_query.dfy`: `get_trades`.
- `trade_update.dfy`: `update_trade`.
- `import_workflow.dfy`: the import calls.
- `client.dfy`: the `TraderVue` class.
- `findings.dfy`: the corrected definitions.

## Model

| member | source | states |
|---|---|---|
| LogFormat.Decorate | tradervue.py:18-33 | 'E' iff the level is >= ERROR (40); 'W' iff WARNING <= level < ERROR; 'I' iff INFO <= level < WARNING; 'D' iff DEBUG <= level < INFO; '?' iff level < DEBUG. 'E' is red, 'W' yellow, and only levels >= WARNING are coloured. |
| LogFormat.SeverityMonotone | tradervue.py:19-33 | A higher level never gets a less severe letter. |
| LogFormat.StandardLevels | tradervue.py:19-33 | CRITICAL and ERROR both give red 'E'; WARNING, INFO and DEBUG get 'W', 'I' and 'D'; level 0 gets '?'. |
| Interpreter.ServerError | tradervue.py:89-100 | The reason is the `error` field, else the `status` field, else the raw text; also the raw text when the body is not JSON. |
| Interpreter.BadResponse | tradervue.py:83-108 | The report carries the code, whether the URL is shown and the server's reason. It flags a JSON body with neither field. It adds the permission hint exactly on a 403 with a truthy target user. |
| Interpreter.StatusFieldFallback | tradervue.py:93-96 | With no `error` field, the `status` field is the reason. |
| Interpreter.NoHintWithoutTargetUser | tradervue.py:106-107 | On a 403 the hint appears for user "42", and not for None, "" or 0. |
| Client.TraderVue.constructor | tradervue.py:37-45 | The client keeps its credentials, user agent, target user and transport. |
| Client.TraderVue.Complaint | tradervue.py:106-107 | The permission hint depends on the client's own `target_user`. |
| Transport.ScriptedServer.Post | tradervue.py:50 | One POST: the next scripted response is returned and the request is appended to the trace. |
| Transport.ScriptedServer.Get | tradervue.py:48 | One GET: the next scripted response is returned and the request is appended to the trace. |
| Transport.ScriptedServer.Put | tradervue.py:49 | One PUT: the next scripted response is returned and the request is appended to the trace. |
| Transport.ScriptedServer.Sleep | tradervue.py:363 | `time.sleep` of a non-negative delay is recorded and consumes no response. A negative delay raises ValueError and records nothing. |
| TradeFilters.NormalizeSide | tradervue.py:167-171 | "long" or "short" in any case, optionally followed by one final newline, becomes "L" or "S"; anything else raises ValueError. |
| TradeFilters.NormalizeDuration | tradervue.py:173-177 | "intraday" or "multiday", matched the same way, becomes "I" or "M"; anything else raises ValueError. |
| TradeFilters.InitialOfMatch | tradervue.py:171 | For a matched word, `value[0].upper()` is the word's initial in upper case. |
| TradeFilters.SideExamples | tradervue.py:168-171 | "Long" → "L", "SHORT" → "S", "long\n" → "L"; "sideways" and "" raise. |
| TradeFilters.MatchesWord | tradervue.py:168 | No ensures of its own. NormalizeSide, NormalizeDuration and SideExamples state what it accepts. |
| TradeFilters.SearchSpaced | tradervue.py:161 | No ensures of its own. SearchSpacedFinds, NoSpacedMatch and SpacedMatchFound state what it finds. |
| TradeFilters.DubiousTagExpr | tradervue.py:161 | No ensures of its own. The four examples below and GetTradesShape state when it warns. |
| TradeFilters.SearchSpacedFinds | tradervue.py:161 | The left-to-right search succeeds iff some position has a blank, the word, and a blank. |
| TradeFilters.NoSpacedMatch | tradervue.py:161 | If no blank is followed by the word's first letter, the search fails. |
| TradeFilters.SpacedMatchFound | tradervue.py:161 | A match at one position is found by the search. |
| TradeFilters.DubiousLowerCaseAnd | tradervue.py:161-164 | "foo and bar" is flagged as dubious. |
| TradeFilters.DubiousLowerCaseOr | tradervue.py:161-164 | "a\tor b" is flagged as dubious. |
| TradeFilters.NotDubiousUpperCaseAnd | tradervue.py:161-164 | "foo AND bar" is not flagged. |
| TradeFilters.NotDubiousLeadingAnd | tradervue.py:161-164 | A leading "and" without a blank before it is not flagged. |
| TradeQuery.FilterParams | tradervue.py:156-180 | The query raises iff the side or duration is invalid. The side is checked first, so a bad side gives ValueError for the side, and otherwise the error is for the duration. |
| TradeQuery.FilterParamsKeys | tradervue.py:156-180 | Each filter given appears under its own key, and only then; no "page" or "count" key is present before the page loop. |
| TradeQuery.FilterParamsValues | tradervue.py:157-180 | The side and duration are sent as their one-letter codes; the symbol, tag expression and dates as given. |
| TradeQuery.TotalPages | tradervue.py:182-184 | At least one page; one page for max_trades <= 100; otherwise the ceiling of max_trades/100. |
| TradeQuery.Chars | tradervue.py:200 | Extending a list with a string adds its characters one by one, in order. |
| TradeQuery.PageOf | tradervue.py:191-219 | A non-200 reply, or one with no `trades` field or a null one, gives None. A non-JSON 200 raises JsonDecodeError. A list gives its items, a string exactly its characters, and an empty object an empty page. A number, a boolean or a non-empty object raises TypeError. |
| TradeQuery.PageSize | tradervue.py:188-190 | The count asked for is 100 or the trades still wanted, whichever is smaller. |
| TradeQuery.PagesSpec | tradervue.py:186-200 | A successful listing extends the trades in hand. The page loop's other properties are the PagesBound, PagesRequestAt, PagesGoOnOnlyAfterTrades, PagesCollectAll, PagesNoneOnlyAtFailure, PagesWithinMax and PagesOnlyRequests rows. |
| TradeQuery.PagesOnlyRequests | tradervue.py:186-200 | The page loop never sleeps: every event is a request. |
| TradeQuery.GetTradesSpec | tradervue.py:155-205 | No ensures of its own. Its properties are the BadFilterSendsNothing (any invalid filter), GetTradesShape, TwoHundredFifty and StopsAtEmptyPage rows. |
| TradeQuery.RequeryOverrides | tradervue.py:189-190 | Setting `page` and `count` again on the same dict equals setting them once on the base filters. |
| TradeQuery.PagesAdvance | tradervue.py:187-200 | One non-empty page: one GET for that page, then the loop continues at the next page with the trades added. |
| TradeQuery.PagesBound | tradervue.py:187 | At most one GET per remaining page. |
| TradeQuery.PagesRequestAt | tradervue.py:187-191 | The j-th GET asks for page `page + j` and for min(100, max_trades − trades so far) trades. |
| TradeQuery.PagesGoOnOnlyAfterTrades | tradervue.py:192-200 | Every GET except the last was answered by a page with trades. |
| TradeQuery.PagesCollectAll | tradervue.py:195-200 | A successful listing is the trades in hand followed by every page served, in order. |
| TradeQuery.PagesNoneOnlyAtFailure | tradervue.py:192-194 | The listing is None iff the last page served failed; no partial list is ever returned. |
| TradeQuery.PagesWithinMax | tradervue.py:188-190 | If the server never returns more than the `count` asked for, the listing holds at most max_trades trades. |
| TradeQuery.BadFilterSendsNothing | tradervue.py:167-177 | A bad side or duration raises ValueError before any request: the side's error when the side is bad, otherwise the duration's. |
| TradeQuery.GetTradesShape | tradervue.py:155-205 | A valid listing makes 1 to total_pages GETs of pages 1, 2, … in order. The first asks for min(100, max_trades). It warns iff the tag expression is dubious and the listing succeeded empty. |
| TradeQuery.TwoHundredFifty | tradervue.py:182-200 | max_trades = 250 against a full server: three GETs for 100, 100 and 50 trades, and 250 trades in all. |
| TradeQuery.StopsAtEmptyPage | tradervue.py:195-197 | An empty second page stops the loop after two GETs with the first page's 100 trades. |
| TradeUpdate.UpdatePayload | tradervue.py:271-275 | Each argument that is not None is sent under its key and holds that value; `shared=False` is sent. The payload is empty iff all four are None. |
| TradeUpdate.UpdateReply | tradervue.py:281-287 | 200 gives True; any other code raises TypeError (see Findings); never False. |
| TradeUpdate.UpdateTradeSpec | tradervue.py:267-287 | No ensures of its own. UpdateTradeOutcome and SharedFalseIsSent state its properties. |
| TradeUpdate.UpdateTradeOutcome | tradervue.py:267-287 | With nothing to change there is no request and the result is False. Otherwise there is exactly one PUT to the trade's URL, the result is True iff the reply is 200, and it raises otherwise. |
| TradeUpdate.SharedFalseIsSent | tradervue.py:273 | A call naming only `shared=False` sends exactly that field. |
| ImportWorkflow.ValidateImport | tradervue.py:306-312 | Validation passes iff the executions are a non-empty list and the tags are absent or a list. Empty input gives ValueError; a value without `len` gives TypeError; a non-list gives ValueError; non-list tags give ValueError. The checks run in that order. |
| ImportWorkflow.WithAccountTag | tradervue.py:320 | The account tag is appended iff absent. The old list is a prefix of the new one, and the members are the old ones plus the tag. |
| ImportWorkflow.WithAccountTagIdempotent | tradervue.py:320 | Injecting the tag twice is the same as injecting it once. |
| ImportWorkflow.InjectedTags | tradervue.py:317-322 | With no account tag the tags are unchanged. With one, the tags are a list containing it: the old list followed by at most the tag, or `[account_tag]` when there were no tags. |
| ImportWorkflow.ImportPayload | tradervue.py:314-322 | The body has exactly the keys executions, allow_duplicates and overlay_commissions, plus account_tag when one is given and tags when there are tags, each holding its argument. |
| ImportWorkflow.PayloadCarriesTags | tradervue.py:314-322 | With an account tag, the body carries the executions, the account tag, and a tag list containing the account tag. |
| ImportWorkflow.ReadSubmitReply | tradervue.py:334-350 | It retries iff the reply is a 424 with an `error` field, and then carries that body. It is queued iff the reply is a 200 with status "queued". It is rejected iff the code is neither 200 nor 424. |
| ImportWorkflow.SubmitAdvance | tradervue.py:331-347 | One busy reply: a POST and a 5-second sleep, after which the loop continues with one attempt fewer and the reply body as the next payload. |
| ImportWorkflow.SubmitSpec | tradervue.py:331-350 | No ensures of its own. SubmitAdvance, SubmitRequests, SubmitBounds, SubmitOnlyPostsAndSleeps, QueuedAfterBusyReplies, SubmitAfterBusyReplies and SubmitAbortsAtOnce state its properties. |
| ImportWorkflow.SubmitRequests | tradervue.py:331-350 | Every attempt is one request, and every attempt but a last one that ends the loop adds a sleep. |
| ImportWorkflow.SubmitBounds | tradervue.py:330-354 | At most import_retries POSTs, and no more sleeps than POSTs. It gives up only after using every attempt, each busy. With no attempts allowed it does nothing. |
| ImportWorkflow.SubmitOnlyPostsAndSleeps | tradervue.py:331-350 | The submission loop makes only POSTs and 5-second sleeps. |
| ImportWorkflow.QueuedAfterBusyReplies | tradervue.py:331-354 | With k busy replies then an accepting one, the import is queued with that reply iff k+1 attempts are allowed; otherwise the loop gives up. |
| ImportWorkflow.SubmitAfterBusyReplies | tradervue.py:331-354 | In that situation the loop makes k+1 POSTs and k sleeps, or, when it gives up, one POST and one sleep per attempt. |
| ImportWorkflow.SubmitAbortsAtOnce | tradervue.py:334-350 | A 200 with another status, or a code other than 200 and 424, ends the loop after that single POST. |
| ImportWorkflow.ImportStatusOf | tradervue.py:289-303 | A non-200 reply gives None. On a 200: a body that is not JSON raises JsonDecodeError; a body without `status` raises KeyError; an unknown status gives None; a known status returns the whole body. A returned payload always comes from a 200 JSON body with a known status. |
| ImportWorkflow.PollSpec | tradervue.py:361-364 | No ensures of its own. PollAdvance, PollRequests, PollPendingOnlyWhenExhausted, PollBounds, PollOnlyGetsAndSleeps, PollKeepsKnown and PollNeverSettles state its properties. |
| ImportWorkflow.PollRequests | tradervue.py:361-364 | Every round of the poll is one sleep and one request. |
| ImportWorkflow.PollPendingOnlyWhenExhausted | tradervue.py:361-364 | The poll hands back a queued or processing status only after making all `retries_left + 1` rounds. |
| ImportWorkflow.PollAdvance | tradervue.py:361-364 | One pending status: a sleep and a status query, after which the loop continues with the new status and one retry fewer. |
| ImportWorkflow.Classify | tradervue.py:366-380 | No ensures of its own. ClassifyOutcome and ClassifyKnown state its properties. |
| ImportWorkflow.ClassifyOutcome | tradervue.py:366-380 | None raises TypeError; a payload without `status` raises KeyError; nothing else raises. The payload is returned iff its status is "succeeded" or "failure". |
| ImportWorkflow.ClassifyKnown | tradervue.py:366-380 | Of the statuses that can reach it, only "succeeded" returns the payload; the others give None. |
| ImportWorkflow.AwaitSpec | tradervue.py:358-380 | No ensures of its own. AwaitRequests, AwaitBounds, AwaitQueuedProcessingSucceeded, AwaitNeverSettles and NegativePauseRaises state its properties. |
| ImportWorkflow.AwaitRequests | tradervue.py:358-364 | Waiting makes the status query and then the requests of the poll. |
| ImportWorkflow.PollBounds | tradervue.py:361-364 | The poll sleeps at most wait_retries+1 times, with one query after each sleep. |
| ImportWorkflow.PollOnlyGetsAndSleeps | tradervue.py:361-364 | The poll makes only status GETs and sleeps of `secs_per_wait_retry`. |
| ImportWorkflow.PollKeepsKnown | tradervue.py:358-364 | The poll ends with a known status or None. It raises only what `import_status` raises, or ValueError from a negative sleep. |
| ImportWorkflow.AwaitBounds | tradervue.py:358-380 | Waiting makes one more query than sleeps, at most wait_retries+1 sleeps, and no POST or PUT. It returns a payload only for "succeeded". |
| ImportWorkflow.AwaitQueuedProcessingSucceeded | tradervue.py:358-371 | With a non-negative pause, replies "queued", "processing", "succeeded" give the succeeded payload after three queries and two sleeps. |
| ImportWorkflow.PollNeverSettles | tradervue.py:361-364 | A status stuck at "processing" is polled until the counter goes below zero; with a negative pause the first sleep raises ValueError instead. |
| ImportWorkflow.AwaitNeverSettles | tradervue.py:358-377 | Stuck at "processing", waiting makes wait_retries+1 sleeps and wait_retries+2 queries and returns None. With a negative pause and wait_retries >= 0 it makes one query and raises ValueError. |
| ImportWorkflow.NegativePauseRaises | tradervue.py:361-363 | A negative `secs_per_wait_retry` with a pending status: one status query, then ValueError from the sleep. |
| ImportWorkflow.Unwaited | tradervue.py:352-382 | No ensures of its own. ImportWithoutWaiting states it: an import that does not wait returns None unless the submission raised. |
| ImportWorkflow.ImportSpec | tradervue.py:326-382 | Without waiting the import returns None or raises. Its other properties are the ImportWithoutWaiting, FirstRequests, ImportBounds and FailedImportNeverReturned rows. |
| ImportWorkflow.ImportWithoutWaiting | tradervue.py:339-382 | When the submission is not queued, or the caller does not wait, the events are the submission's, the import raises iff the submission raised, and otherwise it returns None (lines 339, 350, 354 and 382). |
| ImportWorkflow.FirstRequests | tradervue.py:331-359 | The first attempt POSTs the caller's body, and waiting starts with a status query. |
| ImportWorkflow.ImportBounds | tradervue.py:326-382 | The import makes at most import_retries POSTs and no PUT. It makes status queries only when waiting, and then at most wait_retries+2. It returns a payload only when waiting and the status is "succeeded". |
| ImportWorkflow.FailedImportNeverReturned | tradervue.py:372 | A "failed" import is never returned to the caller. |
| Client.TraderVue.ImportStatus | tradervue.py:289-303 | One status GET; the result is `import_status` of its reply. |
| Client.TagList.constructor | tradervue.py:320 | A caller's tag list starts with the items given. |
| Client.TraderVue.SubmitImport | tradervue.py:329-350 | The loop returns the submission outcome, appends exactly the submission loop's requests and sleeps to the trace, and advances the server's response count by the number of those requests. |
| Client.TraderVue.PollImport | tradervue.py:358-364 | The polling loop returns the last status, appends exactly the poll's queries and sleeps, and advances the response count by the number of queries. |
| Client.TraderVue.AwaitImport | tradervue.py:355-380 | Waiting returns the classification of the last status, appends exactly the specified events, and advances the response count by the number of requests among them. |
| Client.TraderVue.PostImport | tradervue.py:326-382 | `__import_executions` returns and records exactly what the import specification gives, and the response count grows by its number of requests. |
| Client.TraderVue.ImportExecutions | tradervue.py:305-324 | Invalid arguments raise before any request and leave the server untouched. The caller's tag list gains the account tag iff the call is valid and an account tag is given. The result, events and response count are those of importing the built body. |
| Client.TraderVue.FetchPage | tradervue.py:207-219 | One GET of the trades resource; the page is read from its reply. |
| Client.TraderVue.FetchPages | tradervue.py:186-200 | The page loop returns and requests exactly what the page-loop specification gives, and the response count grows by one per page fetched. |
| Client.TraderVue.GetTrades | tradervue.py:155-205 | `get_trades` returns, warns and requests exactly what the listing specification gives, and the response count grows by its number of requests. |
| Client.TraderVue.UpdateTrade | tradervue.py:267-287 | `update_trade` returns and requests exactly what the update specification gives, and the response count grows by one iff a PUT was sent. |
| Findings.RetryPostsErrorBody | tradervue.py:344-347 | After a busy reply, the second POST sends the busy reply's body. |
| Findings.SubmitIntended | tradervue.py:331-350 | In the submission loop as intended, every POST carries the caller's batch. |
| Findings.SubmitIntendedSameOutcome | tradervue.py:331-350 | Given the same sequence of replies, the intended loop has the same outcome and number of events as the loop as written. |
| Findings.FailedStatusDropped | tradervue.py:372 | A "failed" status is classified as None. |
| Findings.LostStatusCrashes | tradervue.py:359-366 | An HTTP error on the status query makes waiting raise TypeError. |
| Findings.ClassifyIntended | tradervue.py:366-380 | The payload is returned iff the status is "succeeded" or "failed"; a lost status gives None. |
| Findings.ClassifyIntendedAgrees | tradervue.py:366-380 | The correction changes only the "failed"/"failure" cases. |
| Findings.AwaitIntended | tradervue.py:358-380 | No ensures of its own. AwaitIntendedOutcome states its properties. |
| Findings.AwaitIntendedOutcome | tradervue.py:358-380 | Waiting as intended returns only final statuses and never raises TypeError; a lost status gives None. |
| Findings.RejectedUpdateRaises | tradervue.py:286 | With fields to change, a non-200 reply raises TypeError. |
| Findings.UpdateTradeIntended | tradervue.py:267-287 | `update_trade` as intended returns True iff fields were given and the reply is 200, and makes at most one request. |
| Findings.UpdateIntendedAgrees | tradervue.py:267-287 | The correction makes the same request as the code as written. It returns what that returns whenever it returns, and False where it raises. |

## Left out

- HTTP itself is not modelled: URLs, headers, authentication, the `Tradervue-UserId` header and `verbose_http` logging. Requests are events with an endpoint and a body or parameters.
- JSON is not modelled as text. A response carries its decoded body, or `NotJson`.
- A top-level JSON reply that is not an object is not modelled: the code would index a list or string.
- TradeQuery.PageOf: a `trades` value that is a non-empty JSON object is modelled as raising TypeError, whereas Python extends the list with the object's keys; maps do not keep key order. An empty object is modelled exactly: length 0, which ends the loop.
- `import_status` is called with `params=None`; the model records this as an empty parameter map.
- Log messages, their text and their colour codes are not modelled. `__handle_bad_http_response` is modelled as the report it would log (`Interpreter.BadResponse`); the client methods do not thread that report through the trace.
- Time stamps in the log formatter are not modelled, nor `strftime`: dates come in as formatted strings.
- TradeQuery.TotalPages: computes the integer ceiling in place of Python's floating-point `math.ceil(max_trades / 100.0)`, so it does not capture floating-point rounding for very large `max_trades`.
- TradeFilters.NormalizeSide: case folding covers ASCII only, because Unicode case folding is not modelled (`re.IGNORECASE` also matches, e.g., the Kelvin sign for "k"). NormalizeDuration has the same limit.
- TradeFilters.IsSpace: covers `\s` on the ASCII and Latin-1 range only.
- ImportWorkflow.WithAccountTag: uses structural equality of values, not Python's `==`, for which `1 == True`.
- Executions passed as a tuple or other non-list sequence are modelled as `JObject`/`JString` values with a `len`. They take the same ValueError path.
- `copy.deepcopy` is not modelled: values are immutable in the model, so the copies of executions and tags are the values themselves.
- Client.TraderVue.FetchPages: builds each page's parameters from the base filters instead of updating one dict in place; `TradeQuery.RequeryOverrides` proves the two equal.
- Transport.ScriptedServer.Sleep: delays are integers. Python's `time.sleep` also takes float seconds, and a float `secs_per_wait_retry` is not modelled.
- Defaulted arguments are explicit parameters of the model: `import_executions` defaults to import_retries=3, wait_for_completion=False, wait_retries=3 and secs_per_wait_retry=15, and `get_trades` to max_trades=25. The model does not supply these defaults itself.
- `create_trade`, `delete_trade(s)`, `get_trade`, `get_trade_executions`, `get_trade_comments`, users and the other simple getters are not part of this model.

## Findings

| source | as written | input that shows it | evidently intended | confidence | as-written member | corrected member |
|---|---|---|---|---|---|---|
| tradervue.py:345 | after a 424 reply, `data` is rebound to the reply's body and the next attempt POSTs that body | import_retries = 2; the first reply is 424 `{"error": "busy"}` → the second POST sends `{"error": "busy"}` | re-POST the same batch of executions | high (not executed) | Findings.RetryPostsErrorBody | Findings.SubmitIntended |
| tradervue.py:372 | compares with "failure", a status `import_status` never passes; the status it passes is "failed" | waiting; the status query returns `{"status": "failed"}` → None | return the payload of a failed import, as the log message "Import had some failures" says | high (not executed) | Findings.FailedStatusDropped | Findings.ClassifyIntended |
| tradervue.py:366 | when the last status query fails, `import_status` returns None and `data['status']` raises TypeError | waiting; the first status query gets HTTP 500 → TypeError | report the failure and return None, as every other error path does | medium (not executed) | Findings.LostStatusCrashes | Findings.ClassifyIntended |
| tradervue.py:286 | the message has one `%s` and two arguments, so the formatting raises TypeError | update_trade(1, notes="x"); the server answers 500 → TypeError | log the bad response and return False | high (not executed) | Findings.RejectedUpdateRaises | Findings.UpdateTradeIntended |
