// Values, responses and the request trace shared by the whole model of the
// Tradervue REST client.

module Wire {

  /** A decoded JSON value. It also stands for the Python values the client
      receives as arguments: JNull plays the part of Python's None. */
  datatype JValue =
    | JNull
    | JBool(b: bool)
    | JInt(i: int)
    | JString(s: string)
    | JArray(items: seq<JValue>)
    | JObject(fields: map<string, JValue>)

  /** A decoded JSON object, that is, a Python dict with string keys. */
  type Obj = map<string, JValue>

  /** A response body as the client's `json.loads` sees it. */
  datatype Body = Parsed(obj: Obj) | NotJson

  /** An HTTP response: status code, raw text and decoded body. */
  datatype Response = Response(code: int, text: string, body: Body)

  /** The resources below the `/api/v1` base URL that the modelled calls use. */
  datatype Endpoint = Imports | Trades | Trade(id: string)

  /** What the client did, in order: an HTTP request or a `time.sleep`. */
  datatype Event =
    | HttpPost(endpoint: Endpoint, payload: JValue)
    | HttpGet(endpoint: Endpoint, params: Obj)
    | HttpPut(endpoint: Endpoint, payload: JValue)
    | Slept(secs: int)

  datatype Kind = PostKind | GetKind | PutKind | SleepKind

  function KindOf(e: Event): Kind {
    match e
    case HttpPost(_, _) => PostKind
    case HttpGet(_, _) => GetKind
    case HttpPut(_, _) => PutKind
    case Slept(_) => SleepKind
  }

  /** The number of events of kind `k` in `t`. */
  function Count(t: seq<Event>, k: Kind): (n: nat)
    ensures n <= |t|
  {
    if t == [] then 0
    else (if KindOf(t[0]) == k then 1 else 0) + Count(t[1..], k)
  }

  lemma {:induction false} CountAppend(a: seq<Event>, b: seq<Event>, k: Kind)
    ensures Count(a + b, k) == Count(a, k) + Count(b, k)
  {
    if a == [] {
      assert a + b == b;
    } else {
      assert (a + b)[0] == a[0];
      assert (a + b)[1..] == a[1..] + b;
      CountAppend(a[1..], b, k);
    }
  }

  /** 1 if `e` is of kind `k`, else 0. */
  function Ind(e: Event, k: Kind): nat {
    if KindOf(e) == k then 1 else 0
  }

  /** The count of a two-event prefix followed by `rest`. */
  lemma CountPairThen(a: Event, b: Event, rest: seq<Event>, k: Kind)
    ensures Count([a, b] + rest, k) == Ind(a, k) + Ind(b, k) + Count(rest, k)
  {
    assert ([a, b] + rest)[1..] == [b] + rest;
    assert ([b] + rest)[1..] == rest;
  }

  /** The count of a one-event prefix followed by `rest`. */
  lemma CountOneThen(a: Event, rest: seq<Event>, k: Kind)
    ensures Count([a] + rest, k) == Ind(a, k) + Count(rest, k)
  {
    assert ([a] + rest)[1..] == rest;
  }

  /** The number of HTTP requests in `t`, that is, of responses consumed. */
  function Requests(t: seq<Event>): (n: nat)
    ensures n <= |t|
  {
    if t == [] then 0
    else (if t[0].Slept? then 0 else 1) + Requests(t[1..])
  }

  /** Requests are the events of the three request kinds. */
  lemma {:induction false} RequestsByKind(t: seq<Event>)
    ensures Requests(t) == Count(t, PostKind) + Count(t, GetKind) + Count(t, PutKind)
  {
    if t != [] {
      RequestsByKind(t[1..]);
    }
  }

  /** Appending to a trace in two steps is appending the two parts at once. */
  lemma AppendTwice(t: seq<Event>, a: seq<Event>, b: seq<Event>)
    ensures t + a + b == t + (a + b)
  {
  }

  /** Appending nothing leaves a trace as it was. */
  lemma AppendNothing(t: seq<Event>)
    ensures t + [] == t
  {
  }

  /** Recording two events one after the other appends the pair. */
  lemma AppendPair(t: seq<Event>, a: Event, b: Event)
    ensures t + [a] + [b] == t + [a, b]
  {
  }

  /** Requests of a trace made of two parts are those of each part. */
  lemma {:induction false} RequestsAppend(a: seq<Event>, b: seq<Event>)
    ensures Requests(a + b) == Requests(a) + Requests(b)
  {
    if a == [] {
      assert a + b == b;
    } else {
      assert (a + b)[0] == a[0];
      assert (a + b)[1..] == a[1..] + b;
      RequestsAppend(a[1..], b);
    }
  }

  /** One event in front of `rest` adds one request unless it is a sleep. */
  lemma RequestsOneThen(a: Event, rest: seq<Event>)
    ensures Requests([a] + rest) == Requests(rest) + if a.Slept? then 0 else 1
  {
    assert ([a] + rest)[1..] == rest;
  }

  /** Two events in front of `rest`. */
  lemma RequestsPairThen(a: Event, b: Event, rest: seq<Event>)
    ensures Requests([a, b] + rest) == Requests(rest) + (if a.Slept? then 0 else 1) + (if b.Slept? then 0 else 1)
  {
    assert ([a, b] + rest)[1..] == [b] + rest;
    assert ([b] + rest)[1..] == rest;
  }

  /** The `j`-th response counted from position `next` of a script. */
  function Reply(script: nat -> Response, next: nat, j: nat): Response {
    script(next + j)
  }

  /** Kinds of invalid caller input, each raised as a Python ValueError. */
  datatype Invalid = EmptyExecutions | ExecutionsNotList | TagsNotList | BadSide | BadDuration | NegativeSleep

  /** The Python exceptions that escape the modelled operations. */
  datatype Exception =
    | ValueError(why: Invalid)
    | JsonDecodeError
    | KeyError(key: string)
    | TypeError

  /** A Python call either returns a value or raises an exception. */
  datatype Outcome<+T> = Return(value: T) | Raise(exc: Exception)

  datatype Option<+T> = None | Some(value: T)

  /** A result together with the events that produced it. */
  datatype Run<+T> = Run(result: T, events: seq<Event>) {
    function After(earlier: seq<Event>): Run<T> {
      Run(result, earlier + events)
    }
  }

  /** Prefixing events in two steps is prefixing their concatenation. */
  lemma AfterAfter<T>(run: Run<T>, first: seq<Event>, second: seq<Event>)
    ensures run.After(second).After(first) == run.After(first + second)
  {
    assert first + (second + run.events) == (first + second) + run.events;
  }

  function Max0(x: int): nat {
    if x > 0 then x else 0
  }

  /** Python truthiness of a value. */
  predicate Truthy(v: JValue) {
    match v
    case JNull => false
    case JBool(b) => b
    case JInt(i) => i != 0
    case JString(s) => s != ""
    case JArray(items) => items != []
    case JObject(fields) => fields != map[]
  }
}
