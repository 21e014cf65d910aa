// The HTTP transport and `time.sleep`, replaced by a scripted server that
// answers the i-th request with the i-th scripted response and records every
// request and every sleep.

module Transport {
  import opened Wire

  class ScriptedServer {
    /** The response the server gives to each request, by arrival order. */
    const script: nat -> Response
    /** Every request sent and every sleep taken so far, oldest first. */
    var trace: seq<Event>
    /** The number of responses handed out so far: the position of the next one. */
    var served: nat

    constructor (script: nat -> Response)
      ensures this.script == script && trace == [] && served == 0
    {
      this.script := script;
      trace := [];
      served := 0;
    }

    method Post(endpoint: Endpoint, payload: JValue) returns (r: Response)
      modifies this
      ensures r == script(old(served))
      ensures trace == old(trace) + [HttpPost(endpoint, payload)]
      ensures served == old(served) + 1
    {
      r := script(served);
      Record(HttpPost(endpoint, payload));
    }

    method Get(endpoint: Endpoint, params: Obj) returns (r: Response)
      modifies this
      ensures r == script(old(served))
      ensures trace == old(trace) + [HttpGet(endpoint, params)]
      ensures served == old(served) + 1
    {
      r := script(served);
      Record(HttpGet(endpoint, params));
    }

    method Put(endpoint: Endpoint, payload: JValue) returns (r: Response)
      modifies this
      ensures r == script(old(served))
      ensures trace == old(trace) + [HttpPut(endpoint, payload)]
      ensures served == old(served) + 1
    {
      r := script(served);
      Record(HttpPut(endpoint, payload));
    }

    /** `time.sleep(secs)`: only the delay asked for is recorded. A negative
        delay raises ValueError before any sleeping. */
    method Sleep(secs: int) returns (failure: Option<Exception>)
      modifies this
      ensures failure == if secs < 0 then Some(ValueError(NegativeSleep)) else None
      ensures trace == old(trace) + if secs < 0 then [] else [Slept(secs)]
      ensures served == old(served)
    {
      if secs < 0 {
        return Some(ValueError(NegativeSleep));
      }
      Record(Slept(secs));
      failure := None;
    }

    method Record(e: Event)
      modifies this
      ensures trace == old(trace) + [e]
      ensures served == old(served) + if KindOf(e) == SleepKind then 0 else 1
    {
      trace := trace + [e];
      served := served + if KindOf(e) == SleepKind then 0 else 1;
    }
  }
}
