/** The admission counter of app/core/request_limiter.py: a middleware that
    lets at most `max_concurrent` clip-generation requests run at once and
    turns the rest away with 503.  The lock makes admission and release
    atomic, which is how the model treats them; the downstream handler is the
    function `callNext`, which is also given the counter as it stands while
    it runs; its `Err` outcome stands for an exception. */
module RequestLimiter {
  import opened Common

  datatype Request = Request(verb: string, url: string)

  datatype Response = Response(status: int, headers: map<string, string>, body: map<string, string>)

  /** The ceiling of the global instance and of the constructor's default. */
  const DEFAULT_MAX_CONCURRENT: nat := 2

  /** Only POST requests whose URL mentions "/generate-clips" are counted. */
  predicate IsLimited(r: Request)
  {
    r.verb == "POST" && Contains(r.url, "/generate-clips")
  }

  /** The rejection sent when the ceiling is reached. */
  function BusyResponse(): (r: Response)
    ensures r.status == 503 && r.headers == map["Retry-After" := "30"]
  {
    Response(503, map["Retry-After" := "30"],
      map["error" := "Server busy", "message" := "Too many concurrent requests"])
  }

  class ConcurrentRequestLimiter {
    const maxConcurrent: nat
    var activeRequests: int

    ghost predicate Valid()
      reads this
    {
      0 <= activeRequests <= maxConcurrent
    }

    constructor (maxConcurrent: nat := DEFAULT_MAX_CONCURRENT)
      ensures Valid()
      ensures this.maxConcurrent == maxConcurrent && activeRequests == 0
    {
      this.maxConcurrent := maxConcurrent;
      activeRequests := 0;
    }

    /** The locked check-and-increment: admits iff a slot is free, and then
        takes exactly one. */
    method TryAdmit() returns (admitted: bool)
      requires Valid()
      modifies this
      ensures Valid()
      ensures admitted <==> old(activeRequests) < maxConcurrent
      ensures activeRequests == if admitted then old(activeRequests) + 1 else old(activeRequests)
    {
      if activeRequests >= maxConcurrent {
        return false;
      }
      activeRequests := activeRequests + 1;
      admitted := true;
    }

    /** The locked decrement of the `finally` block; only an admitted request
        releases, so a slot is held. */
    method Release()
      requires Valid() && activeRequests >= 1
      modifies this
      ensures Valid()
      ensures activeRequests == old(activeRequests) - 1
    {
      activeRequests := activeRequests - 1;
    }

    /** `__call__`: a limited request is rejected with 503 when every slot is
        taken, and otherwise holds a slot while the handler runs and gives it
        back whether the handler returns or raises; every other request goes
        straight to the handler.  The handler is given the counter as it
        stands while it runs, so an admitted request is seen running with its
        own slot taken; afterwards the counter is back where it began and the
        outcome is the handler's own. */
    method Call(request: Request, callNext: (Request, int) -> Result<Response>) returns (outcome: Result<Response>)
      requires Valid()
      modifies this
      ensures Valid()
      ensures activeRequests == old(activeRequests)
      ensures IsLimited(request) && old(activeRequests) >= maxConcurrent ==> outcome == Ok(BusyResponse())
      ensures IsLimited(request) && old(activeRequests) < maxConcurrent ==> outcome == callNext(request, old(activeRequests) + 1)
      ensures !IsLimited(request) ==> outcome == callNext(request, old(activeRequests))
    {
      if request.verb == "POST" && Contains(request.url, "/generate-clips") {
        var admitted := TryAdmit();
        if !admitted {
          return Ok(BusyResponse());
        }
        outcome := callNext(request, activeRequests);
        Release();
      } else {
        outcome := callNext(request, activeRequests);
      }
    }
  }

  /** The global instance, `request_limiter`, built with a ceiling of 2: two
      requests are admitted while they run, a third concurrent one is turned
      away, and once one of the two finishes the next is admitted again. */
  method ThirdRequestWaits() returns (first: bool, second: bool, third: bool, afterRelease: bool)
    ensures first && second
    ensures !third
    ensures afterRelease
  {
    var limiter := new ConcurrentRequestLimiter();
    first := limiter.TryAdmit();
    second := limiter.TryAdmit();
    third := limiter.TryAdmit();
    limiter.Release();
    afterRelease := limiter.TryAdmit();
  }
}
