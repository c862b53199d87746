/** The middleware chain (`src/core/middleware/mod.rs`) and the chain that
    `build_middleware_chain` (`src/core/gateway.rs`) assembles: logging, authentication, rate limit. */
module MiddlewareChain {
  import opened Text
  import opened Auth
  import opened RateLimiter

  const SECOND := 1_000_000_000
  const U32 := 0x1_0000_0000

  /** The JSON settings of the rate limiter; a missing value takes its default. */
  datatype LimitConfig = LimitConfig(enabled: bool, requestsPerWindow: Option<nat>, windowSecs: Option<nat>) {
    /** `as u32` keeps the low 32 bits. */
    function Limit(): nat {
      (match requestsPerWindow case Some(n) => n case None => 100) % U32
    }
    function Window(): nat {
      SECOND * match windowSecs case Some(n) => n case None => 60
    }
  }

  datatype Middleware =
    | Logging(enabled: bool)
    | Authenticator(auth: AuthConfig)
    | Limiter(cfg: LimitConfig, limits: Table)

  datatype Response = Response(status: nat, headers: seq<Header>)

  function ClientKey(request: Request): Key {
    match request.remoteAddr case Some(a) => a case None => "global"
  }

  /** `Middleware::handle_request`, with the middleware's state afterwards. */
  function Handle(m: Middleware, request: Request, now: nat): (Middleware, Result<Request>) {
    match m
    case Logging(_) => (m, Ok(request))
    case Authenticator(auth) => (m, Authenticate(auth, request))
    case Limiter(cfg, limits) =>
      if !cfg.enabled then (m, Ok(request))
      else
        var (limits', limited) := Step(limits, Call(ClientKey(request), now), cfg.Limit(), cfg.Window());
        (Limiter(cfg, limits'), if limited then Err(RateLimited) else Ok(request))
  }

  /** The chain: stops at the first refusal, which leaves the later middlewares untouched. */
  function HandleAll(ms: seq<Middleware>, request: Request, now: nat): (seq<Middleware>, Result<Request>) {
    if ms == [] then ([], Ok(request))
    else
      var (m, r) := Handle(ms[0], request, now);
      match r
      case Err(e) => ([m] + ms[1..], Err(e))
      case Ok(request') =>
        var (rest, r') := HandleAll(ms[1..], request', now);
        ([m] + rest, r')
  }

  /** The limiter's settings spelled out: 100 requests and 60 seconds unless configured otherwise, the
      limit cut to 32 bits, the window in nanoseconds, and one shared bucket for unknown clients. */
  lemma LimitSettings(cfg: LimitConfig, request: Request)
    ensures cfg.requestsPerWindow == None ==> cfg.Limit() == 100
    ensures forall n: nat :: cfg.requestsPerWindow == Some(n) && n < 4_294_967_296 ==> cfg.Limit() == n
    ensures cfg.requestsPerWindow == Some(4_294_967_296) ==> cfg.Limit() == 0
    ensures cfg.windowSecs == None ==> cfg.Window() == 60_000_000_000
    ensures forall n: nat :: cfg.windowSecs == Some(n) ==> cfg.Window() == n * 1_000_000_000
    ensures ClientKey(request) == if request.remoteAddr.Some? then request.remoteAddr.value else "global"
  {
  }

  /** No middleware alters the request it lets through. */
  lemma PassedUnchanged(m: Middleware, request: Request, now: nat)
    ensures Handle(m, request, now).1.Err? || Handle(m, request, now).1 == Ok(request)
  {
    hide Step, AuthRule;
    if m.Authenticator? {
      AuthenticateSpec(m.auth, request);
    }
  }

  /** For any chain: if every middleware lets the request through it comes out unchanged; otherwise the
      first that refuses decides, those before it have handled the request and those after it have not
      seen it. */
  lemma {:induction false} FirstRefusalDecides(ms: seq<Middleware>, request: Request, now: nat)
    ensures var (ms', r) := HandleAll(ms, request, now);
            && |ms'| == |ms|
            && (r.Ok? ==> r.value == request
                          && forall i :: 0 <= i < |ms| ==> Handle(ms[i], request, now) == (ms'[i], Ok(request)))
            && (r.Err? ==> exists k :: RefusedAt(ms, ms', request, now, k, r.error))
  {
    hide Handle;
    if ms != [] {
      var rest := ms[1..];
      FirstRefusalDecides(rest, request, now);
      PassedUnchanged(ms[0], request, now);
      var (ms', r) := HandleAll(ms, request, now);
      if Handle(ms[0], request, now).1.Err? {
        assert RefusedAt(ms, ms', request, now, 0, r.error);
      } else {
        var (rest', r') := HandleAll(rest, request, now);
        assert ms' == [Handle(ms[0], request, now).0] + rest' && r == r';
        if r.Err? {
          var k :| RefusedAt(rest, rest', request, now, k, r.error);
          RefusedLater(ms, ms', request, now, k, r.error);
        }
      }
    }
  }

  ghost predicate RefusedAt(ms: seq<Middleware>, ms': seq<Middleware>, request: Request, now: nat, k: int, e: Error) {
    && 0 <= k < |ms| == |ms'|
    && (forall i :: 0 <= i < k ==> Handle(ms[i], request, now) == (ms'[i], Ok(request)))
    && Handle(ms[k], request, now) == (ms'[k], Err(e))
    && (forall i :: k < i < |ms| ==> ms'[i] == ms[i])
  }

  lemma RefusedLater(ms: seq<Middleware>, ms': seq<Middleware>, request: Request, now: nat, k: int, e: Error)
    requires ms != [] && ms' != [] && Handle(ms[0], request, now) == (ms'[0], Ok(request))
    requires RefusedAt(ms[1..], ms'[1..], request, now, k, e)
    ensures RefusedAt(ms, ms', request, now, k + 1, e)
  {
    hide Handle;
    var rest, rest' := ms[1..], ms'[1..];
    assert forall i :: 0 < i < |ms| ==> ms[i] == rest[i - 1];
    assert forall i :: 0 < i < |ms'| ==> ms'[i] == rest'[i - 1];
  }

  lemma HandleFirst(m: Middleware, rest: seq<Middleware>, request: Request, now: nat)
    ensures var (m', r) := Handle(m, request, now);
            HandleAll([m] + rest, request, now) ==
              if r.Err? then ([m'] + rest, Err(r.error))
              else ([m'] + HandleAll(rest, r.value, now).0, HandleAll(rest, r.value, now).1)
  {
    var ms := [m] + rest;
    assert ms != [] && ms[0] == m && ms[1..] == rest;
  }

  lemma Reassociate(a: seq<Middleware>, m: Middleware, b: seq<Middleware>)
    ensures a + ([m] + b) == (a + [m]) + b
  {
  }

  /** `Middleware::handle_response`: every middleware of the gateway passes the response on. */
  function HandleResponse(m: Middleware, response: Response): Result<Response> {
    Ok(response)
  }

  class Chain {
    var middlewares: seq<Middleware>

    constructor ()
      ensures middlewares == []
    {
      middlewares := [];
    }

    method Add(m: Middleware)
      modifies this
      ensures middlewares == old(middlewares) + [m]
    {
      middlewares := middlewares + [m];
    }

    /** `MiddlewareChain::handle_request`: the loop over the middlewares. */
    method HandleRequest(request: Request, now: nat) returns (r: Result<Request>)
      modifies this
      ensures (middlewares, r) == HandleAll(old(middlewares), request, now)
    {
      hide Handle;
      var current := request;
      ghost var start := middlewares;
      assert start[0..] == start;
      assert middlewares[..0] + HandleAll(start, request, now).0 == HandleAll(start, request, now).0;
      var i := 0;
      while i < |middlewares|
        invariant 0 <= i <= |middlewares| == |start|
        invariant middlewares[i..] == start[i..]
        invariant HandleAll(start, request, now) ==
                  (middlewares[..i] + HandleAll(start[i..], current, now).0, HandleAll(start[i..], current, now).1)
      {
        var (m, outcome) := Handle(middlewares[i], current, now);
        ghost var done := middlewares[..i];
        assert start[i..] == [middlewares[i]] + start[i + 1..];
        HandleFirst(middlewares[i], start[i + 1..], current, now);
        middlewares := middlewares[i := m];
        assert middlewares[..i + 1] == done + [m] && middlewares[i + 1..] == start[i + 1..];
        if outcome.Err? {
          assert middlewares == middlewares[..i + 1] + middlewares[i + 1..];
          Reassociate(done, m, start[i + 1..]);
          return Err(outcome.error);
        }
        current := outcome.value;
        Reassociate(done, m, HandleAll(start[i + 1..], current, now).0);
        i := i + 1;
      }
      assert start[i..] == [] && middlewares[..i] + [] == middlewares;
      return Ok(current);
    }

    /** `MiddlewareChain::handle_response`: the reversed loop hands the response through unchanged. */
    method FinishResponse(response: Response) returns (r: Result<Response>)
      ensures r == Ok(response)
    {
      var current := response;
      var i := |middlewares|;
      while i > 0
        invariant 0 <= i <= |middlewares|
        invariant current == response
      {
        i := i - 1;
        var outcome := HandleResponse(middlewares[i], current);
        if outcome.Err? {
          return outcome;
        }
        current := outcome.value;
      }
      return Ok(current);
    }
  }

  // ----- the gateway's chain -----

  datatype ChainConfig = ChainConfig(logging: bool, auth: AuthConfig, limit: LimitConfig)

  /** `build_middleware_chain`, with the limiter's table as it stands. */
  function Built(cfg: ChainConfig, limits: Table): seq<Middleware> {
    [Logging(cfg.logging), Authenticator(cfg.auth), Limiter(cfg.limit, limits)]
  }

  /** One request through the built chain: the outcome and the limiter's table. */
  lemma BuiltStep(cfg: ChainConfig, limits: Table, request: Request, now: nat)
    ensures var (ms, r) := HandleAll(Built(cfg, limits), request, now);
            var c := Call(ClientKey(request), now);
            var (limits', limited) := Step(limits, c, cfg.limit.Limit(), cfg.limit.Window());
            if !AuthRule(cfg.auth, request) then ms == Built(cfg, limits) && r.Err? && r.error.Unauthorized?
            else if !cfg.limit.enabled then ms == Built(cfg, limits) && r == Ok(request)
            else ms == Built(cfg, limits') && r == if limited then Err(RateLimited) else Ok(request)
  {
    hide Step, AuthRule, Authenticate;
    var limiter := Limiter(cfg.limit, limits);
    AuthenticateSpec(cfg.auth, request);
    HandleFirst(limiter, [], request, now);
    HandleFirst(Authenticator(cfg.auth), [limiter], request, now);
    HandleFirst(Logging(cfg.logging), [Authenticator(cfg.auth), limiter], request, now);
    BuiltParts(cfg, limits);
  }

  lemma BuiltParts(cfg: ChainConfig, limits: Table)
    ensures [Limiter(cfg.limit, limits)] + [] == [Limiter(cfg.limit, limits)]
    ensures [Authenticator(cfg.auth)] + [Limiter(cfg.limit, limits)] ==
            [Authenticator(cfg.auth), Limiter(cfg.limit, limits)]
    ensures Built(cfg, limits) == [Logging(cfg.logging)] + [Authenticator(cfg.auth), Limiter(cfg.limit, limits)]
  {
  }

  // ----- whole runs -----

  datatype Arrival = Arrival(request: Request, now: nat)

  ghost predicate InOrder(arrivals: seq<Arrival>) {
    forall i, j :: 0 <= i < j < |arrivals| ==> arrivals[i].now <= arrivals[j].now
  }

  /** The chain and the outcomes after a run of requests. */
  function Serve(cfg: ChainConfig, arrivals: seq<Arrival>): (r: (seq<Middleware>, seq<Result<Request>>))
    ensures |r.1| == |arrivals|
  {
    if arrivals == [] then (Built(cfg, map[]), [])
    else
      var n := |arrivals| - 1;
      var (ms, outcomes) := Serve(cfg, arrivals[..n]);
      var (ms', r) := HandleAll(ms, arrivals[n].request, arrivals[n].now);
      (ms', outcomes + [r])
  }

  /** The declarative rule for one more request, given everything accepted so far. */
  ghost predicate Accepts(cfg: ChainConfig, accepted: History, a: Arrival) {
    && AuthRule(cfg.auth, a.request)
    && (cfg.limit.enabled ==>
         Within(Times(accepted, ClientKey(a.request)), a.now - cfg.limit.Window(), a.now) < cfg.limit.Limit())
  }

  /** The accepted requests of a run, by the declarative rule. */
  ghost function Accepted(cfg: ChainConfig, arrivals: seq<Arrival>): History {
    if arrivals == [] then []
    else
      var n := |arrivals| - 1;
      var earlier := Accepted(cfg, arrivals[..n]);
      if Accepts(cfg, earlier, arrivals[n]) then earlier + [Call(ClientKey(arrivals[n].request), arrivals[n].now)]
      else earlier
  }

  function LastArrival(arrivals: seq<Arrival>): nat {
    if arrivals == [] then 0 else arrivals[|arrivals| - 1].now
  }

  /** The outcome the rule prescribes: the refusal names the first middleware that objects. */
  ghost predicate Prescribed(cfg: ChainConfig, accepted: History, a: Arrival, r: Result<Request>) {
    if Accepts(cfg, accepted, a) then r == Ok(a.request)
    else if AuthRule(cfg.auth, a.request) then r == Err(RateLimited)
    else r.Err? && r.error.Unauthorized?
  }

  /** Over every run the chain accepts exactly the requests that satisfy the authentication rule and
      whose client has fewer than `limit` *accepted* requests in the window ending now; so the
      limiter's budget counts the accepted requests and nothing else, and a request refused by
      authentication costs none of it. */
  lemma {:induction false} ChainDecides(cfg: ChainConfig, arrivals: seq<Arrival>) returns (limits: Table)
    requires InOrder(arrivals)
    ensures forall i :: 0 <= i < |arrivals| ==>
              Prescribed(cfg, Accepted(cfg, arrivals[..i]), arrivals[i], Serve(cfg, arrivals).1[i])
    ensures Serve(cfg, arrivals).0 == Built(cfg, limits)
    ensures cfg.limit.enabled ==>
              Remembers(limits, Accepted(cfg, arrivals), LastArrival(arrivals), cfg.limit.Window())
    ensures Before(Accepted(cfg, arrivals), LastArrival(arrivals))
  {
    hide Step, HandleAll, AuthRule, Times, Within, Remembers, Built, Accepts, Prescribed;
    limits := map[];
    if arrivals == [] {
      NothingRemembered(cfg.limit.Window());
    } else {
      var n := |arrivals| - 1;
      var a := arrivals[n];
      var earlier := Accepted(cfg, arrivals[..n]);
      var before := ChainDecides(cfg, arrivals[..n]);
      assert LastArrival(arrivals[..n]) <= a.now;
      limits := DecideOne(cfg, before, earlier, LastArrival(arrivals[..n]), a);
      var r := HandleAll(Built(cfg, before), a.request, a.now).1;
      var outcomes, all := Serve(cfg, arrivals[..n]).1, Serve(cfg, arrivals).1;
      assert all == outcomes + [r];
      forall i | 0 <= i < |arrivals|
        ensures Prescribed(cfg, Accepted(cfg, arrivals[..i]), arrivals[i], Serve(cfg, arrivals).1[i])
      {
        if i < n {
          assert arrivals[..n][..i] == arrivals[..i] && arrivals[..n][i] == arrivals[i] && all[i] == outcomes[i];
        } else {
          assert all[n] == r;
        }
      }
    }
  }

  lemma NothingRemembered(window: nat)
    ensures Remembers(map[], [], 0, window)
  {
  }

  lemma DecideOne(cfg: ChainConfig, before: Table, earlier: History, clock: nat, a: Arrival) returns (after: Table)
    requires cfg.limit.enabled ==> Remembers(before, earlier, clock, cfg.limit.Window())
    requires Before(earlier, clock) && clock <= a.now
    ensures var (ms, r) := HandleAll(Built(cfg, before), a.request, a.now);
            var c := Call(ClientKey(a.request), a.now);
            var now := if Accepts(cfg, earlier, a) then earlier + [c] else earlier;
            && ms == Built(cfg, after)
            && Prescribed(cfg, earlier, a, r)
            && (cfg.limit.enabled ==> Remembers(after, now, a.now, cfg.limit.Window()))
            && Before(now, a.now)
  {
    hide Step, HandleAll, AuthRule, Times, Within, Prune, Stored, Built;
    var c, limit, window := Call(ClientKey(a.request), a.now), cfg.limit.Limit(), cfg.limit.Window();
    BuiltStep(cfg, before, a.request, a.now);
    after := before;
    if cfg.limit.enabled {
      if AuthRule(cfg.auth, a.request) {
        StepRefines(before, earlier, clock, c, limit, window);
        after := Step(before, c, limit, window).0;
      } else {
        forall k ensures Prune(Stored(before, k), a.now, window) == Prune(Times(earlier, k), a.now, window) {
          RemembersLater(before, earlier, clock, a.now, window, k);
        }
      }
    }
  }

  // ----- retry-after -----

  /** `rate_limit_window_secs`: the first enabled middleware whose settings have `window_secs`. */
  function RetryWindow(ms: seq<Middleware>): Option<nat> {
    if ms == [] then None
    else
      match ms[0]
      case Limiter(cfg, _) => if cfg.enabled && cfg.windowSecs.Some? then cfg.windowSecs else RetryWindow(ms[1..])
      case _ => RetryWindow(ms[1..])
  }

  /** A request the built chain refuses with `RateLimited` is told to wait for the configured window. */
  lemma RetryAfterIsWindow(cfg: ChainConfig, limits: Table, request: Request, now: nat)
    requires HandleAll(Built(cfg, limits), request, now).1 == Err(RateLimited)
    ensures cfg.limit.enabled && RetryWindow(Built(cfg, limits)) == cfg.limit.windowSecs
  {
    BuiltStep(cfg, limits, request, now);
    hide HandleAll;
    var limiter := Limiter(cfg.limit, limits);
    var tail := [Authenticator(cfg.auth), limiter];
    assert Built(cfg, limits)[1..] == tail && tail[1..] == [limiter] && [limiter][1..] == [];
    assert RetryWindow([limiter]) ==
           if cfg.limit.enabled && cfg.limit.windowSecs.Some? then cfg.limit.windowSecs else None;
    assert RetryWindow(tail) == RetryWindow([limiter]);
  }
}
