/** `handle_request` and its transport helpers (`src/core/gateway.rs`): a decision tree whose every
    exit records one metrics sample and finalizes one response. What the libraries answer (the
    upgrade, the body, the upstream, the response builder, the clocks) comes in as `Env`. */
module RequestPipeline {
  import opened Text
  import opened PathDecoding
  import opened Router
  import opened Forwarding
  import opened Auth
  import MC = MiddlewareChain
  import Limiter = RateLimiter
  import opened MetricsViews
  import MS = MetricsStore
  import Grpc = GrpcFraming

  datatype Incoming = Incoming(
    verb: string, path: string, query: Option<string>, headers: seq<Header>, body: Bytes, addr: string)

  datatype Upstream = Answer(status: nat, body: Grpc.bytes) | Failure(error: string)

  datatype Env = Env(
    upgradeOk: bool,                  // the request is a WebSocket upgrade
    bodyOk: bool,                     // the body fits into 10 MB
    methodOk: bool,                   // the HTTP client accepts the method
    encodeError: Option<string>,      // the GraphQL body is refused
    upstream: Upstream,
    buildOk: bool,                    // the upstream's headers can be put into a response
    now: nat, timestampMs: nat, latency: nat)

  /** How a request ends: the status, whether the gateway itself met an error it reports, and whether
      the response is assembled from an upstream answer. */
  datatype Outcome = Outcome(status: nat, failed: bool, built: bool)

  /** The status the client sees: a response that cannot be assembled becomes a 500. */
  function ResponseStatus(o: Outcome, env: Env): nat {
    if o.built && !env.buildOk then 500 else o.status
  }

  /** `history` grew by one entry, for this request, route and outcome, and the client sees the
      outcome's response. */
  ghost predicate RecordedOnce(before: seq<Entry>, after: seq<Entry>, req: Incoming, route: Option<Route>,
                               o: Outcome, response: nat, env: Env)
  {
    && |after| == |before| + 1 && after[..|before|] == before
    && RecordOf(after[|before|], req, route, o.status, o.failed, env)
    && response == ResponseStatus(o, env)
  }

  ghost predicate RecordOf(e: Entry, req: Incoming, route: Option<Route>, status: nat, failed: bool, env: Env) {
    && e.verb == req.verb && e.path == req.path && e.latency == env.latency && e.timestampMs == env.timestampMs
    && e.status == status && e.error.Some? == failed
    && (match route
        case None => e.matchedRoute == None && e.target == ""
        case Some(r) => e.matchedRoute == Some(r.path) && e.target == TransportTarget(r.transport))
  }

  function TransportTarget(t: Transport): string {
    match t
    case Http(url, _) => url
    case Zmq(address, _) => address
    case GraphQL(url) => url
    case Grpc(url) => url
    case WebSocket(url) => url
    case Mqtt(broker) => broker
    case Amqp(broker) => broker
  }

  /** The status after the response chain: an error in it becomes a 500. */
  function FinalStatus(r: Result<MC.Response>): nat {
    match r case Ok(final) => final.status case Err(_) => 500
  }

  predicate HttpScheme(url: string) {
    "http://" <= url || "https://" <= url
  }

  predicate Success2xx(status: nat) {
    200 <= status < 300
  }

  /** A refusal or another answer of the gateway's own. */
  function Plain(status: nat): Outcome {
    Outcome(status, false, false)
  }

  const BAD_GATEWAY := Outcome(502, true, false)

  /** The upstream's answer can be used: the guards let the request through, the upstream answers, and
      a successful gRPC answer is well framed. */
  predicate Usable(req: Incoming, route: Route, env: Env) {
    && env.upstream.Answer?
    && match route.transport
       case Http(url, strip) => ProxyGuards(url, ForwardPath(req.path, route.path, strip), req.query) == Passed
       case GraphQL(url) => HttpScheme(url)
       case Grpc(url) =>
         && ProxyGuards(url, req.path, None) == Passed
         && (Success2xx(env.upstream.status) ==> Grpc.Parse(env.upstream.body).Ok?)
       case _ => true
  }

  /** The status of a usable answer: the upstream's own over HTTP, else by the messaging pattern. */
  function AnsweredStatus(t: Transport, answer: nat): nat {
    match t
    case Zmq(_, ReqRep) => 200
    case Zmq(_, _) | Mqtt(_) | Amqp(_) => 202
    case _ => answer
  }

  predicate OneWay(t: Transport) {
    t.Mqtt? || t.Amqp? || (t.Zmq? && t.pattern != ReqRep)
  }

  /** What a dispatched request is answered with. */
  function DispatchOutcome(req: Incoming, route: Route, env: Env): Outcome {
    if route.transport.WebSocket? then Plain(if env.upgradeOk then 101 else 426)
    else if route.transport.Http? && !env.methodOk then Plain(405)
    else if route.transport.GraphQL? && env.encodeError.Some? then Outcome(400, true, false)
    else if !Usable(req, route, env) then BAD_GATEWAY
    else Outcome(AnsweredStatus(route.transport, env.upstream.status), false, !OneWay(route.transport))
  }

  class App {
    const routes: seq<Route>
    const chain: MC.Chain
    const store: MS.Store

    constructor (configured: seq<Route>, chain: MC.Chain, store: MS.Store)
      ensures routes == NewRouter(configured) && this.chain == chain && this.store == store
    {
      this.routes, this.chain, this.store := NewRouter(configured), chain, store;
    }

    /** `Dispatch::record`, and the same call made before a route is known. */
    method Record(req: Incoming, route: Option<Route>, target: string, status: nat,
                  error: Option<string>, env: Env)
      requires store.Valid()
      requires target == if route.Some? then TransportTarget(route.value.transport) else ""
      modifies store
      ensures store.Valid()
      ensures |store.history| == |old(store.history)| + 1 && store.history[..|old(store.history)|] == old(store.history)
      ensures RecordOf(store.history[|old(store.history)|], req, route, status, error.Some?, env)
      ensures store.history[|old(store.history)|].error == error
    {
      var matched := match route case None => None case Some(r) => Some(r.path);
      ghost var e :=
        store.RecordRequest(req.verb, req.path, matched, target, status, env.latency, error, env.timestampMs);
    }

    /** `finalize_response`: the reversed response chain, then the status it leaves. */
    method Finalize(status: nat) returns (response: nat)
      ensures response == status
    {
      var r := chain.FinishResponse(MC.Response(status, []));
      response := FinalStatus(r);
    }

    /** A response assembled from an upstream answer. */
    method FinalizeBuilt(status: nat, env: Env) returns (response: nat)
      ensures response == if env.buildOk then status else 500
    {
      response := Finalize(if env.buildOk then status else 500);
    }

    /** How every exit without an error of its own ends: a record, then a response of
        the gateway's own. */
    method Reply(req: Incoming, route: Option<Route>, status: nat, env: Env) returns (response: nat)
      requires store.Valid()
      modifies store
      ensures store.Valid()
      ensures RecordedOnce(old(store.history), store.history, req, route, Plain(status), response, env)
    {
      hide RecordOf;
      var target := match route case None => "" case Some(r) => TransportTarget(r.transport);
      Record(req, route, target, status, None, env);
      response := Finalize(status);
    }

    /** The HTTP branch of the dispatch, with the guards of `HttpGateway::proxy`. */
    method HandleHttp(req: Incoming, route: Route, env: Env) returns (response: nat)
      requires store.Valid() && route.transport.Http?
      modifies store
      ensures store.Valid()
      ensures RecordedOnce(old(store.history), store.history, req, Some(route),
                           DispatchOutcome(req, route, env), response, env)
    {
      hide ForwardPath, ProxyGuards, RecordOf;
      var url := route.transport.url;
      if !env.methodOk {
        response := Reply(req, Some(route), 405, env);
        return;
      }
      var forward := ForwardPath(req.path, route.path, route.transport.stripPrefix);
      var passed := ProxyGuards(url, forward, req.query) == Passed;
      var outcome := if passed then env.upstream else Failure("invalid request");
      match outcome
      case Answer(status, _) =>
        Record(req, Some(route), url, status, None, env);
        response := FinalizeBuilt(status, env);
      case Failure(e) =>
        Record(req, Some(route), url, 502, Some(e), env);
        response := Finalize(502);
    }

    /** `handle_zmq`. */
    method HandleZmq(req: Incoming, route: Route, env: Env) returns (response: nat)
      requires store.Valid() && route.transport.Zmq?
      modifies store
      ensures store.Valid()
      ensures RecordedOnce(old(store.history), store.history, req, Some(route),
                           DispatchOutcome(req, route, env), response, env)
    {
      hide RecordOf;
      var address := route.transport.address;
      match route.transport.pattern {
        case ReqRep =>
          match env.upstream {
            case Answer(_, _) =>
              Record(req, Some(route), address, 200, None, env);
              response := FinalizeBuilt(200, env);
            case Failure(e) =>
              Record(req, Some(route), address, 502, Some(e), env);
              response := Finalize(502);
          }
        case Push =>
          response := HandlePublish(req, route, address, env);
        case PubSub =>
          response := HandlePublish(req, route, address, env);
      }
    }

    /** `handle_graphql`. */
    method HandleGraphQL(req: Incoming, route: Route, env: Env) returns (response: nat)
      requires store.Valid() && route.transport.GraphQL?
      modifies store
      ensures store.Valid()
      ensures RecordedOnce(old(store.history), store.history, req, Some(route),
                           DispatchOutcome(req, route, env), response, env)
    {
      hide RecordOf;
      var url := route.transport.url;
      if env.encodeError.Some? {
        Record(req, Some(route), url, 400, env.encodeError, env);
        response := Finalize(400);
        return;
      }
      var outcome := if HttpScheme(url) then env.upstream else Failure("bad scheme");
      match outcome
      case Answer(status, _) =>
        Record(req, Some(route), url, status, None, env);
        response := FinalizeBuilt(status, env);
      case Failure(e) =>
        Record(req, Some(route), url, 502, Some(e), env);
        response := Finalize(502);
    }

    /** `handle_grpc`: a 2xx answer must be a sequence of well-formed frames. */
    method HandleGrpc(req: Incoming, route: Route, env: Env) returns (response: nat)
      requires store.Valid() && route.transport.Grpc?
      modifies store
      ensures store.Valid()
      ensures RecordedOnce(old(store.history), store.history, req, Some(route),
                           DispatchOutcome(req, route, env), response, env)
    {
      hide ProxyGuards, Grpc.Parse, RecordOf;
      var url := route.transport.url;
      var outcome := if ProxyGuards(url, req.path, None) == Passed then env.upstream else Failure("invalid request");
      match outcome
      case Answer(status, body) =>
        if Success2xx(status) {
          var decoded := Grpc.DecodeFrames(body);
          if decoded.Err? {
            Record(req, Some(route), url, 502, Some("malformed gRPC response"), env);
            response := Finalize(502);
            return;
          }
        }
        Record(req, Some(route), url, status, None, env);
        response := FinalizeBuilt(status, env);
      case Failure(e) =>
        Record(req, Some(route), url, 502, Some(e), env);
        response := Finalize(502);
    }

    /** `handle_mqtt`, `handle_amqp` and the one-way ZMQ patterns. */
    method HandlePublish(req: Incoming, route: Route, target: string, env: Env) returns (response: nat)
      requires store.Valid() && OneWay(route.transport) && target == TransportTarget(route.transport)
      modifies store
      ensures store.Valid()
      ensures RecordedOnce(old(store.history), store.history, req, Some(route),
                           DispatchOutcome(req, route, env), response, env)
    {
      hide RecordOf;
      match env.upstream
      case Answer(_, _) =>
        Record(req, Some(route), target, 202, None, env);
        response := Finalize(202);
      case Failure(e) =>
        Record(req, Some(route), target, 502, Some(e), env);
        response := Finalize(502);
    }

    /** The dispatch on the route's transport. */
    method Dispatch(req: Incoming, route: Route, env: Env) returns (response: nat)
      requires store.Valid() && !route.transport.WebSocket?
      modifies store
      ensures store.Valid()
      ensures RecordedOnce(old(store.history), store.history, req, Some(route),
                           DispatchOutcome(req, route, env), response, env)
    {
      hide RecordedOnce, ForwardPath, ProxyGuards, Grpc.Parse;
      match route.transport
      case Http(_, _) => response := HandleHttp(req, route, env);
      case Zmq(_, _) => response := HandleZmq(req, route, env);
      case GraphQL(_) => response := HandleGraphQL(req, route, env);
      case Grpc(_) => response := HandleGrpc(req, route, env);
      case Mqtt(broker) => response := HandlePublish(req, route, broker, env);
      case Amqp(broker) => response := HandlePublish(req, route, broker, env);
    }

    /** `handle_request`. Whatever the request, the routes, the middleware state and the upstream do,
        exactly one record is appended and its status is the response's (a 500 replaces it just when
        the upstream's answer cannot be turned into a response). The middlewares see the request only after it was
        routed, was found not to be for a WebSocket route, and had its body read. */
    method HandleRequest(req: Incoming, env: Env) returns (response: nat)
      requires store.Valid()
      modifies store, chain
      ensures store.Valid()
      ensures Handled(routes, old(Observed(chain.middlewares, store.history)),
                      Observed(chain.middlewares, store.history), Job(req, env), response)
    {
      hide ForwardPath, MC.HandleAll, Select, Traversal, DispatchOutcome, RecordedOnce;
      var traversal := PathContainsTraversal(req.path);
      if traversal {
        response := Reply(req, None, 400, env);
        return;
      }
      var selected := Select(routes, req.verb, req.path);
      if selected == None {
        response := Reply(req, None, 404, env);
        return;
      }
      var route := selected.value;
      if route.transport.WebSocket? {
        UpgradeOutcome(req, route, env);
        response := Reply(req, selected, if env.upgradeOk then 101 else 426, env);
        return;
      }
      if !env.bodyOk {
        response := Reply(req, selected, 413, env);
        return;
      }
      var checked := chain.HandleRequest(CoreRequest(req), env.now);
      match checked
      case Err(error) =>
        response := Reply(req, selected, if error.RateLimited? then 429 else 401, env);
      case Ok(_) =>
        response := Dispatch(req, route, env);
    }

    /** `admin_middleware`: the same chain in front of the admin routes; nothing is recorded. `inner` is
        what the admin route itself answers. */
    method HandleAdmin(admin: AdminRequest, inner: nat, now: nat) returns (response: nat)
      modifies chain
      ensures AdminHandled(old(Observed(chain.middlewares, store.history)), Observed(chain.middlewares, store.history),
                           admin, inner, now, response)
    {
      hide MC.HandleAll;
      var checked := chain.HandleRequest(AdminCore(admin), now);
      match checked
      case Ok(_) => response := Finalize(inner);
      case Err(error) => response := Finalize(if error.RateLimited? then 429 else 401);
    }
  }

  lemma UpgradeOutcome(req: Incoming, route: Route, env: Env)
    requires route.transport.WebSocket?
    ensures DispatchOutcome(req, route, env) == Plain(if env.upgradeOk then 101 else 426)
  {
  }

  /** The request as the middlewares see it. */
  function CoreRequest(req: Incoming): Request {
    Request(req.body, req.headers, Some(req.addr))
  }

  /** Which route is charged, how the request ends, whether it was dispatched after passing the
      middlewares, and what they become. */
  datatype Decision = Decision(
    route: Option<Route>, outcome: Outcome, dispatched: bool, middlewares: seq<MC.Middleware>)

  function Verdict(routes: seq<Route>, middlewares: seq<MC.Middleware>, req: Incoming, env: Env): Decision {
    var route := Select(routes, req.verb, req.path);
    if Traversal(req.path) then Decision(None, Plain(400), false, middlewares)
    else if route == None then Decision(None, Plain(404), false, middlewares)
    else if route.value.transport.WebSocket? then
      Decision(route, DispatchOutcome(req, route.value, env), false, middlewares)
    else if !env.bodyOk then Decision(route, Plain(413), false, middlewares)
    else
      var (after, r) := MC.HandleAll(middlewares, CoreRequest(req), env.now);
      match r
      case Err(e) => Decision(route, Plain(if e.RateLimited? then 429 else 401), false, after)
      case Ok(_) => Decision(route, DispatchOutcome(req, route.value, env), true, after)
  }

  // ----- one request -----

  datatype Job = Job(req: Incoming, env: Env)

  /** What requests change: the middlewares and the metrics history. */
  datatype Observed = Observed(middlewares: seq<MC.Middleware>, history: seq<Entry>)

  /** The request was decided by the verdict, recorded once and answered. */
  ghost predicate Handled(routes: seq<Route>, before: Observed, after: Observed, job: Job, response: nat) {
    var v := Verdict(routes, before.middlewares, job.req, job.env);
    && RecordedOnce(before.history, after.history, job.req, v.route, v.outcome, response, job.env)
    && after.middlewares == v.middlewares
  }

  /** A request to the admin routes, as the middlewares see it: headers and address, no body. */
  datatype AdminRequest = AdminRequest(headers: seq<Header>, addr: string)

  function AdminCore(admin: AdminRequest): Request {
    Request([], admin.headers, Some(admin.addr))
  }

  /** The chain was asked, nothing was recorded, and a refusal is answered by its kind. */
  ghost predicate AdminHandled(before: Observed, after: Observed, admin: AdminRequest, inner: nat, now: nat,
                               response: nat)
  {
    var (ms, r) := MC.HandleAll(before.middlewares, AdminCore(admin), now);
    && after == Observed(ms, before.history)
    && response == match r case Ok(_) => inner case Err(e) => if e.RateLimited? then 429 else 401
  }

  /** A request for an HTTP route with a clean and safe path that the gateway's chain accepts gets the
      upstream's own answer: the proxy's second look at the (possibly stripped) path never objects. */
  lemma CleanHttpRequestGetsAnswer(configured: seq<Route>, cfg: MC.ChainConfig, limits: Limiter.Table,
                                   req: Incoming, env: Env)
    requires var route := Select(NewRouter(configured), req.verb, req.path);
             && route.Some? && route.value.transport.Http? && HttpScheme(route.value.transport.url)
    requires !Traversal(req.path) && PathIsSafe(req.path) && (req.query.Some? ==> QueryIsSafe(req.query.value))
    requires env.bodyOk && env.methodOk && MC.HandleAll(MC.Built(cfg, limits), CoreRequest(req), env.now).1.Ok?
    ensures Verdict(NewRouter(configured), MC.Built(cfg, limits), req, env).outcome ==
            if env.upstream.Answer? then Outcome(env.upstream.status, false, true) else BAD_GATEWAY
  {
    hide ForwardPath, NewRouter, Select, PathIsSafe, QueryIsSafe, Traversal, MC.HandleAll, MC.Built;
    var route := Select(NewRouter(configured), req.verb, req.path).value;
    StrippedPathStaysSafe(configured, req.verb, req.path, route.transport.url, req.query, route.transport.stripPrefix);
  }

  // ----- who meets the middlewares -----

  /** The limiter's table after this request and its verdict on it, with the configured limit and window. */
  function Limited(cfg: MC.ChainConfig, limits: Limiter.Table, req: Incoming, env: Env): (Limiter.Table, bool) {
    if cfg.limit.enabled
    then Limiter.Step(limits, Limiter.Call(req.addr, env.now), cfg.limit.Limit(), cfg.limit.Window())
    else (limits, false)
  }

  /** The request gets as far as the middlewares. */
  predicate Reached(routes: seq<Route>, req: Incoming, env: Env) {
    var route := Select(routes, req.verb, req.path);
    !Traversal(req.path) && route.Some? && !route.value.transport.WebSocket? && env.bodyOk
  }

  /** How a routed request with a readable body ends, in terms of the auth rule and the limiter only:
      401 without touching the limiter, 429, or the dispatch's own outcome. A request that never gets
      that far leaves the middlewares alone. */
  lemma RefusalStatuses(routes: seq<Route>, cfg: MC.ChainConfig, limits: Limiter.Table, req: Incoming, env: Env)
    ensures var v := Verdict(routes, MC.Built(cfg, limits), req, env);
            var route := Select(routes, req.verb, req.path);
            var reached := Reached(routes, req, env);
            var authorized := AuthRule(cfg.auth, Request(req.body, req.headers, Some(req.addr)));
            var (limits', limited) := Limited(cfg, limits, req, env);
            && v.middlewares == MC.Built(cfg, if reached && authorized then limits' else limits)
            && (v.dispatched <==> reached && authorized && !limited)
            && (reached ==> v.outcome == if !authorized then Plain(401)
                                         else if limited then Plain(429)
                                         else DispatchOutcome(req, route.value, env))
  {
    hide Select, Traversal, MC.HandleAll, MC.Built, Limiter.Step, DispatchOutcome, AuthRule;
    MC.BuiltStep(cfg, limits, CoreRequest(req), env.now);
  }

  /** An admin request is answered by its route exactly when it satisfies the auth rule and the limiter
      admits it, and is charged to the limiter exactly when it satisfies the auth rule. */
  lemma AdminIsGuarded(cfg: MC.ChainConfig, limits: Limiter.Table, before: Observed, after: Observed,
                       admin: AdminRequest, inner: nat, now: nat, response: nat)
    requires before.middlewares == MC.Built(cfg, limits) && AdminHandled(before, after, admin, inner, now, response)
    ensures var c := Limiter.Call(admin.addr, now);
            var (limits', limited) := Limiter.Step(limits, c, cfg.limit.Limit(), cfg.limit.Window());
            var authorized := AuthRule(cfg.auth, Request([], admin.headers, Some(admin.addr)));
            var charged := cfg.limit.enabled && authorized;
            && after.middlewares == MC.Built(cfg, if charged then limits' else limits)
            && after.history == before.history
            && response == if !authorized then 401
                           else if charged && limited then 429
                           else inner
  {
    hide MC.HandleAll, MC.Built, Limiter.Step, AuthRule;
    MC.BuiltStep(cfg, limits, AdminCore(admin), now);
  }

  /** The request is for a WebSocket route, which is answered before the middlewares are asked. */
  predicate SkipsMiddlewares(routes: seq<Route>, req: Incoming) {
    var route := Select(routes, req.verb, req.path);
    !Traversal(req.path) && route.Some? && route.value.transport.WebSocket?
  }

  /** A request without a valid token is never dispatched, and is refused (400, 401, 404 or 413) exactly
      unless it is for a WebSocket route; there it is even upgraded exactly when it asks properly. */
  lemma UnauthorizedIsRefusedUnlessWebSocket(routes: seq<Route>, cfg: MC.ChainConfig, limits: Limiter.Table,
                                             req: Incoming, env: Env)
    requires !AuthRule(cfg.auth, Request(req.body, req.headers, Some(req.addr)))
    ensures var v := Verdict(routes, MC.Built(cfg, limits), req, env);
            && !v.dispatched && v.middlewares == MC.Built(cfg, limits)
            && (v.outcome.status !in {400, 401, 404, 413} <==> SkipsMiddlewares(routes, req))
            && (v.outcome.status == 101 <==> SkipsMiddlewares(routes, req) && env.upgradeOk)
  {
    hide Select, Traversal, MC.HandleAll, MC.Built, AuthRule;
    RefusalStatuses(routes, cfg, limits, req, env);
  }

  /** Likewise for the limiter: a client over its limit is refused (400, 401, 404, 413 or 429) exactly
      unless the request is for a WebSocket route, and such requests are never charged to it. */
  lemma LimitedIsRefusedUnlessWebSocket(routes: seq<Route>, cfg: MC.ChainConfig, limits: Limiter.Table,
                                        req: Incoming, env: Env)
    requires Limited(cfg, limits, req, env).1
    ensures var v := Verdict(routes, MC.Built(cfg, limits), req, env);
            && !v.dispatched
            && (v.outcome.status !in {400, 401, 404, 413, 429} <==> SkipsMiddlewares(routes, req))
            && (SkipsMiddlewares(routes, req) ==> v.middlewares == MC.Built(cfg, limits))
  {
    hide Select, Traversal, MC.HandleAll, MC.Built, AuthRule, Limited;
    RefusalStatuses(routes, cfg, limits, req, env);
  }

  /** A path without dots and percent signs is clean. */
  lemma PlainPathIsClean(path: string)
    requires '.' !in path && '%' !in path
    ensures !Traversal(path)
  {
    var p := Lower(path);
    assert forall i :: 0 <= i < |p| ==> path[i] in path && p[i] != '.' && p[i] != '%';
    assert RewritesIn(p, p, 0);
    assert Irreducible(p);
    TraversalMeaning(path, p);
  }

  const KEYS := AuthConfig(true, Some([Str([0x6b])]))

  lemma NoHeaderNoAccess(req: Incoming)
    requires req.headers == []
    ensures !AuthRule(KEYS, CoreRequest(req))
  {
  }

  lemma UsedUp(cfg: MC.ChainConfig, req: Incoming, env: Env)
    requires cfg.limit == MC.LimitConfig(true, Some(1), Some(60))
    ensures Limited(cfg, map[req.addr := [env.now]], req, env).1
  {
    Limiter.PruneOne(env.now, env.now, cfg.limit.Window());
  }

  /** For instance: keys are configured, the request carries no `Authorization` header and the client
      has used up its limit of one per minute; its WebSocket request is still upgraded. */
  lemma UnauthorizedUpgrade(env: Env)
    requires env.upgradeOk
    ensures var routes := NewRouter([Route.Route("/ws", [], WebSocket("ws://backend"))]);
            var cfg := MC.ChainConfig(false, KEYS, MC.LimitConfig(true, Some(1), Some(60)));
            var req := Incoming("GET", "/ws", None, [], [], "10.0.0.1");
            var limits := map["10.0.0.1" := [env.now]];
            && !AuthRule(cfg.auth, CoreRequest(req)) && Limited(cfg, limits, req, env).1
            && Verdict(routes, MC.Built(cfg, limits), req, env).outcome.status == 101
  {
    hide AuthRule, Limited, NewRouter, Traversal, Select, MC.HandleAll, MC.Built;
    var route := Route.Route("/ws", [], WebSocket("ws://backend"));
    var cfg := MC.ChainConfig(false, KEYS, MC.LimitConfig(true, Some(1), Some(60)));
    var req := Incoming("GET", "/ws", None, [], [], "10.0.0.1");
    assert Matches(route, "GET", "/ws") && [route][0] == route;
    SelectWins([route], "GET", "/ws");
    PlainPathIsClean("/ws");
    NoHeaderNoAccess(req);
    UsedUp(cfg, req, env);
  }
}
