/** The decisions of `handle_request` (`src/core/gateway.rs`) spelled out: which refusal has which
    status, and what a dispatched request is answered with, transport by transport, in terms of the
    configured routes, the request and what the upstream does. */
module DispatchOutcomes {
  import opened Text
  import opened PathDecoding
  import opened Router
  import opened Forwarding
  import opened Auth
  import MC = MiddlewareChain
  import opened RequestPipeline
  import Grpc = GrpcFraming

  // ----- before the middlewares -----

  /** Some configured route is eligible for a well-formed method. */
  ghost predicate Routable(configured: seq<Route>, verb: string, path: string) {
    !Malformed(verb) && exists j :: 0 <= j < |configured| && Eligible(configured[j], verb, path)
  }

  /** The best candidate. */
  ghost predicate RoutedTo(configured: seq<Route>, req: Incoming, r: Route) {
    && !Traversal(req.path) && !Malformed(req.verb)
    && exists i: nat :: Best(configured, i, req.verb, req.path) && configured[i] == r
  }

  lemma RoutedIsSelected(configured: seq<Route>, req: Incoming, r: Route)
    requires RoutedTo(configured, req, r)
    ensures Select(NewRouter(configured), req.verb, req.path) == Some(r)
  {
    hide Traversal, NewRouter, Select, Eligible, Malformed;
    SelectSpec(configured, req.verb, req.path);
    var i: nat :| Best(configured, i, req.verb, req.path) && configured[i] == r;
    assert Eligible(configured[i], req.verb, req.path);
    var selected := Select(NewRouter(configured), req.verb, req.path);
    var j: nat :| Best(configured, j, req.verb, req.path) && configured[j] == selected.value;
    WinnerUnique(configured, i, j, req.verb, req.path);
  }

  /** A path with a `..` segment is a 400 and an unroutable request a 404, both without a route; a
      WebSocket request is upgraded or told to (101, 426); a body that cannot be read is a 413. None of
      these asks or changes the middlewares, and none is recorded with an error. */
  lemma RefusedBeforeTheChain(configured: seq<Route>, ms: seq<MC.Middleware>, req: Incoming, env: Env)
    ensures var v := Verdict(NewRouter(configured), ms, req, env);
            && (Traversal(req.path) ==> v == Decision(None, Outcome(400, false, false), false, ms))
            && (!Traversal(req.path) && !Routable(configured, req.verb, req.path) ==>
                  v == Decision(None, Outcome(404, false, false), false, ms))
    ensures forall r: Route :: RoutedTo(configured, req, r) && r.transport.WebSocket? ==>
              Verdict(NewRouter(configured), ms, req, env) ==
                Decision(Some(r), Outcome(if env.upgradeOk then 101 else 426, false, false), false, ms)
    ensures forall r: Route :: RoutedTo(configured, req, r) && !r.transport.WebSocket? && !env.bodyOk ==>
              Verdict(NewRouter(configured), ms, req, env) ==
                Decision(Some(r), Outcome(413, false, false), false, ms)
  {
    hide Traversal, NewRouter, Select, Eligible, Malformed, MC.HandleAll, RoutedTo, Usable;
    SelectSpec(configured, req.verb, req.path);
    forall r: Route | RoutedTo(configured, req, r)
      ensures !Traversal(req.path) && Select(NewRouter(configured), req.verb, req.path) == Some(r)
    {
      RoutedIsSelected(configured, req, r);
      RoutedIsClean(configured, req, r);
    }
  }

  lemma RoutedIsClean(configured: seq<Route>, req: Incoming, r: Route)
    requires RoutedTo(configured, req, r)
    ensures !Traversal(req.path)
  {
  }

  // ----- after the middlewares -----

  /** The request was routed to `r` and passed the middlewares. */
  ghost predicate PassedTo(configured: seq<Route>, ms: seq<MC.Middleware>, req: Incoming, env: Env, r: Route) {
    && RoutedTo(configured, req, r) && !r.transport.WebSocket? && env.bodyOk
    && MC.HandleAll(ms, Request(req.body, req.headers, Some(req.addr)), env.now).1.Ok?
  }

  lemma PassedIsDispatched(configured: seq<Route>, ms: seq<MC.Middleware>, req: Incoming, env: Env, r: Route)
    requires PassedTo(configured, ms, req, env, r)
    ensures var v := Verdict(NewRouter(configured), ms, req, env);
            v.dispatched && v.route == Some(r) && v.outcome == DispatchOutcome(req, r, env)
  {
    hide Traversal, NewRouter, Select, MC.HandleAll, DispatchOutcome, RoutedTo;
    RoutedIsSelected(configured, req, r);
    RoutedIsClean(configured, req, r);
  }

  /** The target is an HTTP URL. */
  predicate HttpTarget(url: string) {
    "http://" <= url || "https://" <= url
  }

  /** HTTP: 405 for a method the client cannot send; else the upstream's own status if the target is an
      HTTP URL, the forward path is clean and safe, the query is safe and the upstream answers; else 502
      with an error. */
  lemma HttpOutcome(configured: seq<Route>, ms: seq<MC.Middleware>, req: Incoming, env: Env, r: Route)
    requires PassedTo(configured, ms, req, env, r) && r.transport.Http?
    ensures var f := ForwardPath(req.path, r.path, r.transport.stripPrefix);
            var allowed := HttpTarget(r.transport.url) && !Traversal(f) && PathIsSafe(f)
                           && (req.query.Some? ==> QueryIsSafe(req.query.value));
            Verdict(NewRouter(configured), ms, req, env).outcome ==
              if !env.methodOk then Outcome(405, false, false)
              else if allowed && env.upstream.Answer? then Outcome(env.upstream.status, false, true)
              else Outcome(502, true, false)
  {
    hide Traversal, NewRouter, PathIsSafe, QueryIsSafe, ForwardPath, Verdict, PassedTo;
    PassedIsDispatched(configured, ms, req, env, r);
  }

  /** The body is a sequence of well-formed frames. */
  ghost predicate Framed(body: Grpc.bytes) {
    exists ps: seq<Grpc.bytes> :: Grpc.Encodable(ps) && body == Grpc.EncodeAll(ps)
  }

  lemma FramedIsParsed(body: Grpc.bytes)
    ensures Framed(body) <==> Grpc.Parse(body).Ok?
  {
    if ps: seq<Grpc.bytes> :| Grpc.Encodable(ps) && body == Grpc.EncodeAll(ps) {
      Grpc.ParseAfterEncodeAll(ps);
    }
    if Grpc.Parse(body).Ok? {
      Grpc.EncodeAllAfterParse(body);
    }
  }

  /** gRPC: the upstream's own status if the target and the path are acceptable and it answers, unless
      that is a 2xx whose body is no sequence of frames; else 502 with an error. */
  lemma GrpcOutcome(configured: seq<Route>, ms: seq<MC.Middleware>, req: Incoming, env: Env, r: Route)
    requires PassedTo(configured, ms, req, env, r) && r.transport.Grpc?
    ensures var allowed := HttpTarget(r.transport.url) && PathIsSafe(req.path);
            var v := Verdict(NewRouter(configured), ms, req, env);
            match env.upstream
            case Failure(_) => v.outcome == Outcome(502, true, false)
            case Answer(status, body) =>
              && (!allowed ==> v.outcome == Outcome(502, true, false))
              && (allowed && 200 <= status < 300 && !Framed(body) ==> v.outcome == Outcome(502, true, false))
              && (allowed && 200 <= status < 300 && Framed(body) ==> v.outcome == Outcome(status, false, true))
              && (allowed && !(200 <= status < 300) ==> v.outcome == Outcome(status, false, true))
  {
    hide Traversal, NewRouter, PathIsSafe, Verdict, RoutedTo, Framed, Grpc.Parse, MC.HandleAll;
    PassedIsDispatched(configured, ms, req, env, r);
    RoutedIsClean(configured, req, r);
    if env.upstream.Answer? {
      FramedIsParsed(env.upstream.body);
    }
  }

  /** GraphQL: 400 with an error for a body that is refused; else the upstream's own status if the target
      is an HTTP URL and it answers; else 502 with an error. */
  lemma GraphQLOutcome(configured: seq<Route>, ms: seq<MC.Middleware>, req: Incoming, env: Env, r: Route)
    requires PassedTo(configured, ms, req, env, r) && r.transport.GraphQL?
    ensures Verdict(NewRouter(configured), ms, req, env).outcome ==
            if env.encodeError.Some? then Outcome(400, true, false)
            else if HttpTarget(r.transport.url) && env.upstream.Answer? then Outcome(env.upstream.status, false, true)
            else Outcome(502, true, false)
  {
    hide NewRouter, Verdict, PassedTo;
    PassedIsDispatched(configured, ms, req, env, r);
  }

  /** Messaging: 200 for a reply, 202 for a one-way send, and 502 with an error when it fails. */
  lemma MessagingOutcome(configured: seq<Route>, ms: seq<MC.Middleware>, req: Incoming, env: Env, r: Route)
    requires PassedTo(configured, ms, req, env, r) && (r.transport.Zmq? || r.transport.Mqtt? || r.transport.Amqp?)
    ensures Verdict(NewRouter(configured), ms, req, env).outcome ==
            if env.upstream.Failure? then Outcome(502, true, false)
            else if r.transport.Zmq? && r.transport.pattern == ReqRep then Outcome(200, false, true)
            else Outcome(202, false, false)
  {
    hide NewRouter, Verdict, PassedTo;
    PassedIsDispatched(configured, ms, req, env, r);
  }

  /** What the client sees of an outcome: its status, except that an answer of the upstream's that cannot
      be turned into a response becomes a 500. */
  lemma ResponseSpelledOut(o: Outcome, env: Env)
    ensures ResponseStatus(o, env) == o.status || (ResponseStatus(o, env) == 500 && o.built && !env.buildOk)
    ensures o.built && !env.buildOk ==> ResponseStatus(o, env) == 500
  {
  }

  /** What the records name as the target: the URL, address or broker of the route's transport. */
  lemma TargetsSpelledOut(r: Route)
    ensures forall url: string, strip: bool :: r.transport == Http(url, strip) ==> TransportTarget(r.transport) == url
    ensures forall a: string, p: ZmqPattern :: r.transport == Zmq(a, p) ==> TransportTarget(r.transport) == a
    ensures forall url: string :: r.transport == GraphQL(url) ==> TransportTarget(r.transport) == url
    ensures forall url: string :: r.transport == Transport.Grpc(url) ==> TransportTarget(r.transport) == url
    ensures forall url: string :: r.transport == WebSocket(url) ==> TransportTarget(r.transport) == url
    ensures forall b: string :: r.transport == Mqtt(b) || r.transport == Amqp(b) ==> TransportTarget(r.transport) == b
  {
  }
}
