/** Whole runs of the gateway: any sequence of proxied requests and requests to the admin routes, one
    after another, from an empty store and the chain that `build_middleware_chain` assembles. Both
    kinds pass the same chain and so share one rate-limit budget per client; only proxied requests are
    recorded. */
module ServedRequests {
  import opened Text
  import opened Router
  import opened Auth
  import MC = MiddlewareChain
  import opened RateLimiter
  import opened MetricsViews
  import opened RequestPipeline

  datatype Work = Proxied(job: Job) | Admin(admin: AdminRequest, inner: nat, at: nat) {
    function Now(): nat {
      match this case Proxied(job) => job.env.now case Admin(_, _, at) => at
    }
    function Addr(): string {
      match this case Proxied(job) => job.req.addr case Admin(admin, _, _) => admin.addr
    }
    function Core(): Request {
      match this case Proxied(job) => CoreRequest(job.req) case Admin(admin, _, _) => AdminCore(admin)
    }
  }

  ghost predicate WorkHandled(routes: seq<Route>, before: Observed, after: Observed, w: Work, response: nat) {
    match w
    case Proxied(job) => Handled(routes, before, after, job, response)
    case Admin(admin, inner, at) => AdminHandled(before, after, admin, inner, at, response)
  }

  /** One handled request after another. */
  ghost predicate Served(routes: seq<Route>, states: seq<Observed>, works: seq<Work>, responses: seq<nat>) {
    && |states| == |works| + 1 && |responses| == |works|
    && forall k :: 0 <= k < |works| ==> HandledAt(routes, states, works, responses, k)
  }

  ghost predicate HandledAt(routes: seq<Route>, states: seq<Observed>, works: seq<Work>, responses: seq<nat>, k: nat)
    requires k < |works| && |states| == |works| + 1 && |responses| == |works|
  {
    WorkHandled(routes, states[k], states[k + 1], works[k], responses[k])
  }

  ghost predicate InOrder(works: seq<Work>) {
    forall i, j :: 0 <= i < j < |works| ==> works[i].Now() <= works[j].Now()
  }

  /** The server handing requests to the application: what it leaves is a served run. */
  method Serve(app: App, works: seq<Work>) returns (responses: seq<nat>, ghost states: seq<Observed>)
    requires app.store.Valid()
    modifies app.store, app.chain
    ensures app.store.Valid() && Served(app.routes, states, works, responses)
    ensures states[0] == old(Observed(app.chain.middlewares, app.store.history))
    ensures states[|works|] == Observed(app.chain.middlewares, app.store.history)
  {
    hide Handled, AdminHandled;
    responses, states := [], [Observed(app.chain.middlewares, app.store.history)];
    for k := 0 to |works|
      invariant app.store.Valid() && |responses| == k && |states| == k + 1
      invariant states[0] == old(Observed(app.chain.middlewares, app.store.history))
      invariant states[k] == Observed(app.chain.middlewares, app.store.history)
      invariant Served(app.routes, states, works[..k], responses)
    {
      var response: nat;
      match works[k] {
        case Proxied(job) => response := app.HandleRequest(job.req, job.env);
        case Admin(admin, inner, at) => response := app.HandleAdmin(admin, inner, at);
      }
      ghost var after := Observed(app.chain.middlewares, app.store.history);
      assert works[..k + 1] == works[..k] + [works[k]];
      ServedFurther(app.routes, states, works[..k], responses, after, works[k], response);
      responses, states := responses + [response], states + [after];
    }
    assert works[..|works|] == works;
  }

  lemma ServedFurther(routes: seq<Route>, states: seq<Observed>, works: seq<Work>, responses: seq<nat>,
                      after: Observed, w: Work, response: nat)
    requires Served(routes, states, works, responses) && WorkHandled(routes, states[|works|], after, w, response)
    ensures Served(routes, states + [after], works + [w], responses + [response])
  {
    hide WorkHandled;
    var states', works', responses' := states + [after], works + [w], responses + [response];
    forall k | 0 <= k < |works'| ensures HandledAt(routes, states', works', responses', k) {
      if k < |works| {
        assert HandledAt(routes, states, works, responses, k);
      }
    }
  }

  // ----- one record per proxied request -----

  function ProxiedAmong(works: seq<Work>, n: nat): nat
    requires n <= |works|
  {
    if n == 0 then 0 else ProxiedAmong(works, n - 1) + if works[n - 1].Proxied? then 1 else 0
  }

  lemma {:induction false} ProxiedGrows(works: seq<Work>, k: nat, n: nat)
    requires k < n <= |works| && works[k].Proxied?
    ensures ProxiedAmong(works, k) < ProxiedAmong(works, n)
  {
    if k < n - 1 {
      ProxiedGrows(works, k, n - 1);
    }
  }

  function VerdictOn(routes: seq<Route>, state: Observed, job: Job): Decision {
    Verdict(routes, state.middlewares, job.req, job.env)
  }

  /** `history` has the record of proxied request `k` in its place. */
  ghost predicate RecordedAt(routes: seq<Route>, states: seq<Observed>, works: seq<Work>, k: nat, h: seq<Entry>)
    requires k < |works| && k < |states| && works[k].Proxied?
  {
    var place, job := ProxiedAmong(works, k), works[k].job;
    var v := VerdictOn(routes, states[k], job);
    place < |h| && RecordOf(h[place], job.req, v.route, v.outcome.status, v.outcome.failed, job.env)
  }

  lemma {:induction false} RecordsInOrder(routes: seq<Route>, states: seq<Observed>, works: seq<Work>,
                                          responses: seq<nat>, n: nat)
    requires Served(routes, states, works, responses) && states[0].history == [] && n <= |works|
    ensures |states[n].history| == ProxiedAmong(works, n)
    ensures forall k :: 0 <= k < n && works[k].Proxied? ==> RecordedAt(routes, states, works, k, states[n].history)
  {
    hide Verdict, RecordOf, MC.HandleAll;
    if n > 0 {
      RecordsInOrder(routes, states, works, responses, n - 1);
      assert HandledAt(routes, states, works, responses, n - 1);
      var before, after := states[n - 1].history, states[n].history;
      forall k | 0 <= k < n && works[k].Proxied? ensures RecordedAt(routes, states, works, k, after) {
        if k < n - 1 {
          ProxiedGrows(works, k, n - 1);
          var place := ProxiedAmong(works, k);
          assert RecordedAt(routes, states, works, k, before);
          assert after[..|before|] == before && after[place] == after[..|before|][place];
        }
      }
    }
  }

  // ----- what is charged to a client -----

  /** The request passed the chain, and so was charged to its client. */
  function Charged(routes: seq<Route>, state: Observed, w: Work): bool {
    match w
    case Proxied(job) => VerdictOn(routes, state, job).dispatched
    case Admin(_, _, at) => MC.HandleAll(state.middlewares, w.Core(), at).1.Ok?
  }

  /** The charged requests among the first `n`, as the limiter would note them. */
  function Charges(routes: seq<Route>, states: seq<Observed>, works: seq<Work>, n: nat): History
    requires n <= |works| && n <= |states|
  {
    if n == 0 then []
    else
      var earlier, w := Charges(routes, states, works, n - 1), works[n - 1];
      if Charged(routes, states[n - 1], w) then earlier + [Call(w.Addr(), w.Now())] else earlier
  }

  /** How many of the first `n` requests came from `addr` between two instants and passed the chain;
      `dispatchedOnly` leaves the admin requests out. */
  function CountIn(routes: seq<Route>, states: seq<Observed>, works: seq<Work>, n: nat, addr: string, lo: int, hi: int,
                   dispatchedOnly: bool): nat
    requires n <= |works| && n <= |states|
  {
    if n == 0 then 0
    else
      CountIn(routes, states, works, n - 1, addr, lo, hi, dispatchedOnly) +
      var w := works[n - 1];
      var counted := Charged(routes, states[n - 1], w) && (dispatchedOnly ==> w.Proxied?);
      if counted && w.Addr() == addr && lo <= w.Now() <= hi then 1 else 0
  }

  /** The requests of `addr` that were dispatched to an upstream between two instants. */
  function DispatchedIn(routes: seq<Route>, states: seq<Observed>, works: seq<Work>, n: nat, addr: string,
                        lo: int, hi: int): nat
    requires n <= |works| && n <= |states|
  {
    CountIn(routes, states, works, n, addr, lo, hi, true)
  }

  /** Those, and the accepted admin requests. */
  function SpentIn(routes: seq<Route>, states: seq<Observed>, works: seq<Work>, n: nat, addr: string,
                   lo: int, hi: int): nat
    requires n <= |works| && n <= |states|
  {
    CountIn(routes, states, works, n, addr, lo, hi, false)
  }

  lemma {:induction false} DispatchedAreSpent(routes: seq<Route>, states: seq<Observed>, works: seq<Work>, n: nat,
                                              addr: string, lo: int, hi: int)
    requires n <= |works| && n <= |states|
    ensures DispatchedIn(routes, states, works, n, addr, lo, hi) <= SpentIn(routes, states, works, n, addr, lo, hi)
  {
    hide Charged;
    if n > 0 {
      DispatchedAreSpent(routes, states, works, n - 1, addr, lo, hi);
    }
  }

  lemma {:induction false} ChargesCounted(routes: seq<Route>, states: seq<Observed>, works: seq<Work>, n: nat,
                                          addr: string, lo: int, hi: int)
    requires n <= |works| && n <= |states|
    ensures SpentIn(routes, states, works, n, addr, lo, hi) ==
            Within(Times(Charges(routes, states, works, n), addr), lo, hi)
  {
    hide Charged, Within, Times;
    if n == 0 {
      NothingWithin(addr, lo, hi);
    } else {
      var earlier, w := Charges(routes, states, works, n - 1), works[n - 1];
      ChargesCounted(routes, states, works, n - 1, addr, lo, hi);
      TimesAppend(earlier, Call(w.Addr(), w.Now()), addr);
      WithinAppend(Times(earlier, addr), w.Now(), lo, hi);
    }
  }

  lemma NothingWithin(addr: string, lo: int, hi: int)
    ensures Within(Times([], addr), lo, hi) == 0
  {
  }

  // ----- the limiter's budget -----

  /** What the limiter knows after a run: the charged requests, and no more than its limit of them. */
  ghost predicate Kept(cfg: MC.ChainConfig, limits: Table, h: History, clock: nat) {
    && Before(h, clock)
    && (cfg.limit.enabled ==>
         Remembers(limits, h, clock, cfg.limit.Window()) && WindowBounded(h, cfg.limit.Limit(), cfg.limit.Window()))
  }

  lemma KeptLater(cfg: MC.ChainConfig, limits: Table, h: History, clock: nat, now: nat)
    requires Kept(cfg, limits, h, clock) && clock <= now
    ensures Kept(cfg, limits, h, now)
  {
    hide Prune, Times, Stored, WindowBounded;
    if cfg.limit.enabled {
      var window := cfg.limit.Window();
      forall k ensures Prune(Stored(limits, k), now, window) == Prune(Times(h, k), now, window) {
        RemembersLater(limits, h, clock, now, window, k);
      }
    }
  }

  /** The request gets as far as the middlewares; an admin request always does. */
  predicate Asks(routes: seq<Route>, w: Work) {
    match w
    case Proxied(job) => Reached(routes, job.req, job.env)
    case Admin(_, _, _) => true
  }

  /** The limiter's table after the request and its verdict on it. */
  function LimitedBy(cfg: MC.ChainConfig, limits: Table, w: Work): (Table, bool) {
    if cfg.limit.enabled
    then Step(limits, Call(w.Addr(), w.Now()), cfg.limit.Limit(), cfg.limit.Window())
    else (limits, false)
  }

  /** Both kinds of request meet the chain in the same way. */
  lemma ChainOutcome(cfg: MC.ChainConfig, routes: seq<Route>, limits: Table, before: Observed, after: Observed, w: Work,
                     response: nat)
    requires WorkHandled(routes, before, after, w, response) && before.middlewares == MC.Built(cfg, limits)
    ensures var (limits', limited) := LimitedBy(cfg, limits, w);
            var asks, authorized := Asks(routes, w), AuthRule(cfg.auth, w.Core());
            && after.middlewares == MC.Built(cfg, if asks && authorized then limits' else limits)
            && (Charged(routes, before, w) <==> asks && authorized && !limited)
            && (asks && authorized && limited ==> response == 429)
            && (asks && authorized && limited && w.Proxied? ==> VerdictOn(routes, before, w.job).outcome == Plain(429))
  {
    hide Verdict, Reached, MC.HandleAll, MC.Built, Step, DispatchOutcome, AuthRule, RecordOf;
    match w
    case Proxied(job) => RefusalStatuses(routes, cfg, limits, job.req, job.env);
    case Admin(admin, _, at) => MC.BuiltStep(cfg, limits, AdminCore(admin), at);
  }

  /** The chain's answer to a request, in terms of the charged ones before it. */
  ghost predicate Prescribed(cfg: MC.ChainConfig, routes: seq<Route>, h: History, before: Observed, w: Work,
                             response: nat)
  {
    var room := cfg.limit.enabled ==>
                  Within(Times(h, w.Addr()), w.Now() - cfg.limit.Window(), w.Now()) < cfg.limit.Limit();
    var entitled := Asks(routes, w) && AuthRule(cfg.auth, w.Core());
    && (Charged(routes, before, w) <==> entitled && room)
    && (entitled && !room ==> response == 429)
    && (entitled && !room && w.Proxied? ==> VerdictOn(routes, before, w.job).outcome == Plain(429))
  }

  lemma KeptStep(cfg: MC.ChainConfig, routes: seq<Route>, limits: Table, h: History, clock: nat, before: Observed,
                 after: Observed, w: Work, response: nat) returns (limits': Table)
    requires Kept(cfg, limits, h, clock) && clock <= w.Now()
    requires WorkHandled(routes, before, after, w, response) && before.middlewares == MC.Built(cfg, limits)
    ensures after.middlewares == MC.Built(cfg, limits')
    ensures Kept(cfg, limits', if Charged(routes, before, w) then h + [Call(w.Addr(), w.Now())] else h, w.Now())
    ensures Prescribed(cfg, routes, h, before, w, response)
  {
    hide WorkHandled, Charged, Asks, VerdictOn, MC.Built, Step, AuthRule, Times, Within, Remembers, WindowBounded;
    var c, limit, window := Call(w.Addr(), w.Now()), cfg.limit.Limit(), cfg.limit.Window();
    ChainOutcome(cfg, routes, limits, before, after, w, response);
    KeptLater(cfg, limits, h, clock, w.Now());
    limits' := limits;
    if cfg.limit.enabled {
      StepRefines(limits, h, clock, c, limit, window);
      IdealStepBounded(h, c, limit, window);
      if Asks(routes, w) && AuthRule(cfg.auth, w.Core()) {
        limits' := Step(limits, c, limit, window).0;
      }
    } else {
      BeforeAppend(h, c);
    }
  }

  lemma BeforeAppend(h: History, c: Call)
    requires Before(h, c.now)
    ensures Before(h + [c], c.now)
  {
  }

  ghost predicate FreshStart(cfg: MC.ChainConfig, states: seq<Observed>) {
    states != [] && states[0] == Observed(MC.Built(cfg, map[]), [])
  }

  lemma {:induction false} BudgetKept(cfg: MC.ChainConfig, routes: seq<Route>, states: seq<Observed>, works: seq<Work>,
                                      responses: seq<nat>, n: nat) returns (limits: Table)
    requires Served(routes, states, works, responses) && InOrder(works) && FreshStart(cfg, states) && n <= |works|
    ensures states[n].middlewares == MC.Built(cfg, limits)
    ensures Kept(cfg, limits, Charges(routes, states, works, n), if n == 0 then 0 else works[n - 1].Now())
    ensures n < |works| ==>
              var earlier := Charges(routes, states, works, n);
              Prescribed(cfg, routes, earlier, states[n], works[n], responses[n])
  {
    hide Charged, Kept, Prescribed, MC.Built, WorkHandled;
    limits := map[];
    if n == 0 {
      NothingKept(cfg);
    } else {
      var before := BudgetKept(cfg, routes, states, works, responses, n - 1);
      var h := Charges(routes, states, works, n - 1);
      var clock := if n == 1 then 0 else works[n - 2].Now();
      assert HandledAt(routes, states, works, responses, n - 1);
      limits := KeptStep(cfg, routes, before, h, clock, states[n - 1], states[n], works[n - 1], responses[n - 1]);
    }
    if n < |works| {
      var h, clock := Charges(routes, states, works, n), if n == 0 then 0 else works[n - 1].Now();
      assert HandledAt(routes, states, works, responses, n);
      var next := KeptStep(cfg, routes, limits, h, clock, states[n], states[n + 1], works[n], responses[n]);
    }
  }

  lemma NothingKept(cfg: MC.ChainConfig)
    ensures Kept(cfg, map[], [], 0)
  {
    EmptyBounded(cfg.limit.Limit(), cfg.limit.Window());
  }

  // ----- every run -----

  /** What the limiter has charged to the client of request `k` in the window ending with it. */
  function SpentBefore(cfg: MC.ChainConfig, routes: seq<Route>, states: seq<Observed>, works: seq<Work>, k: nat): nat
    requires k < |works| && k <= |states|
  {
    var w := works[k];
    SpentIn(routes, states, works, k, w.Addr(), w.Now() - cfg.limit.Window(), w.Now())
  }

  /** The decision on request `k`, which reaches the chain with a valid token if it needs one: it passes
      if and only if there is room, and is turned away with 429 when the budget is used up exactly. */
  ghost predicate DecidedByBudget(cfg: MC.ChainConfig, routes: seq<Route>, states: seq<Observed>, works: seq<Work>,
                                  responses: seq<nat>, k: nat)
    requires k < |works| && k < |states| && k < |responses|
  {
    var spent, charged := SpentBefore(cfg, routes, states, works, k), Charged(routes, states[k], works[k]);
    && (charged <==> (cfg.limit.enabled ==> spent < cfg.limit.Limit()))
    && (!charged ==> responses[k] == 429 && spent == cfg.limit.Limit())
    && (!charged && works[k].Proxied? ==> VerdictOn(routes, states[k], works[k].job).outcome == Plain(429))
  }

  lemma BudgetDecides(cfg: MC.ChainConfig, routes: seq<Route>, states: seq<Observed>, works: seq<Work>,
                      responses: seq<nat>, k: nat)
    requires Served(routes, states, works, responses) && InOrder(works) && FreshStart(cfg, states) && k < |works|
    requires Asks(routes, works[k]) && AuthRule(cfg.auth, works[k].Core())
    ensures DecidedByBudget(cfg, routes, states, works, responses, k)
  {
    hide Served, InOrder, FreshStart, Charged, Charges, CountIn, VerdictOn, MC.Built, Asks, AuthRule, Within, Times;
    SameLengths(routes, states, works, responses, cfg);
    var limits := BudgetKept(cfg, routes, states, works, responses, k);
    var w, window := works[k], cfg.limit.Window();
    ChargesCounted(routes, states, works, k, w.Addr(), w.Now() - window, w.Now());
  }

  lemma BudgetBounds(cfg: MC.ChainConfig, routes: seq<Route>, states: seq<Observed>, works: seq<Work>,
                     responses: seq<nat>, addr: string, lo: int, hi: int)
    requires Served(routes, states, works, responses) && InOrder(works) && FreshStart(cfg, states)
    requires cfg.limit.enabled && hi <= lo + cfg.limit.Window()
    ensures SpentIn(routes, states, works, |works|, addr, lo, hi) <= cfg.limit.Limit()
  {
    hide InOrder, FreshStart, HandledAt, Charges, CountIn, MC.Built, Within, Times;
    var limits := BudgetKept(cfg, routes, states, works, responses, |works|);
    ChargesCounted(routes, states, works, |works|, addr, lo, hi);
  }

  /** Over every run of requests in clock order, whatever the routes, the upstreams and the clients do:
      the metrics history has one entry per proxied request, in order, with that request's route and
      status; each response is that of its outcome; no client passes the chain, let alone is
      dispatched, more than `limit` times in any interval of the window's length, wherever it is placed;
      and a request that reaches the chain with a valid token is turned away with 429 just when `limit`
      of its client's requests, dispatched or accepted by the admin routes, lie in the window ending
      now. */
  lemma EveryRunIsAccounted(cfg: MC.ChainConfig, routes: seq<Route>, states: seq<Observed>, works: seq<Work>,
                            responses: seq<nat>)
    requires Served(routes, states, works, responses) && InOrder(works) && FreshStart(cfg, states)
    ensures var h := states[|works|].history;
            && |h| == ProxiedAmong(works, |works|)
            && forall k :: 0 <= k < |works| && works[k].Proxied? ==> RecordedAt(routes, states, works, k, h)
    ensures forall k :: 0 <= k < |works| && works[k].Proxied? ==>
              responses[k] == ResponseStatus(VerdictOn(routes, states[k], works[k].job).outcome, works[k].job.env)
    ensures cfg.limit.enabled ==> forall addr: string, lo: int, hi: int :: hi <= lo + cfg.limit.Window() ==>
              DispatchedIn(routes, states, works, |works|, addr, lo, hi)
                <= SpentIn(routes, states, works, |works|, addr, lo, hi) <= cfg.limit.Limit()
    ensures forall k :: 0 <= k < |works| && Asks(routes, works[k]) && AuthRule(cfg.auth, works[k].Core()) ==>
              DecidedByBudget(cfg, routes, states, works, responses, k)
  {
    hide Served, InOrder, FreshStart, VerdictOn, RecordedAt, Asks, AuthRule, DispatchedIn, SpentIn, DecidedByBudget;
    var n := |works|;
    SameLengths(routes, states, works, responses, cfg);
    RecordsInOrder(routes, states, works, responses, n);
    forall k | 0 <= k < n && works[k].Proxied?
      ensures responses[k] == ResponseStatus(VerdictOn(routes, states[k], works[k].job).outcome, works[k].job.env)
    {
      ResponseOf(routes, states, works, responses, k);
    }
    if cfg.limit.enabled {
      forall addr: string, lo: int, hi: int | hi <= lo + cfg.limit.Window()
        ensures DispatchedIn(routes, states, works, n, addr, lo, hi)
                  <= SpentIn(routes, states, works, n, addr, lo, hi) <= cfg.limit.Limit()
      {
        DispatchedAreSpent(routes, states, works, n, addr, lo, hi);
        BudgetBounds(cfg, routes, states, works, responses, addr, lo, hi);
      }
    }
    forall k | 0 <= k < n && Asks(routes, works[k]) && AuthRule(cfg.auth, works[k].Core())
      ensures DecidedByBudget(cfg, routes, states, works, responses, k)
    {
      BudgetDecides(cfg, routes, states, works, responses, k);
    }
  }

  lemma SameLengths(routes: seq<Route>, states: seq<Observed>, works: seq<Work>, responses: seq<nat>,
                    cfg: MC.ChainConfig)
    requires Served(routes, states, works, responses) && FreshStart(cfg, states)
    ensures |states| == |works| + 1 && |responses| == |works| && states[0].history == []
  {
    hide HandledAt;
  }

  lemma ResponseOf(routes: seq<Route>, states: seq<Observed>, works: seq<Work>, responses: seq<nat>, k: nat)
    requires Served(routes, states, works, responses) && k < |works| && works[k].Proxied?
    ensures responses[k] == ResponseStatus(VerdictOn(routes, states[k], works[k].job).outcome, works[k].job.env)
  {
    hide Verdict, RecordOf;
    assert HandledAt(routes, states, works, responses, k);
  }

  const ONE_PER_MINUTE := MC.ChainConfig(false, AuthConfig(false, None), MC.LimitConfig(true, Some(1), Some(60)))

  lemma OnePerMinute(request: Request)
    ensures AuthRule(ONE_PER_MINUTE.auth, request) && ONE_PER_MINUTE.limit.Limit() == 1
  {
  }

  lemma TwoInOrder(a: Work, b: Work)
    requires a.Now() <= b.Now()
    ensures InOrder([a, b])
  {
  }

  /** For instance, with one request per minute allowed and no keys asked for: after an admin request the
      client's next proxied request is turned away, although nothing was dispatched. */
  lemma AdminSpendsBudget(routes: seq<Route>, states: seq<Observed>, admin: Work, proxied: Work, responses: seq<nat>)
    requires admin.Admin? && proxied.Proxied? && admin.Addr() == proxied.Addr() && admin.Now() == proxied.Now()
    requires Asks(routes, proxied)
    requires FreshStart(ONE_PER_MINUTE, states) && Served(routes, states, [admin, proxied], responses)
    ensures responses[1] == 429
    ensures DispatchedIn(routes, states, [admin, proxied], 2, proxied.Addr(), 0, proxied.Now()) == 0
  {
    hide Served, InOrder, FreshStart, VerdictOn, Charged, Asks, AuthRule;
    var cfg, works := ONE_PER_MINUTE, [admin, proxied];
    TwoInOrder(admin, proxied);
    SameLengths(routes, states, works, responses, cfg);
    OnePerMinute(admin.Core());
    OnePerMinute(proxied.Core());
    AdminAsks(routes, admin);
    BudgetDecides(cfg, routes, states, works, responses, 0);
    BudgetDecides(cfg, routes, states, works, responses, 1);
    var lo := proxied.Now() - cfg.limit.Window();
    assert CountIn(routes, states, works, 0, proxied.Addr(), lo, proxied.Now(), false) == 0;
    assert CountIn(routes, states, works, 1, proxied.Addr(), lo, proxied.Now(), false) == 1;
    assert CountIn(routes, states, works, 1, proxied.Addr(), 0, proxied.Now(), true) == 0;
  }

  lemma AdminAsks(routes: seq<Route>, w: Work)
    requires w.Admin?
    ensures Asks(routes, w)
  {
  }
}
