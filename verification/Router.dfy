/** Route selection of `src/core/router.rs`: the first match over the routes sorted by descending
    path length. */
module Router {
  import opened Text
  import StableSort

  datatype ZmqPattern = ReqRep | Push | PubSub

  datatype Transport =
    | Http(url: string, stripPrefix: bool)
    | Zmq(address: string, pattern: ZmqPattern)
    | GraphQL(url: string)
    | Grpc(url: string)
    | WebSocket(url: string)
    | Mqtt(brokerUrl: string)
    | Amqp(brokerUrl: string)

  datatype Route = Route(path: string, methods: seq<string>, transport: Transport)

  // ----- matching -----

  predicate MethodChar(c: char) {
    'a' <= c <= 'z' || 'A' <= c <= 'Z' || '0' <= c <= '9' || c == '-'
  }

  predicate ValidMethod(verb: string) {
    verb != "" && forall i :: 0 <= i < |verb| ==> MethodChar(verb[i])
  }

  /** `route` is a prefix of `path` that ends at a segment boundary. */
  predicate PrefixMatches(route: string, path: string) {
    && route <= path
    && (|path| == |route| || path[|route|] == '/' || (route != "" && route[|route| - 1] == '/'))
  }

  predicate AllowsMethod(r: Route, verb: string) {
    r.methods == [] || exists m :: m in r.methods && Upper(m) == Upper(verb)
  }

  predicate Matches(r: Route, verb: string, path: string) {
    PrefixMatches(r.path, path) && AllowsMethod(r, verb)
  }

  // ----- the router -----

  /** Sorting key of `Router::new`: longer paths come first. */
  function Rank(r: Route): int {
    -|r.path|
  }

  /** `Router::new`. */
  function NewRouter(configured: seq<Route>): seq<Route> {
    StableSort.Sort(configured, Rank)
  }

  function FirstMatch(routes: seq<Route>, verb: string, path: string): Option<Route> {
    if routes == [] then None
    else if Matches(routes[0], verb, path) then Some(routes[0])
    else FirstMatch(routes[1..], verb, path)
  }

  /** `Router::route` over the sorted list. */
  function Select(routes: seq<Route>, verb: string, path: string): Option<Route> {
    if ValidMethod(verb) then FirstMatch(routes, verb, path) else None
  }

  // ----- what is selected -----

  /** `i` is the configured route that should win: it matches, every other match is strictly shorter
      or is a later duplicate of the same path. */
  ghost predicate Wins(configured: seq<Route>, i: nat, verb: string, path: string) {
    && i < |configured| && Matches(configured[i], verb, path)
    && forall j :: 0 <= j < |configured| && Matches(configured[j], verb, path) ==>
         || |configured[j].path| < |configured[i].path|
         || (configured[j].path == configured[i].path && i <= j)
  }

  lemma {:induction false} FirstMatchAfterInsert(x: Route, sorted: seq<Route>, verb: string, path: string)
    requires StableSort.Ascending(sorted, Rank)
    ensures var f := FirstMatch(sorted, verb, path);
            FirstMatch(StableSort.Insert(x, sorted, Rank), verb, path) ==
              if Matches(x, verb, path) && (f == None || |f.value.path| <= |x.path|) then Some(x) else f
  {
    if sorted == [] || Rank(x) <= Rank(sorted[0]) {
      assert ([x] + sorted)[1..] == sorted;
      FirstMatchNoLonger(sorted, verb, path);
    } else {
      var rest := StableSort.Insert(x, sorted[1..], Rank);
      assert ([sorted[0]] + rest)[1..] == rest;
      FirstMatchAfterInsert(x, sorted[1..], verb, path);
      FirstMatchNoLonger(sorted, verb, path);
    }
  }

  lemma {:induction false} FirstMatchNoLonger(sorted: seq<Route>, verb: string, path: string)
    requires StableSort.Ascending(sorted, Rank)
    ensures FirstMatch(sorted, verb, path).Some? ==>
              sorted != [] && |FirstMatch(sorted, verb, path).value.path| <= |sorted[0].path|
  {
    if sorted != [] && !Matches(sorted[0], verb, path) && FirstMatch(sorted, verb, path).Some? {
      FirstMatchNoLonger(sorted[1..], verb, path);
      assert Rank(sorted[0]) <= Rank(sorted[1]);
    }
  }

  /** Both prefixes of the same path, so equal lengths mean equal paths. */
  lemma SameLengthSamePath(a: Route, b: Route, verb: string, path: string)
    requires Matches(a, verb, path) && Matches(b, verb, path) && |a.path| == |b.path|
    ensures a.path == b.path
  {
    assert a.path == path[..|a.path|] && b.path == path[..|b.path|];
  }

  /** The first match over the sorted list is the winner among the configured routes, and there is
      no match exactly when no configured route matches. */
  lemma {:induction false} FirstMatchWins(configured: seq<Route>, verb: string, path: string)
    ensures var f := FirstMatch(NewRouter(configured), verb, path);
            && (f == None <==> forall j :: 0 <= j < |configured| ==> !Matches(configured[j], verb, path))
            && (f.Some? ==> exists i: nat :: Wins(configured, i, verb, path) && configured[i] == f.value)
  {
    if configured != [] {
      var x, rest := configured[0], configured[1..];
      FirstMatchWins(rest, verb, path);
      StableSort.SortIsStableSort(rest, Rank);
      FirstMatchAfterInsert(x, NewRouter(rest), verb, path);
      var f := FirstMatch(NewRouter(rest), verb, path);
      assert forall j :: 1 <= j < |configured| ==> configured[j] == rest[j - 1];
      if f == None {
        assert forall j :: 1 <= j < |configured| ==> !Matches(configured[j], verb, path);
        if Matches(x, verb, path) {
          assert Wins(configured, 0, verb, path);
        }
      } else {
        var i: nat :| Wins(rest, i, verb, path) && rest[i] == f.value;
        assert configured[i + 1] == rest[i];
        if Matches(x, verb, path) && |f.value.path| <= |x.path| {
          FrontWins(configured, i, verb, path);
        } else {
          ShiftWins(configured, i, verb, path);
        }
      }
    }
  }

  lemma FrontWins(configured: seq<Route>, i: nat, verb: string, path: string)
    requires configured != [] && Wins(configured[1..], i, verb, path)
    requires Matches(configured[0], verb, path) && |configured[1..][i].path| <= |configured[0].path|
    ensures Wins(configured, 0, verb, path)
  {
    forall j | 0 <= j < |configured| && Matches(configured[j], verb, path)
      ensures |configured[j].path| < |configured[0].path| || configured[j].path == configured[0].path
    {
      if j > 0 {
        assert configured[1..][j - 1] == configured[j];
        if |configured[j].path| == |configured[0].path| {
          SameLengthSamePath(configured[j], configured[0], verb, path);
        }
      }
    }
  }

  lemma ShiftWins(configured: seq<Route>, i: nat, verb: string, path: string)
    requires configured != [] && Wins(configured[1..], i, verb, path)
    requires Matches(configured[0], verb, path) ==> |configured[0].path| < |configured[1..][i].path|
    ensures Wins(configured, i + 1, verb, path)
  {
    forall j | 0 <= j < |configured| && Matches(configured[j], verb, path)
      ensures || |configured[j].path| < |configured[i + 1].path|
              || (configured[j].path == configured[i + 1].path && i + 1 <= j)
    {
      if j > 0 {
        assert configured[1..][j - 1] == configured[j];
      }
    }
  }

  lemma SelectWins(configured: seq<Route>, verb: string, path: string)
    ensures var r := Select(NewRouter(configured), verb, path);
            && (r == None <==>
                 !ValidMethod(verb) || forall j :: 0 <= j < |configured| ==> !Matches(configured[j], verb, path))
            && (r.Some? ==> exists i: nat :: Wins(configured, i, verb, path) && configured[i] == r.value)
  {
    FirstMatchWins(configured, verb, path);
  }

  // ----- the same in characters -----

  /** The same character, or the two cases of one ASCII letter. */
  predicate SameLetter(a: char, b: char) {
    || a == b
    || ('a' <= a <= 'z' && 'A' <= b <= 'Z' && a as int - 'a' as int == b as int - 'A' as int)
    || ('A' <= a <= 'Z' && 'a' <= b <= 'z' && a as int - 'A' as int == b as int - 'a' as int)
  }

  predicate SameMethod(m: string, verb: string) {
    |m| == |verb| && forall i :: 0 <= i < |m| ==> SameLetter(m[i], verb[i])
  }

  /** What makes a configured route a candidate: its path is the request path, or is continued there by
      a slash, or ends in one; and it lists no methods, or lists this one in some case. */
  ghost predicate Eligible(r: Route, verb: string, path: string) {
    && (path == r.path || r.path + "/" <= path || (r.path <= path && exists u: string :: r.path == u + "/"))
    && (r.methods == [] || exists m :: m in r.methods && SameMethod(m, verb))
  }

  /** Empty, or with a character that is no ASCII letter, no digit and no hyphen. */
  ghost predicate Malformed(verb: string) {
    verb == "" || exists i :: 0 <= i < |verb| && !(IsLetter(verb[i]) || '0' <= verb[i] <= '9' || verb[i] == '-')
  }

  predicate IsLetter(c: char) {
    'A' <= c <= 'Z' || 'a' <= c <= 'z'
  }

  lemma UpperIsSameLetter(a: char, b: char)
    ensures UpperChar(a) == UpperChar(b) <==> SameLetter(a, b)
  {
  }

  lemma UpperIsSameMethod(m: string, verb: string)
    ensures Upper(m) == Upper(verb) <==> SameMethod(m, verb)
  {
    hide UpperChar, SameLetter;
    if |m| == |verb| {
      forall i | 0 <= i < |m| ensures Upper(m)[i] == Upper(verb)[i] <==> SameLetter(m[i], verb[i]) {
        UpperIsSameLetter(m[i], verb[i]);
      }
    }
  }

  lemma EndsInSlash(r: string)
    ensures (exists u: string :: r == u + "/") <==> r != "" && r[|r| - 1] == '/'
  {
    if r != "" && r[|r| - 1] == '/' {
      assert r == r[..|r| - 1] + "/";
    }
  }

  lemma MatchesIsEligible(r: Route, verb: string, path: string)
    ensures Matches(r, verb, path) <==> Eligible(r, verb, path)
  {
    hide SameMethod;
    EndsInSlash(r.path);
    assert r.path + "/" <= path <==> r.path <= path && |r.path| < |path| && path[|r.path|] == '/' by {
      assert (r.path + "/")[..|r.path|] == r.path;
    }
    forall m ensures Upper(m) == Upper(verb) <==> SameMethod(m, verb) {
      UpperIsSameMethod(m, verb);
    }
  }

  lemma MalformedIsInvalid(verb: string)
    ensures Malformed(verb) <==> !ValidMethod(verb)
  {
  }

  /** The candidate every other candidate is shorter than, or is a later duplicate of. */
  ghost predicate Best(configured: seq<Route>, i: nat, verb: string, path: string) {
    && i < |configured| && Eligible(configured[i], verb, path)
    && forall j :: 0 <= j < |configured| && Eligible(configured[j], verb, path) ==>
         || |configured[j].path| < |configured[i].path|
         || (configured[j].path == configured[i].path && i <= j)
  }

  lemma WinsIsBest(configured: seq<Route>, i: nat, verb: string, path: string)
    ensures Wins(configured, i, verb, path) <==> Best(configured, i, verb, path)
  {
    hide Matches, Eligible;
    forall j | 0 <= j < |configured|
      ensures Matches(configured[j], verb, path) <==> Eligible(configured[j], verb, path)
    {
      MatchesIsEligible(configured[j], verb, path);
    }
  }

  /** `Router::route` in full: no answer exactly for a malformed method or when nothing configured is
      eligible; otherwise the longest candidate, the earliest configured among duplicates. */
  lemma SelectSpec(configured: seq<Route>, verb: string, path: string)
    ensures var r := Select(NewRouter(configured), verb, path);
            && (r == None <==>
                 Malformed(verb) || forall j :: 0 <= j < |configured| ==> !Eligible(configured[j], verb, path))
            && (r.Some? ==> exists i: nat :: Best(configured, i, verb, path) && configured[i] == r.value)
  {
    hide Matches, Eligible, NewRouter, Select, Malformed, ValidMethod;
    SelectWins(configured, verb, path);
    MalformedIsInvalid(verb);
    forall j | 0 <= j < |configured|
      ensures Matches(configured[j], verb, path) <==> Eligible(configured[j], verb, path)
    {
      MatchesIsEligible(configured[j], verb, path);
    }
    var r := Select(NewRouter(configured), verb, path);
    if r.Some? {
      var i: nat :| Wins(configured, i, verb, path) && configured[i] == r.value;
      WinsIsBest(configured, i, verb, path);
    }
  }

  /** The winner is unique, so `SelectSpec` leaves no freedom. */
  lemma WinnerUnique(configured: seq<Route>, i: nat, j: nat, verb: string, path: string)
    requires Best(configured, i, verb, path) && Best(configured, j, verb, path)
    ensures i == j
  {
    assert Eligible(configured[i], verb, path) && Eligible(configured[j], verb, path);
  }

  /** The matched path does not depend on the order of the configuration. */
  lemma OrderIndependent(configured: seq<Route>, shuffled: seq<Route>, verb: string, path: string)
    requires multiset(configured) == multiset(shuffled)
    ensures var a, b := Select(NewRouter(configured), verb, path), Select(NewRouter(shuffled), verb, path);
            && (a == None <==> b == None)
            && (a.Some? ==> a.value.path == b.value.path)
  {
    SelectWins(configured, verb, path);
    SelectWins(shuffled, verb, path);
    ShuffleMatches(configured, shuffled, verb, path);
    ShuffleMatches(shuffled, configured, verb, path);
    if ValidMethod(verb) && Select(NewRouter(configured), verb, path).Some? {
      var i: nat :| Wins(configured, i, verb, path) && configured[i] == Select(NewRouter(configured), verb, path).value;
      var j: nat :| Wins(shuffled, j, verb, path) && shuffled[j] == Select(NewRouter(shuffled), verb, path).value;
      var i' := IndexIn(configured[i], configured, shuffled);
      var j' := IndexIn(shuffled[j], shuffled, configured);
      assert Matches(shuffled[i'], verb, path) && Matches(configured[j'], verb, path);
    }
  }

  lemma IndexIn(r: Route, a: seq<Route>, b: seq<Route>) returns (k: nat)
    requires r in a && multiset(a) == multiset(b)
    ensures k < |b| && b[k] == r
  {
    assert r in multiset(b);
    k :| 0 <= k < |b| && b[k] == r;
  }

  lemma ShuffleMatches(a: seq<Route>, b: seq<Route>, verb: string, path: string)
    requires multiset(a) == multiset(b)
    ensures (exists i :: 0 <= i < |a| && Matches(a[i], verb, path)) ==>
              exists j :: 0 <= j < |b| && Matches(b[j], verb, path)
  {
    if i :| 0 <= i < |a| && Matches(a[i], verb, path) {
      var k := IndexIn(a[i], a, b);
      assert Matches(b[k], verb, path);
    }
  }
}
