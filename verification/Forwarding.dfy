/** The forward path of an HTTP route (`handle_request` in `src/core/gateway.rs`) and the guards
    that `HttpGateway::proxy` (`src/gateway/http.rs`) applies to it. */
module Forwarding {
  import opened Text
  import opened PathDecoding
  import opened Router

  /** `str::strip_prefix`. */
  function StripPrefix(path: string, prefix: string): Option<string> {
    if prefix <= path then Some(path[|prefix|..]) else None
  }

  // ----- what a prefix match means -----

  /** The segments a route path names; a trailing slash names one more, which may be anything. */
  function Named(route: string): (segments: seq<string>) {
    if route != "" && route[|route| - 1] == '/' then Split(route[..|route| - 1]) else Split(route)
  }

  /** The router's character test is a test on whole segments: the route's segments come first in the
      path, and a trailing slash asks for a further segment. */
  lemma PrefixMatchesSegments(route: string, path: string)
    ensures PrefixMatches(route, path) <==> Named(route) <= Split(path) && |Split(route)| <= |Split(path)|
  {
    if route != "" && route[|route| - 1] == '/' {
      SlashedPrefix(route[..|route| - 1], path);
      assert route == route[..|route| - 1] + "/";
    } else {
      PlainPrefix(route, path);
    }
  }

  /** `path` begins with `u` followed by a slash exactly when it has more segments, the first being `u`'s. */
  lemma StartsWithSegments(u: string, path: string)
    ensures u + "/" <= path <==> Split(u) <= Split(path) && |Split(u)| < |Split(path)|
  {
    if u + "/" <= path {
      var v := path[|u| + 1..];
      assert path == u + "/" + v;
      SplitAtSlash(u, v);
    }
    if Split(u) <= Split(path) && |Split(u)| < |Split(path)| {
      var more := Split(path)[|Split(u)|..];
      assert Split(path) == Split(u) + more;
      JoinConcat(Split(u), more);
      JoinSplit(u);
      JoinSplit(path);
    }
  }

  lemma SlashedPrefix(u: string, path: string)
    ensures PrefixMatches(u + "/", path) <==> Split(u) <= Split(path) && |Split(u + "/")| <= |Split(path)|
  {
    StartsWithSegments(u, path);
    SplitAtSlash(u, "");
    assert u + "/" + "" == u + "/" && Split("") == [""];
  }

  lemma PlainPrefix(route: string, path: string)
    requires route == "" || route[|route| - 1] != '/'
    ensures PrefixMatches(route, path) <==> Split(route) <= Split(path)
  {
    StartsWithSegments(route, path);
    if Split(route) == Split(path) {
      JoinSplit(route);
      JoinSplit(path);
    }
    assert PrefixMatches(route, path) <==> path == route || route + "/" <= path;
  }

  // ----- the forward path -----

  /** The path sent upstream: the request path, or what follows the matched route. */
  function ForwardPath(path: string, route: string, strip: bool): string {
    if !strip then path
    else
      var stripped := match StripPrefix(path, route) case Some(rest) => rest case None => path;
      if stripped == "" then "/"
      else if "/" <= stripped then stripped
      else "/" + stripped
  }

  /** The guards of `HttpGateway::proxy`, in order. */
  datatype GuardResult = Passed | BadScheme | BadPath | BadQuery

  function ProxyGuards(base: string, path: string, query: Option<string>): GuardResult {
    if !("http://" <= base) && !("https://" <= base) then BadScheme
    else if Traversal(path) then BadPath
    else if !PathIsSafe(path) then BadPath
    else if query.Some? && !QueryIsSafe(query.value) then BadQuery
    else Passed
  }

  /** What is left of a matched path is a whole number of segments. */
  lemma ForwardShape(path: string, route: string)
    requires PrefixMatches(route, path)
    ensures StripPrefix(path, route).Some?
    ensures var f := ForwardPath(path, route, true);
            || (f == "/" && path == route)
            || path == route + f
            || (route != "" && route[|route| - 1] == '/' && path == route[..|route| - 1] + f)
  {
    var f := ForwardPath(path, route, true);
    var stripped := path[|route|..];
    assert path == route + stripped;
    if stripped != "" && !("/" <= stripped) {
      assert route == route[..|route| - 1] + "/";
      assert path == route[..|route| - 1] + f;
    }
  }

  /** Stripping the matched prefix never turns a clean path into one with a `..` segment. */
  lemma StripKeepsClean(path: string, route: string)
    requires PrefixMatches(route, path) && !Traversal(path)
    ensures !Traversal(ForwardPath(path, route, true))
  {
    hide Traversal;
    var f := ForwardPath(path, route, true);
    ForwardShape(path, route);
    var v := f[1..];
    assert f == "" + "/" + v;
    TraversalSplits("", v);
    EmptyIsClean();
    if f != "/" || path != route {
      var u := if path == route + f then route else route[..|route| - 1];
      assert path == u + "/" + v;
      TraversalSplits(u, v);
    } else {
      assert v == "";
    }
  }

  lemma EmptyIsClean()
    ensures !Traversal("")
  {
    assert Lower("") == "" && NormalForm("") == "" && Split("") == [""];
  }

  /** A request that the router matched and whose own path passes the traversal and safe-path checks
      passes them again after its prefix was stripped: the forward path starts with a slash, the
      fallback of `strip_prefix` is not used, and the proxy can only refuse the scheme or the query. */
  lemma StrippedPathStaysSafe(configured: seq<Route>, verb: string, path: string, base: string,
                              query: Option<string>, strip: bool)
    requires Select(NewRouter(configured), verb, path).Some?
    requires !Traversal(path) && PathIsSafe(path)
    ensures var route := Select(NewRouter(configured), verb, path).value.path;
            var f := ForwardPath(path, route, strip);
            && StripPrefix(path, route).Some?
            && "/" <= f && PathIsSafe(f) && !Traversal(f)
            && ProxyGuards(base, f, query) != BadPath
  {
    hide Traversal, FirstMatch, NewRouter, PathIsSafe, ForwardPath;
    SelectWins(configured, verb, path);
    var route := Select(NewRouter(configured), verb, path).value.path;
    assert PrefixMatches(route, path);
    ForwardShape(path, route);
    ForwardCharacters(path, route);
    NoStrip(path, route);
    if strip {
      StripKeepsClean(path, route);
    }
  }

  lemma NoStrip(path: string, route: string)
    ensures ForwardPath(path, route, false) == path
    ensures PathIsSafe(path) ==> "/" <= path
  {
  }

  lemma ForwardCharacters(path: string, route: string)
    requires PrefixMatches(route, path) && PathIsSafe(path)
    ensures PathIsSafe(ForwardPath(path, route, true)) && "/" <= ForwardPath(path, route, true)
  {
    var f := ForwardPath(path, route, true);
    var stripped := path[|route|..];
    assert forall i :: 0 <= i < |stripped| ==> stripped[i] == path[|route| + i];
    if f != stripped && f != "/" {
      assert forall i :: 1 <= i < |f| ==> f[i] == stripped[i - 1];
    }
  }
}
