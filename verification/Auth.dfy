/** Bearer-token authentication of `src/core/middleware/auth.rs`. Header values and keys are byte
    strings, because the comparison works on bytes. */
module Auth {
  import opened Text

  type Bytes = seq<bv8>

  datatype Header = Header(name: string, value: Bytes)
  datatype Request = Request(data: Bytes, headers: seq<Header>, remoteAddr: Option<string>)

  datatype Refusal = InvalidToken | MissingHeader | WrongScheme
  datatype Error = Unauthorized(why: Refusal) | RateLimited
  datatype Result<+T> = Ok(value: T) | Err(error: Error)

  /** An element of the `api_keys` array: a string or some other JSON value. */
  datatype JsonValue = Str(s: Bytes) | NotStr
  datatype AuthConfig = AuthConfig(enabled: bool, apiKeys: Option<seq<JsonValue>>)

  /** `"Bearer "`. */
  const BEARER: Bytes := [0x42, 0x65, 0x61, 0x72, 0x65, 0x72, 0x20]

  // ----- comparison without early exit -----

  /** The left fold of `acc | (x ^ y)` over the zipped bytes. */
  function Difference(a: Bytes, b: Bytes): bv8
    requires |a| == |b|
  {
    if a == [] then 0
    else
      var n := |a| - 1;
      Difference(a[..n], b[..n]) | (a[n] ^ b[n])
  }

  function ConstantTimeEq(a: Bytes, b: Bytes): bool {
    |a| == |b| && Difference(a, b) == 0
  }

  lemma NoBitDiffers(acc: bv8, x: bv8, y: bv8)
    ensures acc | (x ^ y) == 0 <==> acc == 0 && x == y
  {
  }

  lemma SplitLast(a: Bytes, b: Bytes)
    requires |a| == |b| > 0
    ensures var n := |a| - 1; a == b <==> a[..n] == b[..n] && a[n] == b[n]
  {
    var n := |a| - 1;
    assert a == a[..n] + [a[n]] && b == b[..n] + [b[n]];
  }

  lemma {:induction false} NoDifference(a: Bytes, b: Bytes)
    requires |a| == |b|
    ensures Difference(a, b) == 0 <==> a == b
  {
    if a != [] {
      var n := |a| - 1;
      NoDifference(a[..n], b[..n]);
      NoBitDiffers(Difference(a[..n], b[..n]), a[n], b[n]);
      SplitLast(a, b);
    }
  }

  /** The fold is string equality. */
  lemma ConstantTimeEqIsEquality(a: Bytes, b: Bytes)
    ensures ConstantTimeEq(a, b) <==> a == b
  {
    if |a| == |b| {
      NoDifference(a, b);
    }
  }

  // ----- token validation -----

  /** The fold over the configured keys, without short-circuiting. */
  function AnyKeyMatches(keys: seq<JsonValue>, token: Bytes): bool {
    if keys == [] then false
    else
      var n := |keys| - 1;
      var acc := AnyKeyMatches(keys[..n], token);
      match keys[n]
      case Str(key) => var hit := ConstantTimeEq(key, token); acc || hit
      case NotStr => acc
  }

  lemma {:induction false} AnyKeyMatchesIsMembership(keys: seq<JsonValue>, token: Bytes)
    ensures AnyKeyMatches(keys, token) <==> Str(token) in keys
  {
    if keys != [] {
      var n := |keys| - 1;
      AnyKeyMatchesIsMembership(keys[..n], token);
      assert keys == keys[..n] + [keys[n]];
      if keys[n].Str? {
        ConstantTimeEqIsEquality(keys[n].s, token);
      }
    }
  }

  predicate KeysConfigured(cfg: AuthConfig) {
    cfg.apiKeys.Some? && cfg.apiKeys.value != []
  }

  function TokenAccepted(cfg: AuthConfig, token: Bytes): bool {
    KeysConfigured(cfg) ==> AnyKeyMatches(cfg.apiKeys.value, token)
  }

  /** The value of the first `authorization` header. */
  function AuthHeader(headers: seq<Header>): Option<Bytes> {
    if headers == [] then None
    else if Lower(headers[0].name) == "authorization" then Some(headers[0].value)
    else AuthHeader(headers[1..])
  }

  /** `handle_request` of the auth middleware. */
  function Authenticate(cfg: AuthConfig, request: Request): Result<Request> {
    if !cfg.enabled then Ok(request)
    else
      match AuthHeader(request.headers)
      case Some(value) =>
        if BEARER <= value then
          if TokenAccepted(cfg, value[|BEARER|..]) then Ok(request) else Err(Unauthorized(InvalidToken))
        else if KeysConfigured(cfg) then Err(Unauthorized(WrongScheme))
        else Ok(request)
      case None =>
        if KeysConfigured(cfg) then Err(Unauthorized(MissingHeader)) else Ok(request)
  }

  // ----- the declarative rule -----

  /** Header `i` is the first `Authorization` header, in whatever case it is spelled. */
  ghost predicate FirstAuthorization(headers: seq<Header>, i: nat) {
    && i < |headers| && Lower(headers[i].name) == "authorization"
    && forall j :: 0 <= j < i ==> Lower(headers[j].name) != "authorization"
  }

  lemma {:induction false} AuthHeaderFound(headers: seq<Header>)
    ensures match AuthHeader(headers)
            case Some(v) => exists i: nat :: FirstAuthorization(headers, i) && headers[i].value == v
            case None => forall i :: 0 <= i < |headers| ==> Lower(headers[i].name) != "authorization"
  {
    hide Lower;
    if headers != [] {
      var rest := headers[1..];
      AuthHeaderFound(rest);
      if Lower(headers[0].name) == "authorization" {
        assert FirstAuthorization(headers, 0);
      } else if AuthHeader(rest).Some? {
        var i: nat :| FirstAuthorization(rest, i) && rest[i].value == AuthHeader(rest).value;
        FirstShift(headers, i + 1);
        assert headers[i + 1] == rest[i];
      } else {
        assert forall i :: 0 < i < |headers| ==> headers[i] == rest[i - 1];
      }
    }
  }

  /** The lookup finds the first such header and nothing else. */
  lemma AuthHeaderIsFirst(headers: seq<Header>, v: Bytes)
    ensures AuthHeader(headers) == Some(v) <==>
            exists i: nat :: FirstAuthorization(headers, i) && headers[i].value == v
    ensures AuthHeader(headers) == None <==>
            forall i :: 0 <= i < |headers| ==> Lower(headers[i].name) != "authorization"
  {
    hide Lower, AuthHeader;
    AuthHeaderFound(headers);
    if AuthHeader(headers).Some? {
      var i: nat :| FirstAuthorization(headers, i) && headers[i].value == AuthHeader(headers).value;
      forall j: nat | FirstAuthorization(headers, j) ensures j == i {
        OnlyFirst(headers, i, j);
      }
    }
  }

  lemma FirstShift(headers: seq<Header>, i: nat)
    requires headers != [] && Lower(headers[0].name) != "authorization"
    ensures FirstAuthorization(headers, i) <==> i > 0 && FirstAuthorization(headers[1..], i - 1)
  {
    var rest := headers[1..];
    assert forall j :: 0 <= j < |rest| ==> rest[j] == headers[j + 1];
    if i > 0 && FirstAuthorization(rest, i - 1) {
      forall j | 0 <= j < i ensures Lower(headers[j].name) != "authorization" {
        if j > 0 {
          assert headers[j] == rest[j - 1];
        }
      }
    }
  }

  /** The value carries `token`: the bytes of "Bearer ", then the token. */
  predicate Bears(value: Bytes, token: Bytes) {
    value == [0x42, 0x65, 0x61, 0x72, 0x65, 0x72, 0x20] + token
  }

  /** The first `Authorization` header bears one of the keys. */
  ghost predicate BearsKey(headers: seq<Header>, keys: seq<JsonValue>, i: nat, token: Bytes) {
    FirstAuthorization(headers, i) && Bears(headers[i].value, token) && Str(token) in keys
  }

  /** The rule an operator reads in the documentation: when authentication is on and keys are
      configured, the first `Authorization` header must be `Bearer` followed by one of the keys. */
  ghost predicate AuthRule(cfg: AuthConfig, request: Request) {
    cfg.enabled && cfg.apiKeys.Some? && cfg.apiKeys.value != [] ==>
      exists i: nat, token: Bytes :: BearsKey(request.headers, cfg.apiKeys.value, i, token)
  }

  /** Why a request that breaks the rule is refused. */
  ghost predicate RefusedFor(headers: seq<Header>, why: Refusal) {
    match why
    case MissingHeader => forall i :: 0 <= i < |headers| ==> Lower(headers[i].name) != "authorization"
    case InvalidToken =>
      exists i: nat, token: Bytes :: FirstAuthorization(headers, i) && Bears(headers[i].value, token)
    case WrongScheme =>
      exists i: nat :: FirstAuthorization(headers, i) && forall token: Bytes :: !Bears(headers[i].value, token)
  }

  lemma BearerPrefix(value: Bytes)
    ensures BEARER <= value <==> exists token: Bytes :: Bears(value, token)
    ensures BEARER <= value ==> forall token: Bytes :: Bears(value, token) <==> token == value[7..]
  {
    if BEARER <= value {
      assert Bears(value, value[7..]);
      forall token: Bytes | Bears(value, token) ensures token == value[7..] {
      }
    }
  }

  /** The middleware accepts exactly by the rule, passes the request on unchanged, and names the reason
      when it refuses. */
  lemma AuthenticateSpec(cfg: AuthConfig, request: Request)
    ensures AuthRule(cfg, request) ==> Authenticate(cfg, request) == Ok(request)
    ensures !AuthRule(cfg, request) ==>
              && Authenticate(cfg, request).Err? && Authenticate(cfg, request).error.Unauthorized?
              && RefusedFor(request.headers, Authenticate(cfg, request).error.why)
  {
    hide AnyKeyMatches, AuthHeader;
    var headers := request.headers;
    AuthHeaderFound(headers);
    match AuthHeader(headers)
    case None =>
    case Some(value) =>
      var i: nat :| FirstAuthorization(headers, i) && headers[i].value == value;
      forall j: nat | FirstAuthorization(headers, j) ensures j == i {
        OnlyFirst(headers, i, j);
      }
      BearerPrefix(value);
      if BEARER <= value && KeysConfigured(cfg) {
        var token := value[7..];
        AnyKeyMatchesIsMembership(cfg.apiKeys.value, token);
        if AnyKeyMatches(cfg.apiKeys.value, token) {
          assert BearsKey(headers, cfg.apiKeys.value, i, token);
        }
      }
  }

  lemma OnlyFirst(headers: seq<Header>, i: nat, j: nat)
    requires FirstAuthorization(headers, i) && FirstAuthorization(headers, j)
    ensures i == j
  {
  }
}
