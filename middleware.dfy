/**
 * cmd/api/middleware.go: the per-IP rate limiter, `authenticate`, the guard
 * chain (authenticated, activated, permitted) and the CORS handling that
 * run before a handler.
 *
 * The model is sequential: the mutex around the client map is dropped, the
 * background sweep is an explicit method, and time is an integer number of
 * milliseconds passed in by the caller.
 */
module Middleware {
  import opened Wrappers
  import opened Text
  import opened Decimal
  import opened Data
  import opened Http
  import V = Validator
  import P = Permissions

  /** Why a middleware answered instead of calling the next handler. */
  datatype Rejection =
    | InvalidAuthenticationToken
    | AuthenticationRequired
    | InactiveAccount
    | NotPermitted
    | RateLimitExceeded
    | ServerError

  /** The next handler runs on `request`, or the middleware answers with an error. */
  datatype Step = Next(request: Request) | Reject(reason: Rejection)

  // ---------------------------------------------------------------------------
  // Rate limiting
  // ---------------------------------------------------------------------------

  /** `rate.NewLimiter(2, 4)`: two tokens per second, bursts of four. */
  const LimiterRate: int := 2
  const LimiterBurst: int := 4
  /** Token levels are kept in thousandths of a token, so that a refill of
      `LimiterRate` tokens per second is exactly `LimiterRate` per millisecond. */
  const OneToken: int := 1000
  const FullBucket: int := LimiterBurst * OneToken
  /** Entries idle for more than three minutes are swept. */
  const IdleWindow: int := 3 * 60 * 1000

  /** A token bucket: its level and the time it was last drawn from. */
  datatype Bucket = Bucket(level: int, last: int)

  predicate ValidBucket(b: Bucket)
  {
    0 <= b.level <= FullBucket
  }

  /** A new limiter has not been used, so its first use finds it full. */
  function NewBucket(now: int): (b: Bucket)
    ensures ValidBucket(b) && b.level == FullBucket
  {
    Bucket(FullBucket, now)
  }

  /** The level at `now`: the time since the last draw refills the bucket at the
      limiter's rate, up to the burst size; a clock that went back adds nothing. */
  function Refilled(b: Bucket, now: int): (level: int)
    requires ValidBucket(b)
    ensures b.level <= level <= FullBucket
    ensures now <= b.last ==> level == b.level
    ensures now > b.last ==> level == Min(b.level + LimiterRate * (now - b.last), FullBucket)
  {
    var elapsed := if now > b.last then now - b.last else 0;
    var level := b.level + LimiterRate * elapsed;
    if level > FullBucket then FullBucket else level
  }

  /** `Limiter.Allow()` at `now`: admits when a whole token has accumulated and
      takes it; a refused request leaves the bucket as it was. */
  function Allow(b: Bucket, now: int): (r: (bool, Bucket))
    requires ValidBucket(b)
    ensures ValidBucket(r.1)
    ensures r.0 <==> Refilled(b, now) >= OneToken
    ensures r.0 ==> r.1.level == Refilled(b, now) - OneToken && r.1.last == now
    ensures !r.0 ==> r.1 == b
  {
    var level := Refilled(b, now);
    if level >= OneToken then (true, Bucket(level - OneToken, now)) else (false, b)
  }

  /** The `client` record of the map: its limiter and when it was last seen. */
  datatype Client = Client(bucket: Bucket, lastSeen: int)

  /** The map of clients that `rateLimiter` keeps for every request. */
  type Clients = map<string, Client>

  predicate AllValid(clients: Clients)
  {
    forall ip :: ip in clients ==> ValidBucket(clients[ip].bucket)
  }

  /** The bucket a request from `ip` draws from: its entry's, or a new one. */
  function BucketFor(clients: Clients, ip: string, now: int): (b: Bucket)
    requires AllValid(clients)
    ensures ValidBucket(b)
  {
    if ip in clients then clients[ip].bucket else NewBucket(now)
  }

  /** One request from `ip` at `now`: the entry is created if absent, its `lastSeen`
      becomes `now` whether or not the request is admitted, its limiter is asked,
      and no other entry changes. */
  function Admit(clients: Clients, ip: string, now: int): (r: (bool, Clients))
    requires AllValid(clients)
    ensures AllValid(r.1)
    ensures r.1.Keys == clients.Keys + {ip}
    ensures r.1[ip].lastSeen == now
    ensures forall k :: k in clients && k != ip ==> r.1[k] == clients[k]
    ensures r.0 <==> Refilled(BucketFor(clients, ip, now), now) >= OneToken
    ensures r.1[ip].bucket == Allow(BucketFor(clients, ip, now), now).1
  {
    var entry := if ip in clients then clients[ip] else Client(NewBucket(now), now);
    var (ok, b) := Allow(entry.bucket, now);
    (ok, clients[ip := Client(b, now)])
  }

  /** The entries that survive a sweep at `now`: those seen within the idle window. */
  function Swept(clients: Clients, now: int): (r: Clients)
    ensures forall ip :: ip in r <==> ip in clients && now - clients[ip].lastSeen <= IdleWindow
    ensures forall ip :: ip in r ==> r[ip] == clients[ip]
  {
    map ip | ip in clients && now - clients[ip].lastSeen <= IdleWindow :: clients[ip]
  }

  /** How many of `n` requests from `ip`, all at the instant `now`, are admitted. */
  function AdmittedAtOnce(clients: Clients, ip: string, now: int, n: nat): nat
    requires AllValid(clients)
    decreases n
  {
    if n == 0 then 0
    else
      var (ok, next) := Admit(clients, ip, now);
      (if ok then 1 else 0) + AdmittedAtOnce(next, ip, now, n - 1)
  }

  function Min(a: int, b: int): int
  {
    if a < b then a else b
  }

  /** Requests arriving at one instant are admitted while whole tokens remain:
      exactly as many as the bucket holds, and never more than the burst. */
  lemma {:induction false} AdmittedAtOnceIsLevel(clients: Clients, ip: string, now: int, n: nat)
    requires AllValid(clients)
    ensures AdmittedAtOnce(clients, ip, now, n) == Min(n, Refilled(BucketFor(clients, ip, now), now) / OneToken)
    ensures AdmittedAtOnce(clients, ip, now, n) <= LimiterBurst
    decreases n
  {
    if n > 0 {
      var b := BucketFor(clients, ip, now);
      var (ok, next) := Admit(clients, ip, now);
      AdmittedAtOnceIsLevel(next, ip, now, n - 1);
      var level := Refilled(b, now);
      if ok {
        assert Refilled(BucketFor(next, ip, now), now) == level - OneToken;
      } else {
        assert BucketFor(next, ip, now) == b;
      }
    }
  }

  /** A client without an entry that sends `n` requests at once gets
      `min(n, 4)` through: with five, four are admitted and the fifth is refused. */
  lemma NewClientBurst(clients: Clients, ip: string, now: int, n: nat)
    requires AllValid(clients) && ip !in clients
    ensures AdmittedAtOnce(clients, ip, now, n) == Min(n, LimiterBurst)
  {
    AdmittedAtOnceIsLevel(clients, ip, now, n);
  }

  /** A client seen at `seen` survives every sweep within three minutes of it and
      is removed by any later sweep. */
  lemma SweepAfterRequest(clients: Clients, ip: string, seen: int, now: int)
    requires AllValid(clients)
    ensures ip in Swept(Admit(clients, ip, seen).1, now) <==> now - seen <= IdleWindow
  {
  }

  /** Between two instants a bucket gains at most the rate times the gap. */
  lemma RefillGrowth(b: Bucket, earlier: int, later: int)
    requires ValidBucket(b) && earlier <= later
    ensures Refilled(b, later) <= Refilled(b, earlier) + LimiterRate * (later - earlier)
  {
    if later > b.last && earlier > b.last {
      assert b.level + LimiterRate * (later - b.last)
          == b.level + LimiterRate * (earlier - b.last) + LimiterRate * (later - earlier);
    } else if later > b.last {
      assert later - b.last <= later - earlier;
    }
  }

  /** Time stamps in the order requests arrive. */
  predicate NonDecreasing(times: seq<int>)
  {
    forall i, j :: 0 <= i < j < |times| ==> times[i] <= times[j]
  }

  /** How many requests from `ip`, arriving at the instants `times` in turn, are admitted. */
  function AdmittedOver(clients: Clients, ip: string, times: seq<int>): nat
    requires AllValid(clients)
    decreases |times|
  {
    if times == [] then 0
    else
      var (ok, next) := Admit(clients, ip, times[0]);
      (if ok then 1 else 0) + AdmittedOver(next, ip, times[1..])
  }

  /** The tokens spent over a run of requests are covered by the tokens held at its
      first instant plus what the bucket refills until its last. */
  lemma {:induction false} AdmittedOverCovered(clients: Clients, ip: string, times: seq<int>)
    requires AllValid(clients) && |times| >= 1 && NonDecreasing(times)
    ensures OneToken * AdmittedOver(clients, ip, times)
         <= Refilled(BucketFor(clients, ip, times[0]), times[0]) + LimiterRate * (times[|times| - 1] - times[0])
    decreases |times|
  {
    var b := BucketFor(clients, ip, times[0]);
    var (ok, next) := Admit(clients, ip, times[0]);
    var rest := times[1..];
    if rest != [] {
      assert NonDecreasing(rest) by {
        forall i, j | 0 <= i < j < |rest|
          ensures rest[i] <= rest[j]
        {
          assert rest[i] == times[i + 1] && rest[j] == times[j + 1];
        }
      }
      AdmittedOverCovered(next, ip, rest);
      var b' := BucketFor(next, ip, rest[0]);
      assert b' == Allow(b, times[0]).1;
      assert times[0] <= rest[0];
      RefillGrowth(b', times[0], rest[0]);
      if !ok {
        assert b' == b;
      }
      assert rest[|rest| - 1] == times[|times| - 1];
    }
  }

  /** Token-bucket correctness: requests from one IP spread over a window of `w`
      milliseconds are admitted at most burst plus rate times `w` times. */
  lemma WindowBound(clients: Clients, ip: string, times: seq<int>)
    requires AllValid(clients) && |times| >= 1 && NonDecreasing(times)
    ensures var w := times[|times| - 1] - times[0];
      AdmittedOver(clients, ip, times) <= LimiterBurst + LimiterRate * w / OneToken
  {
    var w := times[|times| - 1] - times[0];
    var n := AdmittedOver(clients, ip, times);
    AdmittedOverCovered(clients, ip, times);
    assert OneToken * n <= FullBucket + LimiterRate * w;
    var x := LimiterRate * w;
    assert x >= 0;
    assert x == OneToken * (x / OneToken) + x % OneToken;
    assert OneToken * n < OneToken * (LimiterBurst + x / OneToken + 1);
  }

  class RateLimiter {
    /** `config.limiter.enabled`. */
    const enabled: bool
    var clients: Clients

    predicate Valid()
      reads this
    {
      AllValid(clients)
    }

    constructor (enabled: bool)
      ensures this.enabled == enabled && clients == map[] && Valid()
    {
      this.enabled := enabled;
      clients := map[];
    }

    /** The handler `rateLimiter` wraps around `next`. `host` is what
        `net.SplitHostPort(r.RemoteAddr)` yields, `None` for an unparsable address. */
    method Limit(r: Request, host: Option<string>, now: int) returns (step: Step)
      requires Valid()
      modifies this
      ensures Valid()
      ensures !enabled ==> step == Next(r) && clients == old(clients)
      ensures enabled && host.None? ==> step == Reject(ServerError) && clients == old(clients)
      ensures enabled && host.Some? ==>
        var (ok, after) := Admit(old(clients), host.value, now);
        clients == after && step == (if ok then Next(r) else Reject(RateLimitExceeded))
    {
      if enabled {
        if host.None? {
          return Reject(ServerError);
        }
        var ip := host.value;
        if ip !in clients {
          clients := clients[ip := Client(NewBucket(now), 0)];
        }
        clients := clients[ip := clients[ip].(lastSeen := now)];
        var (ok, b) := Allow(clients[ip].bucket, now);
        clients := clients[ip := clients[ip].(bucket := b)];
        if !ok {
          return Reject(RateLimitExceeded);
        }
      }
      return Next(r);
    }

    /** One pass of the background cleanup: deletes every entry last seen more than
        three minutes before `now`. */
    method Sweep(now: int)
      requires Valid()
      modifies this
      ensures Valid()
      ensures clients == Swept(old(clients), now)
    {
      var pending := clients.Keys;
      while pending != {}
        invariant pending <= old(clients).Keys
        invariant clients.Keys == (set ip | ip in old(clients) && (ip in pending || now - old(clients)[ip].lastSeen <= IdleWindow))
        invariant forall ip :: ip in clients ==> clients[ip] == old(clients)[ip]
        decreases pending
      {
        var ip :| ip in pending;
        if now - clients[ip].lastSeen > IdleWindow {
          clients := clients - {ip};
        }
        pending := pending - {ip};
      }
    }
  }

  // ---------------------------------------------------------------------------
  // Authentication
  // ---------------------------------------------------------------------------

  /** The token of an `Authorization` header of exactly two space-separated parts,
      the first being `Bearer`. */
  function BearerToken(authorization: string): (token: Option<string>)
    ensures token.Some? ==> authorization == "Bearer " + token.value && ' ' !in token.value
  {
    var parts := Split(authorization, ' ');
    if |parts| != 2 || parts[0] != "Bearer" then None
    else
      SplitInTwo(authorization, ' ', parts[0], parts[1]);
      Some(parts[1])
  }

  /** A header yields a token exactly when it is `Bearer`, one space, and a token
      without spaces; `bearer`, a tab or a second space all fail. */
  lemma BearerTokenExactly(authorization: string, token: string)
    ensures BearerToken(authorization) == Some(token) <==> authorization == "Bearer " + token && ' ' !in token
  {
    if authorization == "Bearer " + token && ' ' !in token {
      assert authorization == "Bearer" + [' '] + token;
      SplitInTwo(authorization, ' ', "Bearer", token);
    }
  }

  /** The decision `authenticate` takes. `validateToken` gives the checks that
      `ValidateTokenPlaintext` fails; `getForToken(scope, token)` is the store lookup. */
  function AuthenticateDecision(r: Request, validateToken: string -> seq<V.FieldError>,
                                getForToken: (string, string) -> Result<User, StoreError>): (step: Step)
    ensures FirstValue(r.header, "Authorization") == "" ==> step == Next(r.(principal := Some(Anonymous)))
    ensures step.Next? ==> step.request.principal.Some? && step.request == r.(principal := step.request.principal)
    ensures step.Next? <==>
      var h := FirstValue(r.header, "Authorization");
      h == "" || (BearerToken(h).Some? && validateToken(BearerToken(h).value) == []
                  && getForToken(ScopeAuthentication, BearerToken(h).value).Success?)
    ensures var h := FirstValue(r.header, "Authorization");
      h != "" && step.Next? ==>
        step.request.principal == Some(Known(getForToken(ScopeAuthentication, BearerToken(h).value).value))
    ensures step == Reject(InvalidAuthenticationToken) <==>
      var h := FirstValue(r.header, "Authorization");
      h != "" && (BearerToken(h).None? || validateToken(BearerToken(h).value) != []
                  || getForToken(ScopeAuthentication, BearerToken(h).value) == Failure(RecordNotFound))
    ensures step == Reject(ServerError) <==>
      var h := FirstValue(r.header, "Authorization");
      h != "" && BearerToken(h).Some? && validateToken(BearerToken(h).value) == []
      && getForToken(ScopeAuthentication, BearerToken(h).value) == Failure(Fault)
  {
    var h := FirstValue(r.header, "Authorization");
    if h == "" then Next(r.(principal := Some(Anonymous)))
    else match BearerToken(h)
      case None => Reject(InvalidAuthenticationToken)
      case Some(token) =>
        V.AddedAllEmpty(validateToken(token));
        if V.AddedAll(map[], validateToken(token)) != map[] then Reject(InvalidAuthenticationToken)
        else match getForToken(ScopeAuthentication, token)
          case Failure(RecordNotFound) => Reject(InvalidAuthenticationToken)
          case Failure(Fault) => Reject(ServerError)
          case Success(user) => Next(r.(principal := Some(Known(user))))
  }

  /** `authenticate`: marks the response as varying with `Authorization`, then
      attaches the anonymous user or the token's user, or answers with an error. */
  method Authenticate(w: ResponseWriter, r: Request, validateToken: string -> seq<V.FieldError>,
                      getForToken: (string, string) -> Result<User, StoreError>) returns (step: Step)
    modifies w
    ensures w.header == HeaderAdd(old(w.header), "Vary", "Authorization") && w.status == old(w.status)
    ensures step == AuthenticateDecision(r, validateToken, getForToken)
  {
    w.Add("Vary", "Authorization");
    step := AuthenticateDecision(r, validateToken, getForToken);
  }

  // ---------------------------------------------------------------------------
  // Authorization guards
  // ---------------------------------------------------------------------------

  /** `requireAuthenticatedUser`. Reading the user from the context panics when
      `authenticate` has not run; here that is the precondition. */
  function RequireAuthenticatedUser(r: Request): (step: Step)
    requires r.principal.Some?
    ensures step.Next? <==> r.principal.value.Known?
    ensures step.Next? ==> step.request == r
    ensures step.Reject? ==> step.reason == AuthenticationRequired
  {
    if r.principal.value == Anonymous then Reject(AuthenticationRequired) else Next(r)
  }

  /** `requireActivatedUser`: the activation check wrapped in
      `requireAuthenticatedUser`, so the anonymous user, which is not activated
      either, is told that authentication is required. */
  function RequireActivatedUser(r: Request): (step: Step)
    requires r.principal.Some?
    ensures step.Next? <==> r.principal.value.Known? && r.principal.value.user.activated
    ensures step.Next? ==> step.request == r
    ensures r.principal.value == Anonymous ==> step == Reject(AuthenticationRequired)
    ensures r.principal.value.Known? && !r.principal.value.user.activated ==> step == Reject(InactiveAccount)
  {
    match RequireAuthenticatedUser(r)
    case Reject(reason) => Reject(reason)
    case Next(r') => if !Activated(r'.principal.value) then Reject(InactiveAccount) else Next(r')
  }

  /** `requirePermission(code)`: the permission check wrapped in
      `requireActivatedUser`. `getAllForUser` is the store's permission query. */
  function RequirePermission(code: string, r: Request,
                             getAllForUser: Int64 -> Result<P.Permissions, StoreError>): (step: Step)
    requires r.principal.Some?
    ensures step.Next? ==> step.request == r
    ensures step.Next? <==>
      && r.principal.value.Known? && r.principal.value.user.activated
      && getAllForUser(r.principal.value.user.id).Success?
      && code in getAllForUser(r.principal.value.user.id).value
    ensures r.principal.value == Anonymous ==> step == Reject(AuthenticationRequired)
    ensures r.principal.value.Known? && !r.principal.value.user.activated ==> step == Reject(InactiveAccount)
    ensures step == Reject(ServerError) <==>
      r.principal.value.Known? && r.principal.value.user.activated
      && getAllForUser(r.principal.value.user.id).Failure?
    ensures step == Reject(NotPermitted) <==>
      && r.principal.value.Known? && r.principal.value.user.activated
      && getAllForUser(r.principal.value.user.id).Success?
      && code !in getAllForUser(r.principal.value.user.id).value
  {
    match RequireActivatedUser(r)
    case Reject(reason) => Reject(reason)
    case Next(r') =>
      match getAllForUser(r'.principal.value.user.id)
      case Failure(_) => Reject(ServerError)
      case Success(permissions) =>
        if code !in permissions then Reject(NotPermitted) else Next(r')
  }

  /** Permissions are fetched only for an authenticated, activated user: for anyone
      else the outcome is the same whatever the store would answer. */
  lemma PermissionsFetchedOnlyForActivated(code: string, r: Request,
                                           f: Int64 -> Result<P.Permissions, StoreError>,
                                           g: Int64 -> Result<P.Permissions, StoreError>)
    requires r.principal.Some? && !Activated(r.principal.value)
    ensures RequirePermission(code, r, f) == RequirePermission(code, r, g)
  {
  }

  /** A request that arrived without an `Authorization` header carries the anonymous
      user after `authenticate` and is stopped by `requireAuthenticatedUser`. */
  lemma NoHeaderMeansAuthenticationRequired(r: Request, validateToken: string -> seq<V.FieldError>,
                                            getForToken: (string, string) -> Result<User, StoreError>)
    requires FirstValue(r.header, "Authorization") == ""
    ensures AuthenticateDecision(r, validateToken, getForToken).Next?
    ensures RequireAuthenticatedUser(AuthenticateDecision(r, validateToken, getForToken).request)
            == Reject(AuthenticationRequired)
  {
  }

  // ---------------------------------------------------------------------------
  // CORS
  // ---------------------------------------------------------------------------

  /** Whether `enableCORS` answered a preflight request itself or called `next`. */
  datatype CorsOutcome = CallNext | PreflightAnswered

  /** The headers a preflight answer adds after allowing the origin. */
  function PreflightHeaders(h: Header, origin: string): Header
  {
    var h1 := HeaderSet(h, "Access-Control-Allow-Origin", origin);
    var h2 := HeaderSet(h1, "Access-Control-Allow-Methods", "OPTIONS, PUT, PATCH, DELETE");
    HeaderSet(h2, "Access-Control-Allow-Headers", "Authorization, Content-Type")
  }

  /** `enableCORS`: both `Vary` values are always added; an origin equal to a trusted
      origin is allowed, and a preflight from it (method OPTIONS with an
      `Access-Control-Request-Method` header) is answered with 200 without
      calling `next`. */
  method EnableCORS(w: ResponseWriter, r: Request, trustedOrigins: seq<string>) returns (outcome: CorsOutcome)
    modifies w
    ensures
      var base := HeaderAdd(HeaderAdd(old(w.header), "Vary", "Origin"), "Vary", "Access-Control-Request-Method");
      var origin := FirstValue(r.header, "Origin");
      var trusted := origin != "" && origin in trustedOrigins;
      var preflight := trusted && r.verb == "OPTIONS" && FirstValue(r.header, "Access-Control-Request-Method") != "";
      && (outcome == PreflightAnswered <==> preflight)
      && (preflight ==> w.header == PreflightHeaders(base, origin)
                         && w.status == (if old(w.status) == 0 then 200 else old(w.status)))
      && (!preflight && trusted ==> w.header == HeaderSet(base, "Access-Control-Allow-Origin", origin) && w.status == old(w.status))
      && (!trusted ==> w.header == base && w.status == old(w.status))
  {
    w.Add("Vary", "Origin");
    w.Add("Vary", "Access-Control-Request-Method");
    ghost var base := w.header;
    var origin := FirstValue(r.header, "Origin");
    var preflight := r.verb == "OPTIONS" && FirstValue(r.header, "Access-Control-Request-Method") != "";
    if origin != "" && |trustedOrigins| != 0 {
      for i := 0 to |trustedOrigins|
        invariant w.status == old(w.status)
        invariant origin in trustedOrigins[..i] ==> !preflight && w.header == HeaderSet(base, "Access-Control-Allow-Origin", origin)
        invariant origin !in trustedOrigins[..i] ==> w.header == base
      {
        if origin == trustedOrigins[i] {
          w.Set("Access-Control-Allow-Origin", origin);
          if preflight {
            w.Set("Access-Control-Allow-Methods", "OPTIONS, PUT, PATCH, DELETE");
            w.Set("Access-Control-Allow-Headers", "Authorization, Content-Type");
            w.WriteHeader(200);
            return PreflightAnswered;
          }
        }
        assert trustedOrigins[..i + 1] == trustedOrigins[..i] + [trustedOrigins[i]];
      }
      assert trustedOrigins[..|trustedOrigins|] == trustedOrigins;
    }
    return CallNext;
  }
}
