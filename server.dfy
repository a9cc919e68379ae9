/**
 * The Server of internal/passport/server.go: its construction from options, its listen
 * address, and the middleware chain every request passes through before the routes.
 */
module HttpServer {
  import opened Wrappers
  import opened Http
  import opened Middleware
  import Net
  import UserStore
  import PassportStore

  datatype ServerOptions = ServerOptions(
    version: string,
    env: string,
    port: string,
    corsOrigins: string,
    rateLimit: real,
    rateBurst: int)

  datatype Server = Server(
    userStore: UserStore.UserService,
    passportStore: PassportStore.PassportService,
    version: string,
    env: string,
    port: string,
    corsOrigins: string,
    rateLimiter: Option<RateLimiter>)

  /** NewServer: the options copied over, and a rate limiter exactly when RateLimit is positive. */
  method NewServer(userStore: UserStore.UserService, passportStore: PassportStore.PassportService, opts: ServerOptions)
    returns (s: Server)
    ensures s.userStore == userStore && s.passportStore == passportStore
    ensures s.version == opts.version && s.env == opts.env && s.port == opts.port
    ensures s.corsOrigins == opts.corsOrigins
    ensures s.rateLimiter.Some? <==> opts.rateLimit > 0.0
    ensures s.rateLimiter.Some? ==>
              fresh(s.rateLimiter.value) && s.rateLimiter.value.clients == map[] &&
              s.rateLimiter.value.r == opts.rateLimit && s.rateLimiter.value.burst == opts.rateBurst
  {
    var rl: Option<RateLimiter> := None;
    if opts.rateLimit > 0.0 {
      var limiter := new RateLimiter(opts.rateLimit, opts.rateBurst);
      rl := Some(limiter);
    }
    s := Server(userStore, passportStore, opts.version, opts.env, opts.port, opts.corsOrigins, rl);
  }

  /** NewTestServer: the seeded stores, version 0.0.0, LOCAL on port 3001, no CORS, no limiter. */
  method NewTestServer() returns (s: Server)
    ensures s.version == "0.0.0" && s.env == "LOCAL" && s.port == "3001"
    ensures s.corsOrigins == "" && s.rateLimiter.None?
    ensures fresh(s.userStore) && s.userStore.Valid() && s.userStore.maxUserId == 1
    ensures s.userStore.userList == map[0 := UserStore.JohnDoe, 1 := UserStore.JaneDoe]
    ensures fresh(s.passportStore) && s.passportStore.Valid()
    ensures s.passportStore.passportList
         == map["012345678" := PassportStore.FirstPassport, "987654321" := PassportStore.SecondPassport]
  {
    var users := UserStore.NewSeededService();
    var passports := PassportStore.NewSeededService();
    s := NewServer(users, passports, ServerOptions("0.0.0", "LOCAL", "3001", "", 0.0, 0));
  }

  /** addr: bound to localhost in the LOCAL environment, to every interface otherwise. */
  function Addr(s: Server): (a: string)
    ensures s.env == "LOCAL" ==> a == Net.JoinHostPort("localhost", s.port)
    ensures s.env != "LOCAL" ==> a == Net.JoinHostPort("", s.port)
  {
    if s.env == "LOCAL" then "localhost:" + s.port else ":" + s.port
  }

  /** The listen address splits back into the intended host and the configured port. */
  lemma AddrSplits(s: Server)
    requires ':' !in s.port && '[' !in s.port && ']' !in s.port
    ensures Net.SplitHostPort(Addr(s)) == Success((if s.env == "LOCAL" then "localhost" else "", s.port))
  {
    Net.SplitJoin(if s.env == "LOCAL" then "localhost" else "", s.port);
  }

  /** The test server listens on localhost:3001. */
  method TestServerAddr() returns (a: string, limited: bool)
    ensures a == "localhost:3001" && !limited
  {
    var s := NewTestServer();
    a := Addr(s);
    limited := s.rateLimiter.Some?;
  }

  /** A server outside LOCAL, and one with RateLimit 10, as server_test.go builds them. */
  method ConfiguredServers() returns (prdAddr: string, limited: bool)
    ensures prdAddr == ":8080" && limited
  {
    var users := UserStore.NewSeededService();
    var passports := PassportStore.NewSeededService();
    var prd := NewServer(users, passports, ServerOptions("", "PRD", "8080", "", 0.0, 0));
    prdAddr := Addr(prd);
    var withLimit := NewServer(users, passports, ServerOptions("", "LOCAL", "3001", "", 10.0, 20));
    limited := withLimit.rateLimiter.Some?;
  }

  /** One middleware layer. */
  datatype Layer =
    | RequestId
    | RequestLogger
    | RateLimit
    | Cors(allowedOrigins: string)
    | SecurityHeaders
    | ClacksOverhead

  /**
   * The layers Server.middleware puts in front of the routes, outermost first. The
   * rate limiter is there only when the server has one, cors only when CORSOrigins is set.
   */
  function Chain(corsOrigins: string, hasLimiter: bool): (chain: seq<Layer>)
    ensures |chain| == 4 + (if hasLimiter then 1 else 0) + (if corsOrigins != "" then 1 else 0)
    ensures chain[0] == RequestId && chain[1] == RequestLogger
    ensures chain[|chain| - 2] == SecurityHeaders && chain[|chain| - 1] == ClacksOverhead
    ensures RateLimit in chain <==> hasLimiter
    ensures (exists i :: 0 <= i < |chain| && chain[i].Cors?) <==> corsOrigins != ""
    ensures forall i :: 0 <= i < |chain| && chain[i].Cors? ==> chain[i] == Cors(corsOrigins)
    ensures forall i, j :: 0 <= i < |chain| && 0 <= j < |chain| && chain[i] == RateLimit && chain[j].Cors? ==> i < j
  {
    var limiter := if hasLimiter then [RateLimit] else [];
    var cors := if corsOrigins != "" then [Cors(corsOrigins)] else [];
    var chain := [RequestId, RequestLogger] + limiter + cors + [SecurityHeaders, ClacksOverhead];
    assert corsOrigins != "" ==> chain[2 + |limiter|].Cors?;
    chain
  }

  /**
   * Server.middleware: starting from the routes, each layer wraps the handler built so far,
   * innermost first.
   */
  method BuildMiddleware(s: Server) returns (chain: seq<Layer>)
    ensures chain == Chain(s.corsOrigins, s.rateLimiter.Some?)
  {
    var h: seq<Layer> := [];
    h := [ClacksOverhead] + h;
    h := [SecurityHeaders] + h;
    if s.corsOrigins != "" {
      h := [Cors(s.corsOrigins)] + h;
    }
    if s.rateLimiter.Some? {
      h := [RateLimit] + h;
    }
    h := [RequestLogger] + h;
    h := [RequestId] + h;
    chain := h;
  }

  /** What the route handler does to the response: headers it sets and codes it writes. */
  datatype RouteEffect = RouteEffect(header: Header, codes: seq<int>)

  /**
   * The inputs of one request that the model takes from outside: the 16 random bytes a
   * generated ID is made of, the rate limiter's verdict for the client, and the route.
   */
  datatype Env = Env(random: seq<byte>, allowed: bool, route: RouteEffect)

  /** The line requestLogger logs; the duration is left out. */
  datatype LogEntry = LogEntry(verb: string, path: string, status: int, requestId: string)

  /** A served request: the response, how often the route ran, and the log lines written. */
  datatype Outcome = Outcome(w: Response, routeCalls: nat, log: seq<LogEntry>)

  const ContentTypeOptions := "X-Content-Type-Options"
  const FrameOptions := "X-Frame-Options"
  const ClacksHeader := "X-Clacks-Overhead"

  /** A layer hands the request on: every layer does, except a refusing limiter and a preflight. */
  predicate Passes(l: Layer, req: Request, env: Env) {
    match l
    case RateLimit => env.allowed
    case Cors(_) => req.verb != MethodOptions
    case _ => true
  }

  /**
   * Serving `req` through `chain` and then the route, starting from the response `w`.
   * Codes are only ever appended, and the route runs at most once.
   */
  function Handle(chain: seq<Layer>, req: Request, env: Env, w: Response): (o: Outcome)
    requires |env.random| == 16
    ensures |w.codes| <= |o.w.codes| && o.w.codes[..|w.codes|] == w.codes
    ensures o.routeCalls <= 1
    decreases |chain|
  {
    if chain == [] then
      Outcome(Response(w.header + env.route.header, w.codes + env.route.codes, RouteBody), 1, [])
    else
      var rest := chain[1..];
      match chain[0]
      case RequestId =>
        Handle(rest, req, env, w.(header := w.header[XRequestId := RequestIdFor(req, env.random)]))
      case RequestLogger =>
        var inner := Handle(rest, req, env, w);
        var entry := LogEntry(req.verb, req.path, Recorded(inner.w.codes[|w.codes|..]), Get(inner.w.header, XRequestId));
        inner.(log := inner.log + [entry])
      case RateLimit =>
        if env.allowed then Handle(rest, req, env, w)
        else
          var body := StatusBody("429", "rate limit exceeded");
          Outcome(w.(codes := w.codes + [StatusTooManyRequests], body := body), 0, [])
      case Cors(origins) =>
        var w' := w.(header := CorsHeaders(w.header, origins));
        if req.verb == MethodOptions then Outcome(w'.(codes := w'.codes + [StatusNoContent]), 0, [])
        else Handle(rest, req, env, w')
      case SecurityHeaders =>
        Handle(rest, req, env, w.(header := w.header[ContentTypeOptions := "nosniff"][FrameOptions := "DENY"]))
      case ClacksOverhead =>
        Handle(rest, req, env, w.(header := w.header[ClacksHeader := "GNU Terry Pratchett"]))
  }

  /** The route runs exactly when every layer hands the request on. */
  lemma {:induction false} RouteReachedIffAllPass(chain: seq<Layer>, req: Request, env: Env, w: Response)
    requires |env.random| == 16
    ensures Handle(chain, req, env, w).routeCalls == 1 <==> forall i :: 0 <= i < |chain| ==> Passes(chain[i], req, env)
    decreases |chain|
  {
    if chain != [] {
      var rest := chain[1..];
      assert forall i :: 1 <= i < |chain| ==> chain[i] == rest[i - 1];
      match chain[0]
      case RequestId =>
        RouteReachedIffAllPass(rest, req, env, w.(header := w.header[XRequestId := RequestIdFor(req, env.random)]));
      case RequestLogger =>
        RouteReachedIffAllPass(rest, req, env, w);
      case RateLimit =>
        RouteReachedIffAllPass(rest, req, env, w);
      case Cors(origins) =>
        RouteReachedIffAllPass(rest, req, env, w.(header := CorsHeaders(w.header, origins)));
      case SecurityHeaders =>
        RouteReachedIffAllPass(rest, req, env, w.(header := w.header[ContentTypeOptions := "nosniff"][FrameOptions := "DENY"]));
      case ClacksOverhead =>
        RouteReachedIffAllPass(rest, req, env, w.(header := w.header[ClacksHeader := "GNU Terry Pratchett"]));
    }
  }

  /**
   * Through the server's chain, the route runs when the limiter (if any) admits the client
   * and the request is not a preflight (if cors is on).
   */
  lemma RouteReached(corsOrigins: string, hasLimiter: bool, req: Request, env: Env)
    requires |env.random| == 16
    ensures Handle(Chain(corsOrigins, hasLimiter), req, env, EmptyResponse).routeCalls == 1 <==>
              (!hasLimiter || env.allowed) && (corsOrigins == "" || req.verb != MethodOptions)
  {
    var chain := Chain(corsOrigins, hasLimiter);
    RouteReachedIffAllPass(chain, req, env, EmptyResponse);
    if hasLimiter && !env.allowed {
      var i :| 0 <= i < |chain| && chain[i] == RateLimit;
      assert !Passes(chain[i], req, env);
    }
    if corsOrigins != "" && req.verb == MethodOptions {
      var i :| 0 <= i < |chain| && chain[i].Cors?;
      assert !Passes(chain[i], req, env);
    }
  }

  /** The headers the layers set on a request that reaches the route. */
  function LayerHeaders(corsOrigins: string, id: string): (h: Header)
    ensures Get(h, XRequestId) == id
    ensures Get(h, ContentTypeOptions) == "nosniff" && Get(h, FrameOptions) == "DENY"
    ensures Get(h, ClacksHeader) == "GNU Terry Pratchett"
    ensures corsOrigins != "" ==> Get(h, "Access-Control-Allow-Origin") == corsOrigins
    ensures corsOrigins == "" ==> h.Keys == {XRequestId, ContentTypeOptions, FrameOptions, ClacksHeader}
  {
    var base := map[XRequestId := id];
    var cors := if corsOrigins != "" then CorsHeaders(base, corsOrigins) else base;
    cors[ContentTypeOptions := "nosniff"][FrameOptions := "DENY"][ClacksHeader := "GNU Terry Pratchett"]
  }

  /**
   * A request the limiter refuses is answered 429 with the status.Response body. It carries
   * its X-Request-ID and no other header (neither CORS nor the security or clacks headers),
   * the route never runs, and the logger records 429.
   */
  lemma RateLimitedRequest(corsOrigins: string, req: Request, env: Env)
    requires |env.random| == 16 && !env.allowed
    ensures Handle(Chain(corsOrigins, true), req, env, EmptyResponse)
         == Outcome(Response(map[XRequestId := RequestIdFor(req, env.random)], [StatusTooManyRequests], StatusBody("429", "rate limit exceeded")),
                    0,
                    [LogEntry(req.verb, req.path, StatusTooManyRequests, RequestIdFor(req, env.random))])
  {
    var chain := Chain(corsOrigins, true);
    var id := RequestIdFor(req, env.random);
    var w1 := EmptyResponse.(header := map[XRequestId := id]);
    assert chain[1..][1..][0] == RateLimit;
    var limited := Handle(chain[1..][1..], req, env, w1);
    assert limited == Outcome(w1.(codes := [StatusTooManyRequests], body := StatusBody("429", "rate limit exceeded")), 0, []);
    assert Handle(chain[1..], req, env, w1).log == [LogEntry(req.verb, req.path, StatusTooManyRequests, id)];
  }

  /**
   * With cors on, a preflight the limiter lets through is answered 204 and has the CORS
   * headers and its X-Request-ID but not the security or clacks headers; the route never
   * runs, and the logger records 204.
   */
  lemma PreflightRequest(corsOrigins: string, hasLimiter: bool, req: Request, env: Env)
    requires |env.random| == 16
    requires corsOrigins != "" && req.verb == MethodOptions && (!hasLimiter || env.allowed)
    ensures Handle(Chain(corsOrigins, hasLimiter), req, env, EmptyResponse)
         == Outcome(Response(CorsHeaders(map[XRequestId := RequestIdFor(req, env.random)], corsOrigins), [StatusNoContent], Empty),
                    0,
                    [LogEntry(req.verb, req.path, StatusNoContent, RequestIdFor(req, env.random))])
  {
    var id := RequestIdFor(req, env.random);
    var w1 := EmptyResponse.(header := map[XRequestId := id]);
    var limiter: seq<Layer> := if hasLimiter then [RateLimit] else [];
    var rest := [Cors(corsOrigins), SecurityHeaders, ClacksOverhead];
    assert [Cors(corsOrigins)] + [SecurityHeaders, ClacksOverhead] == rest;
    ChainShape(corsOrigins, hasLimiter);
    Outer(limiter + rest, req, env);
    PassLimiter(hasLimiter, rest, req, env, w1);
    StopAtCors(corsOrigins, [SecurityHeaders, ClacksOverhead], req, env, w1);
    CorsKeepsRequestId(w1.header, corsOrigins);
  }

  /** Cors answers a preflight itself: its headers and 204, and nothing further runs. */
  lemma StopAtCors(corsOrigins: string, t: seq<Layer>, req: Request, env: Env, w: Response)
    requires |env.random| == 16 && req.verb == MethodOptions
    ensures Handle([Cors(corsOrigins)] + t, req, env, w)
         == Outcome(w.(header := CorsHeaders(w.header, corsOrigins), codes := w.codes + [StatusNoContent]), 0, [])
  {
  }

  /** Cors leaves X-Request-ID as it was. */
  lemma CorsKeepsRequestId(h: Header, corsOrigins: string)
    ensures Get(CorsHeaders(h, corsOrigins), XRequestId) == Get(h, XRequestId)
  {
    assert XRequestId !in CorsHeaderNames;
  }

  /**
   * A request that every layer hands on reaches the route once. It leaves with the route's
   * codes and body and the headers the layers set, under whatever the route set itself,
   * and the logger records the last code the route wrote (200 if none).
   */
  lemma NormalRequest(corsOrigins: string, hasLimiter: bool, req: Request, env: Env)
    requires |env.random| == 16
    requires (!hasLimiter || env.allowed) && (corsOrigins == "" || req.verb != MethodOptions)
    ensures Handle(Chain(corsOrigins, hasLimiter), req, env, EmptyResponse)
         == Outcome(Response(LayerHeaders(corsOrigins, RequestIdFor(req, env.random)) + env.route.header, env.route.codes, RouteBody),
                    1,
                    [LogEntry(req.verb, req.path, Recorded(env.route.codes),
                              Get(LayerHeaders(corsOrigins, RequestIdFor(req, env.random)) + env.route.header, XRequestId))])
  {
    var limiter: seq<Layer> := if hasLimiter then [RateLimit] else [];
    var cors: seq<Layer> := if corsOrigins != "" then [Cors(corsOrigins)] else [];
    ChainShape(corsOrigins, hasLimiter);
    Outer(limiter + (cors + [SecurityHeaders, ClacksOverhead]), req, env);
    InnerServed(corsOrigins, hasLimiter, req, env);
  }

  /** Past the logger, a request every layer hands on gets the layers' headers and the route's effect. */
  lemma InnerServed(corsOrigins: string, hasLimiter: bool, req: Request, env: Env)
    requires |env.random| == 16
    requires (!hasLimiter || env.allowed) && (corsOrigins == "" || req.verb != MethodOptions)
    ensures var id := RequestIdFor(req, env.random);
      Handle((if hasLimiter then [RateLimit] else []) +
               ((if corsOrigins != "" then [Cors(corsOrigins)] else []) + [SecurityHeaders, ClacksOverhead]),
             req, env, EmptyResponse.(header := map[XRequestId := id]))
      == Outcome(Response(LayerHeaders(corsOrigins, id) + env.route.header, env.route.codes, RouteBody), 1, [])
  {
    var id := RequestIdFor(req, env.random);
    var w1 := EmptyResponse.(header := map[XRequestId := id]);
    var cors: seq<Layer> := if corsOrigins != "" then [Cors(corsOrigins)] else [];
    var tail := [SecurityHeaders, ClacksOverhead];
    PassLimiter(hasLimiter, cors + tail, req, env, w1);
    PassCors(corsOrigins, tail, req, env, w1);
    var w2 := if corsOrigins != "" then w1.(header := CorsHeaders(w1.header, corsOrigins)) else w1;
    ServedTail(req, env, w2);
    LayerHeadersOf(corsOrigins, id);
  }

  /** LayerHeaders are what the ID, cors, security and clacks layers set, in that order. */
  lemma LayerHeadersOf(corsOrigins: string, id: string)
    ensures var w1 := map[XRequestId := id];
      var h := if corsOrigins != "" then CorsHeaders(w1, corsOrigins) else w1;
      LayerHeaders(corsOrigins, id) == h[ContentTypeOptions := "nosniff"][FrameOptions := "DENY"][ClacksHeader := "GNU Terry Pratchett"]
  {
  }

  /** The server's chain: the ID and logger layers, the optional limiter and cors, then the two header layers. */
  lemma ChainShape(corsOrigins: string, hasLimiter: bool)
    ensures Chain(corsOrigins, hasLimiter)
         == [RequestId, RequestLogger] + ((if hasLimiter then [RateLimit] else []) +
              ((if corsOrigins != "" then [Cors(corsOrigins)] else []) + [SecurityHeaders, ClacksOverhead]))
  {
  }

  /** The ID layer, then the logger around whatever follows. */
  lemma Outer(rest: seq<Layer>, req: Request, env: Env)
    requires |env.random| == 16
    ensures var w1 := EmptyResponse.(header := map[XRequestId := RequestIdFor(req, env.random)]);
      var inner := Handle(rest, req, env, w1);
      Handle([RequestId, RequestLogger] + rest, req, env, EmptyResponse)
      == inner.(log := inner.log + [LogEntry(req.verb, req.path, Recorded(inner.w.codes), Get(inner.w.header, XRequestId))])
  {
    var chain := [RequestId, RequestLogger] + rest;
    assert chain[1..] == [RequestLogger] + rest;
    assert chain[1..][1..] == rest;
    var w1 := EmptyResponse.(header := map[XRequestId := RequestIdFor(req, env.random)]);
    assert Handle(rest, req, env, w1).w.codes[|w1.codes|..] == Handle(rest, req, env, w1).w.codes;
  }

  /** The security and clacks layers set their headers and hand on to the route. */
  lemma ServedTail(req: Request, env: Env, w: Response)
    requires |env.random| == 16
    ensures Handle([SecurityHeaders, ClacksOverhead], req, env, w)
         == Outcome(Response(w.header[ContentTypeOptions := "nosniff"][FrameOptions := "DENY"][ClacksHeader := "GNU Terry Pratchett"] + env.route.header,
                             w.codes + env.route.codes, RouteBody), 1, [])
  {
    assert [SecurityHeaders, ClacksOverhead][1..] == [ClacksOverhead];
    assert [ClacksOverhead][1..] == [];
  }

  /** A limiter that admits the client, or none, changes nothing. */
  lemma PassLimiter(hasLimiter: bool, t: seq<Layer>, req: Request, env: Env, w: Response)
    requires |env.random| == 16 && (!hasLimiter || env.allowed)
    ensures Handle((if hasLimiter then [RateLimit] else []) + t, req, env, w) == Handle(t, req, env, w)
  {
    if hasLimiter {
      assert ([RateLimit] + t)[1..] == t;
    } else {
      assert [] + t == t;
    }
  }

  /** Cors, on a request that is not a preflight, sets its headers and hands on. */
  lemma PassCors(corsOrigins: string, t: seq<Layer>, req: Request, env: Env, w: Response)
    requires |env.random| == 16 && (corsOrigins == "" || req.verb != MethodOptions)
    ensures Handle((if corsOrigins != "" then [Cors(corsOrigins)] else []) + t, req, env, w)
         == Handle(t, req, env, if corsOrigins != "" then w.(header := CorsHeaders(w.header, corsOrigins)) else w)
  {
    if corsOrigins != "" {
      assert ([Cors(corsOrigins)] + t)[1..] == t;
    } else {
      assert [] + t == t;
    }
  }

  /**
   * A route that leaves the middleware's header names alone cannot hide them: a served
   * request always carries the request ID, the security headers and the clacks header.
   */
  lemma NormalRequestHeaders(corsOrigins: string, hasLimiter: bool, req: Request, env: Env)
    requires |env.random| == 16
    requires (!hasLimiter || env.allowed) && (corsOrigins == "" || req.verb != MethodOptions)
    requires XRequestId !in env.route.header && ContentTypeOptions !in env.route.header
    requires FrameOptions !in env.route.header && ClacksHeader !in env.route.header
    ensures var h := Handle(Chain(corsOrigins, hasLimiter), req, env, EmptyResponse).w.header;
      && Get(h, XRequestId) == RequestIdFor(req, env.random) && Get(h, XRequestId) != ""
      && Get(h, ContentTypeOptions) == "nosniff" && Get(h, FrameOptions) == "DENY"
      && Get(h, ClacksHeader) == "GNU Terry Pratchett"
  {
    NormalRequest(corsOrigins, hasLimiter, req, env);
  }

  /**
   * responseWriter: wraps the writer requestLogger was given, forwards every WriteHeader
   * to it and keeps the last code, starting from 200.
   */
  class ResponseWriter {
    const inner: Recorder
    var statusCode: int
    /** How many codes the wrapped writer had received when this one was made. */
    ghost const start: nat

    /** The kept status is what Recorded makes of the codes forwarded since construction. */
    ghost predicate Valid()
      reads this, inner
    {
      start <= |inner.codes| && statusCode == Recorded(inner.codes[start..])
    }

    constructor (w: Recorder)
      ensures inner == w && statusCode == StatusOK && start == |w.codes|
      ensures Valid()
    {
      inner := w;
      statusCode := StatusOK;
      start := |w.codes|;
    }

    /** WriteHeader: the code is recorded and passed on. */
    method WriteHeader(code: int)
      modifies this`statusCode, inner`codes
      ensures statusCode == code && inner.codes == old(inner.codes) + [code]
      ensures old(Valid()) ==> Valid()
    {
      statusCode := code;
      inner.WriteHeader(code);
      if start <= |old(inner.codes)| {
        assert inner.codes[start..] == old(inner.codes)[start..] + [code];
      }
    }
  }

  /**
   * Two WriteHeader calls through a responseWriter: the client gets the first code, the
   * log line the last.
   */
  method WriteHeaderTwice() returns (sent: int, logged: int)
    ensures sent == 404 && logged == 500
  {
    var recorder := new Recorder();
    var rw := new ResponseWriter(recorder);
    rw.WriteHeader(404);
    rw.WriteHeader(500);
    sent := StatusCode(Response(recorder.header, recorder.codes, Empty));
    logged := rw.statusCode;
  }

  /**
   * One request through Server.middleware and the routes. The limiter, when the server has
   * one, is consulted for the client's address, which every request reaches because the two
   * outer layers always hand it on.
   */
  method Serve(s: Server, req: Request, random: seq<byte>, route: RouteEffect, allow: Limiter -> bool)
    returns (o: Outcome, allowed: bool)
    requires |random| == 16
    modifies if s.rateLimiter.Some? then {s.rateLimiter.value} else {}
    ensures s.rateLimiter.None? ==> allowed
    ensures s.rateLimiter.Some? ==>
              ClientIP(req) in s.rateLimiter.value.clients &&
              allowed == allow(s.rateLimiter.value.clients[ClientIP(req)])
    ensures s.rateLimiter.Some? && ClientIP(req) in old(s.rateLimiter.value.clients) ==>
              s.rateLimiter.value.clients == old(s.rateLimiter.value.clients)
    ensures s.rateLimiter.Some? && ClientIP(req) !in old(s.rateLimiter.value.clients) ==>
              s.rateLimiter.value.clients.Keys == old(s.rateLimiter.value.clients).Keys + {ClientIP(req)} &&
              fresh(s.rateLimiter.value.clients[ClientIP(req)]) &&
              forall ip :: ip in old(s.rateLimiter.value.clients) ==>
                s.rateLimiter.value.clients[ip] == old(s.rateLimiter.value.clients)[ip]
    ensures s.rateLimiter.Some? && old(s.rateLimiter.value.Valid()) ==> s.rateLimiter.value.Valid()
    ensures o == Handle(Chain(s.corsOrigins, s.rateLimiter.Some?), req, Env(random, allowed, route), EmptyResponse)
    ensures o.routeCalls == 1 <==> allowed && (s.corsOrigins == "" || req.verb != MethodOptions)
  {
    var chain := BuildMiddleware(s);
    allowed := true;
    if s.rateLimiter.Some? {
      allowed := s.rateLimiter.value.Admit(req, allow);
    }
    var env := Env(random, allowed, route);
    o := Handle(chain, req, env, EmptyResponse);
    RouteReached(s.corsOrigins, s.rateLimiter.Some?, req, env);
  }
}
