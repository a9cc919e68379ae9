/**
 * The decisions of the middleware in internal/passport/middleware.go: which request ID a
 * response carries, which address identifies a client, which CORS headers are set, and
 * the per-address table of rate limiters.
 */
module Middleware {
  import opened Wrappers
  import opened Http
  import Net

  newtype byte = x: int | 0 <= x < 256

  /** A lowercase hexadecimal digit: 0-9, then a-f. */
  predicate IsLowerHex(c: char) {
    '0' <= c <= '9' || 'a' <= c <= 'f'
  }

  /** The digit fmt's %x prints for a value below 16. */
  function HexDigit(n: int): (c: char)
    requires 0 <= n < 16
    ensures IsLowerHex(c)
  {
    if n < 10 then ('0' as int + n) as char else ('a' as int + n - 10) as char
  }

  /** The value of a lowercase hexadecimal digit; the inverse of HexDigit. */
  function HexValue(c: char): (v: int)
    requires IsLowerHex(c)
    ensures 0 <= v < 16 && HexDigit(v) == c
  {
    if '0' <= c <= '9' then c as int - '0' as int else c as int - 'a' as int + 10
  }

  lemma HexValueOfDigit(n: int)
    requires 0 <= n < 16
    ensures HexValue(HexDigit(n)) == n
  {
  }

  /** fmt's %x of a byte slice: two lowercase hex digits per byte, high nibble first. */
  function Hex(bs: seq<byte>): (s: string)
    ensures |s| == 2 * |bs|
    ensures forall i :: 0 <= i < |s| ==> IsLowerHex(s[i])
  {
    if bs == [] then []
    else [HexDigit(bs[0] as int / 16), HexDigit(bs[0] as int % 16)] + Hex(bs[1..])
  }

  /** The inverse of Hex: bytes from pairs of lowercase hex digits. */
  function Unhex(s: string): (bs: seq<byte>)
    requires |s| % 2 == 0
    requires forall i :: 0 <= i < |s| ==> IsLowerHex(s[i])
    ensures |bs| * 2 == |s|
  {
    if s == [] then []
    else [(HexValue(s[0]) * 16 + HexValue(s[1])) as byte] + Unhex(s[2..])
  }

  lemma {:induction false} UnhexHex(bs: seq<byte>)
    ensures Unhex(Hex(bs)) == bs
  {
    if bs != [] {
      var s := Hex(bs);
      assert s[2..] == Hex(bs[1..]);
      HexValueOfDigit(bs[0] as int / 16);
      HexValueOfDigit(bs[0] as int % 16);
      UnhexHex(bs[1..]);
    }
  }

  /** Lowercase hex concatenates: the digits of a split slice are the split digits. */
  lemma {:induction false} HexAppend(a: seq<byte>, b: seq<byte>)
    ensures Hex(a + b) == Hex(a) + Hex(b)
  {
    if a != [] {
      assert (a + b)[0] == a[0] && (a + b)[1..] == a[1..] + b;
      HexAppend(a[1..], b);
    } else {
      assert a + b == b;
    }
  }

  /** Positions of the dashes in a generated ID. */
  predicate IsDashPosition(i: int) {
    i == 8 || i == 13 || i == 18 || i == 23
  }

  /** The first |x| characters of an ID: dashes at the dash positions, lowercase hex elsewhere. */
  predicate IdPrefix(x: string) {
    forall i :: 0 <= i < |x| ==> (x[i] == '-' <==> IsDashPosition(i)) && (!IsDashPosition(i) ==> IsLowerHex(x[i]))
  }

  /** A dash at a dash position, then hex digits up to the next one, extend an ID prefix. */
  lemma DashedExtend(x: string, h: string)
    requires IdPrefix(x) && IsDashPosition(|x|)
    requires forall i :: |x| < i <= |x| + |h| ==> !IsDashPosition(i)
    requires forall i :: 0 <= i < |h| ==> IsLowerHex(h[i])
    ensures IdPrefix(x + "-" + h)
  {
    var y := x + "-" + h;
    forall i | 0 <= i < |y| ensures (y[i] == '-' <==> IsDashPosition(i)) && (!IsDashPosition(i) ==> IsLowerHex(y[i])) {
      if i < |x| {
        assert y[i] == x[i];
      } else if i > |x| {
        assert y[i] == h[i - |x| - 1];
      }
    }
  }

  /** The five groups of hex digits generateID prints. */
  function IdGroups(b: seq<byte>): (groups: seq<string>)
    requires |b| == 16
    ensures |groups| == 5
  {
    [Hex(b[0..4]), Hex(b[4..6]), Hex(b[6..8]), Hex(b[8..10]), Hex(b[10..])]
  }

  /**
   * generateID, with the 16 bytes crypto/rand would supply as a parameter: the layout
   * "%08x-%04x-%04x-%04x-%012x" of bytes 0-3, 4-5, 6-7, 8-9 and 10-15.
   */
  function GenerateID(b: seq<byte>): (id: string)
    requires |b| == 16
    ensures |id| == 36
    ensures forall i :: 0 <= i < 36 ==> (id[i] == '-' <==> IsDashPosition(i))
    ensures forall i :: 0 <= i < 36 && !IsDashPosition(i) ==> IsLowerHex(id[i])
  {
    var g := IdGroups(b);
    var x1 := g[0] + "-" + g[1];
    var x2 := x1 + "-" + g[2];
    var x3 := x2 + "-" + g[3];
    DashedExtend(g[0], g[1]);
    DashedExtend(x1, g[2]);
    DashedExtend(x2, g[3]);
    DashedExtend(x3, g[4]);
    x3 + "-" + g[4]
  }

  /** The digits of an ID: the ID with its dashes removed. */
  function Undashed(s: string): (digits: string)
    ensures |digits| <= |s|
  {
    if s == [] then []
    else (if s[0] == '-' then [] else [s[0]]) + Undashed(s[1..])
  }

  lemma {:induction false} UndashedAppend(a: string, b: string)
    ensures Undashed(a + b) == Undashed(a) + Undashed(b)
  {
    if a == [] {
      assert a + b == b;
    } else {
      assert (a + b)[0] == a[0] && (a + b)[1..] == a[1..] + b;
      UndashedAppend(a[1..], b);
    }
  }

  lemma {:induction false} UndashedHex(bs: seq<byte>)
    ensures Undashed(Hex(bs)) == Hex(bs)
  {
    var h := Hex(bs);
    if bs != [] {
      assert h == [h[0]] + ([h[1]] + Hex(bs[1..]));
      assert IsLowerHex(h[0]) && IsLowerHex(h[1]);
      UndashedAppend([h[0]], [h[1]] + Hex(bs[1..]));
      UndashedAppend([h[1]], Hex(bs[1..]));
      assert Undashed([h[0]]) == [h[0]] && Undashed([h[1]]) == [h[1]];
      UndashedHex(bs[1..]);
    }
  }

  lemma UndashedDash()
    ensures Undashed("-") == []
  {
    assert "-"[1..] == [];
  }

  /** One dash and then a group of hex digits lose just the dash. */
  lemma UndashedStep(a: string, bs: seq<byte>)
    ensures Undashed(a + "-" + Hex(bs)) == Undashed(a) + Hex(bs)
  {
    UndashedAppend(a + "-", Hex(bs));
    UndashedAppend(a, "-");
    UndashedDash();
    UndashedHex(bs);
    assert Undashed(a) + [] == Undashed(a);
  }

  /** Without its dashes, a generated ID is its groups one after the other. */
  lemma UndashedGroups(b: seq<byte>)
    requires |b| == 16
    ensures var g := IdGroups(b); Undashed(GenerateID(b)) == g[0] + g[1] + g[2] + g[3] + g[4]
  {
    var g := IdGroups(b);
    var x1 := g[0] + "-" + g[1];
    var x2 := x1 + "-" + g[2];
    var x3 := x2 + "-" + g[3];
    UndashedHex(b[0..4]);
    UndashedStep(g[0], b[4..6]);
    UndashedStep(x1, b[6..8]);
    UndashedStep(x2, b[8..10]);
    UndashedStep(x3, b[10..]);
  }

  /** The hex of the 16 bytes is the five groups one after the other. */
  lemma HexGroups(b: seq<byte>)
    requires |b| == 16
    ensures var g := IdGroups(b); Hex(b) == g[0] + g[1] + g[2] + g[3] + g[4]
  {
    var b0, b1, b2, b3, b4 := b[0..4], b[4..6], b[6..8], b[8..10], b[10..];
    assert b == b0 + b1 + b2 + b3 + b4;
    HexAppend(b0, b1);
    HexAppend(b0 + b1, b2);
    HexAppend(b0 + b1 + b2, b3);
    HexAppend(b0 + b1 + b2 + b3, b4);
  }

  /** A generated ID determines the bytes it was made from, so distinct bytes give distinct IDs. */
  lemma GenerateIDDecodes(b: seq<byte>)
    requires |b| == 16
    ensures Undashed(GenerateID(b)) == Hex(b)
    ensures Unhex(Undashed(GenerateID(b))) == b
  {
    UndashedGroups(b);
    HexGroups(b);
    UnhexHex(b);
  }

  lemma GenerateIDInjective(b1: seq<byte>, b2: seq<byte>)
    requires |b1| == 16 && |b2| == 16
    ensures GenerateID(b1) == GenerateID(b2) <==> b1 == b2
  {
    if GenerateID(b1) == GenerateID(b2) {
      GenerateIDDecodes(b1);
      GenerateIDDecodes(b2);
    }
  }

  const XRequestId := "X-Request-ID"
  const XForwardedFor := "X-Forwarded-For"

  /** The ID requestID puts on the response: the inbound one when non-empty, a generated one otherwise. */
  function RequestIdFor(r: Request, random: seq<byte>): (id: string)
    requires |random| == 16
    ensures id != ""
    ensures Get(r.header, XRequestId) != "" ==> id == Get(r.header, XRequestId)
    ensures Get(r.header, XRequestId) == "" ==> id == GenerateID(random)
  {
    var id := Get(r.header, XRequestId);
    if id == "" then
      assert GenerateID(random)[8] == '-';
      GenerateID(random)
    else id
  }

  /**
   * clientIP: a non-empty X-Forwarded-For header verbatim (a list of addresses is not
   * split), else the host part of RemoteAddr, else RemoteAddr itself.
   */
  function ClientIP(r: Request): (ip: string)
    ensures Get(r.header, XForwardedFor) != "" ==> ip == Get(r.header, XForwardedFor)
    ensures Get(r.header, XForwardedFor) == "" && Net.SplitHostPort(r.remoteAddr).Failure? ==> ip == r.remoteAddr
    ensures Get(r.header, XForwardedFor) == "" && Net.SplitHostPort(r.remoteAddr).Success? ==>
              r.remoteAddr == ip + ":" + Net.SplitHostPort(r.remoteAddr).value.1 ||
              r.remoteAddr == "[" + ip + "]:" + Net.SplitHostPort(r.remoteAddr).value.1
    ensures Get(r.header, XForwardedFor) == "" && Net.SplitHostPort(r.remoteAddr).Success? ==>
              ip == Net.SplitHostPort(r.remoteAddr).value.0
  {
    var forwarded := Get(r.header, XForwardedFor);
    if forwarded != "" then forwarded
    else
      match Net.SplitHostPort(r.remoteAddr)
      case Failure(_) => r.remoteAddr
      case Success((ip, _)) => ip
  }

  /** Without a forwarding header, a client at host:port is identified by its host. */
  lemma ClientIPOfJoinedAddress(r: Request, host: string, port: string)
    requires Get(r.header, XForwardedFor) == ""
    requires r.remoteAddr == Net.JoinHostPort(host, port)
    requires '[' !in host && ']' !in host
    requires ':' !in port && '[' !in port && ']' !in port
    ensures ClientIP(r) == host
  {
    Net.SplitJoin(host, port);
  }

  /** A forwarding header wins, even over a well-formed remote address, and is not split. */
  lemma ClientIPForwarded()
    ensures ClientIP(Request("GET", "/", map[XForwardedFor := "10.0.0.1"], "192.0.2.1:1234")) == "10.0.0.1"
    ensures ClientIP(Request("GET", "/", map[XForwardedFor := "10.0.0.1, 10.0.0.2"], "")) == "10.0.0.1, 10.0.0.2"
  {
  }

  /** "192.168.1.1:9999" is identified as "192.168.1.1". */
  lemma ClientIPFromRemoteAddr()
    ensures ClientIP(Request("GET", "/", map[], "192.168.1.1:9999")) == "192.168.1.1"
  {
    ClientIPOfJoinedAddress(Request("GET", "/", map[], "192.168.1.1:9999"), "192.168.1.1", "9999");
  }

  /** A bracketed IPv6 address loses its brackets and port. */
  lemma ClientIPFromIPv6RemoteAddr()
    ensures ClientIP(Request("GET", "/", map[], "[::1]:80")) == "::1"
  {
    ClientIPOfJoinedAddress(Request("GET", "/", map[], "[::1]:80"), "::1", "80");
  }

  /** An address without a port is used as it is. */
  lemma ClientIPFallback()
    ensures ClientIP(Request("GET", "/", map[], "no-port")) == "no-port"
  {
    assert ':' !in "no-port";
  }

  const AllowMethods := "GET, POST, PUT, DELETE, OPTIONS"
  const AllowHeaders := "Content-Type, Authorization, X-Request-ID"

  /** The three headers cors sets on every request, whatever its method. */
  function CorsHeaders(h: Header, allowedOrigins: string): (h': Header)
    ensures h'.Keys == h.Keys + {"Access-Control-Allow-Origin", "Access-Control-Allow-Methods", "Access-Control-Allow-Headers"}
    ensures h'["Access-Control-Allow-Origin"] == allowedOrigins
    ensures h'["Access-Control-Allow-Methods"] == AllowMethods
    ensures h'["Access-Control-Allow-Headers"] == AllowHeaders
    ensures forall k :: k in h && k !in CorsHeaderNames ==> h'[k] == h[k]
  {
    h["Access-Control-Allow-Origin" := allowedOrigins]
     ["Access-Control-Allow-Methods" := AllowMethods]
     ["Access-Control-Allow-Headers" := AllowHeaders]
  }

  const CorsHeaderNames := {"Access-Control-Allow-Origin", "Access-Control-Allow-Methods", "Access-Control-Allow-Headers"}

  const MethodOptions := "OPTIONS"

  /** A rate.Limiter as the middleware sees it: built from a rate and a burst size. */
  class Limiter {
    const r: real
    const burst: int

    constructor (r: real, burst: int)
      ensures this.r == r && this.burst == burst
    {
      this.r := r;
      this.burst := burst;
    }
  }

  /** rateLimiter: one limiter per client address, all built with the same rate and burst. */
  class RateLimiter {
    var clients: map<string, Limiter>
    const r: real
    const burst: int

    /** Every limiter in the table was built with the table's rate and burst. */
    ghost predicate Valid()
      reads this, clients.Values
    {
      forall ip :: ip in clients ==> clients[ip].r == r && clients[ip].burst == burst
    }

    /** newRateLimiter: an empty table. */
    constructor (rps: real, burst: int)
      ensures clients == map[] && r == rps && this.burst == burst
      ensures Valid()
    {
      clients := map[];
      r := rps;
      this.burst := burst;
    }

    /** getLimiter: the address's limiter, made and recorded first if it has none. */
    method GetLimiter(ip: string) returns (limiter: Limiter)
      modifies this`clients
      ensures ip in clients && clients[ip] == limiter
      ensures ip in old(clients) ==> limiter == old(clients)[ip] && clients == old(clients)
      ensures ip !in old(clients) ==>
                fresh(limiter) && limiter.r == r && limiter.burst == burst && clients == old(clients)[ip := limiter]
      ensures old(Valid()) ==> Valid()
    {
      if ip in clients {
        limiter := clients[ip];
      } else {
        limiter := new Limiter(r, burst);
        clients := clients[ip := limiter];
      }
    }

    /**
     * The decision of rateLimiter.middleware: the client's limiter is looked up (or made)
     * and asked once. The token bucket itself is not modelled: `allow` stands for what
     * Allow answers at that moment.
     */
    method Admit(req: Request, allow: Limiter -> bool) returns (allowed: bool)
      modifies this`clients
      ensures ClientIP(req) in clients
      ensures allowed == allow(clients[ClientIP(req)])
      ensures ClientIP(req) in old(clients) ==> clients == old(clients)
      ensures ClientIP(req) !in old(clients) ==>
                clients.Keys == old(clients).Keys + {ClientIP(req)} &&
                fresh(clients[ClientIP(req)]) &&
                forall ip :: ip in old(clients) ==> clients[ip] == old(clients)[ip]
      ensures old(Valid()) ==> Valid()
    {
      var ip := ClientIP(req);
      var limiter := GetLimiter(ip);
      allowed := allow(limiter);
    }
  }
}
