/**
 * net.SplitHostPort and net.JoinHostPort, the address helpers clientIP and addr rely on,
 * written after the Go standard library's algorithm. The only characters they look at,
 * ':', '[' and ']', are single bytes in UTF-8, so working on code points changes nothing.
 */
module Net {
  import opened Wrappers

  /** The errors SplitHostPort reports, one per message of net.AddrError. */
  datatype AddrError = MissingPort | TooManyColons | MissingBracket | UnexpectedOpen | UnexpectedClose

  /** Index of the first occurrence of c in s, or -1. */
  function IndexByte(s: string, c: char): (i: int)
    ensures -1 <= i < |s|
    ensures i == -1 <==> c !in s
    ensures i >= 0 ==> s[i] == c && c !in s[..i]
  {
    if s == [] then -1
    else if s[0] == c then 0
    else
      var j := IndexByte(s[1..], c);
      if j < 0 then -1 else j + 1
  }

  /** Index of the last occurrence of c in s, or -1. */
  function LastIndexByte(s: string, c: char): (i: int)
    ensures -1 <= i < |s|
    ensures i == -1 <==> c !in s
    ensures i >= 0 ==> s[i] == c && c !in s[i + 1..]
  {
    if s == [] then -1
    else if s[|s| - 1] == c then |s| - 1
    else LastIndexByte(s[..|s| - 1], c)
  }

  /**
   * SplitHostPort splits "host:port", "[host]:port" or "[host%zone]:port" into host and
   * port. The port is everything after the last colon; a bracketed host must end right
   * before it; an unbracketed host must hold no colon; no stray bracket may appear.
   */
  function SplitHostPort(hostport: string): (r: Result<(string, string), AddrError>)
    ensures r.Success? ==> ':' !in r.value.1 && ']' !in r.value.1 && '[' !in r.value.1
    ensures r.Success? ==> '[' !in r.value.0 && ']' !in r.value.0
    ensures r.Success? ==>
              hostport == r.value.0 + ":" + r.value.1 || hostport == "[" + r.value.0 + "]:" + r.value.1
    ensures ':' !in hostport ==> r == Failure(MissingPort)
  {
    var i := LastIndexByte(hostport, ':');
    if i < 0 then Failure(MissingPort)
    else
      var bracketed := hostport[0] == '[';
      var end := IndexByte(hostport, ']');
      if bracketed && end < 0 then Failure(MissingBracket)
      else if bracketed && end + 1 == |hostport| then Failure(MissingPort)
      else if bracketed && end + 1 != i then
        (if hostport[end + 1] == ':' then Failure(TooManyColons) else Failure(MissingPort))
      else if !bracketed && ':' in hostport[..i] then Failure(TooManyColons)
      else
        var host := if bracketed then hostport[1..end] else hostport[..i];
        var j, k := if bracketed then 1 else 0, if bracketed then end + 1 else 0;
        if '[' in hostport[j..] then Failure(UnexpectedOpen)
        else if ']' in hostport[k..] then Failure(UnexpectedClose)
        else
          assert '[' !in host && ']' !in host by {
            if bracketed {
              NotInSlice(hostport, '[', 1, |hostport|, 1, end);
              NotInSlice(hostport, ']', 0, end, 1, end);
            } else {
              NotInSlice(hostport, '[', 0, |hostport|, 0, i);
              NotInSlice(hostport, ']', 0, |hostport|, 0, i);
            }
          }
          assert bracketed ==> hostport == "[" + host + "]:" + hostport[i + 1..];
          assert !bracketed ==> hostport == host + ":" + hostport[i + 1..];
          Success((host, hostport[i + 1..]))
  }

  /**
   * Go's net.JoinHostPort: "host:port", with the host in brackets when it holds a colon.
   * The source never calls it; it is the inverse SplitHostPort's round trips (SplitJoin,
   * JoinSplit) are stated with.
   */
  function JoinHostPort(host: string, port: string): (hostport: string)
    ensures ':' in host ==> hostport == "[" + host + "]:" + port
    ensures ':' !in host ==> hostport == host + ":" + port
  {
    if ':' in host then "[" + host + "]:" + port else host + ":" + port
  }

  /** A character missing from a slice is missing from every slice inside it. */
  lemma NotInSlice(s: string, c: char, i: int, j: int, k: int, l: int)
    requires 0 <= i <= k <= l <= j <= |s| && c !in s[i..j]
    ensures c !in s[k..l]
  {
    forall m | 0 <= m < l - k ensures s[k..l][m] != c {
      assert s[k..l][m] == s[i..j][k - i + m];
    }
  }

  lemma {:induction false} IndexByteAfter(a: string, c: char, b: string)
    requires c !in a
    ensures IndexByte(a + [c] + b, c) == |a|
  {
    if a != [] {
      assert (a + [c] + b)[1..] == a[1..] + [c] + b;
      IndexByteAfter(a[1..], c, b);
    }
  }

  lemma {:induction false} LastIndexByteBefore(a: string, c: char, b: string)
    requires c !in b
    ensures LastIndexByte(a + [c] + b, c) == |a|
  {
    if b != [] {
      var s := a + [c] + b;
      assert s[|s| - 1] == b[|b| - 1];
      assert s[..|s| - 1] == a + [c] + b[..|b| - 1];
      LastIndexByteBefore(a, c, b[..|b| - 1]);
    }
  }

  /** A host and port with no brackets, and a port with no colon, survive a join and a split. */
  lemma SplitJoin(host: string, port: string)
    requires '[' !in host && ']' !in host
    requires ':' !in port && '[' !in port && ']' !in port
    ensures SplitHostPort(JoinHostPort(host, port)) == Success((host, port))
  {
    if ':' in host {
      SplitBracketed(host, port);
    } else {
      SplitPlain(host, port);
    }
  }

  /** Where the bracket and the colon of "[host]:port" are found. */
  lemma BracketedIndices(host: string, port: string)
    requires ']' !in host && ':' !in port
    ensures var s := "[" + host + "]:" + port;
      IndexByte(s, ']') == |host| + 1 && LastIndexByte(s, ':') == |host| + 2
  {
    var s := "[" + host + "]:" + port;
    assert s == ("[" + host) + [']'] + (":" + port);
    assert ']' !in "[" + host;
    IndexByteAfter("[" + host, ']', ":" + port);
    assert s == ("[" + host + "]") + [':'] + port;
    LastIndexByteBefore("[" + host + "]", ':', port);
  }

  /** "[host]:port" is split back into host and port. */
  lemma SplitBracketed(host: string, port: string)
    requires '[' !in host && ']' !in host
    requires ':' !in port && '[' !in port && ']' !in port
    ensures SplitHostPort("[" + host + "]:" + port) == Success((host, port))
  {
    BracketedIndices(host, port);
    BracketedSlices(host, port, "[" + host + "]:" + port);
  }

  /** The pieces of "[host]:port" SplitHostPort looks at. */
  lemma BracketedSlices(host: string, port: string, s: string)
    requires '[' !in host && ']' !in host && '[' !in port && ']' !in port
    requires s == "[" + host + "]:" + port
    ensures |s| == |host| + 3 + |port| && s[0] == '['
    ensures s[1..|host| + 1] == host && s[|host| + 3..] == port
    ensures '[' !in s[1..] && ']' !in s[|host| + 2..]
  {
    var n := |host|;
    assert s[1..] == host + ("]:" + port);
    assert s[n + 2..] == ":" + port;
  }

  /** "host:port" is split back into host and port when the host holds no colon. */
  lemma SplitPlain(host: string, port: string)
    requires ':' !in host && '[' !in host && ']' !in host
    requires ':' !in port && '[' !in port && ']' !in port
    ensures SplitHostPort(host + ":" + port) == Success((host, port))
  {
    var s := host + ":" + port;
    assert s == host + [':'] + port;
    LastIndexByteBefore(host, ':', port);
    assert s[0] == (if host != [] then host[0] else ':');
    assert s[..|host|] == host;
    assert s[0..] == s;
    assert s[|host| + 1..] == port;
  }

  /** Whatever SplitHostPort accepts, joining the parts again and splitting gives the same parts. */
  lemma JoinSplit(hostport: string)
    requires SplitHostPort(hostport).Success?
    ensures SplitHostPort(JoinHostPort(SplitHostPort(hostport).value.0, SplitHostPort(hostport).value.1)) == SplitHostPort(hostport)
  {
    var (host, port) := SplitHostPort(hostport).value;
    SplitJoin(host, port);
  }
}
