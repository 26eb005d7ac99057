/**
 * The parsed-URL half of Go's `net/url` that the redirect check reads:
 * the `URL` record and its `Hostname` and `Port` accessors. Parsing itself
 * (`url.Parse`) is a parameter of the operations that need it.
 */
module Url {
  import opened GoTypes
  import GoStrings

  /** A parsed URL; `host` is the `host[:port]` authority without user information. */
  datatype URL = URL(scheme: GoString, host: GoString, path: GoString, rawQuery: GoString, fragment: GoString)

  /** `url.Parse`: the parsed URL, or the text of the error it returns. */
  type Parser = GoString -> Result<URL>

  predicate IsDigit(b: Byte) {
    '0' <= b <= '9'
  }

  /** Go's `validOptionalPort`: empty, or a colon followed by decimal digits only. */
  predicate ValidOptionalPort(p: GoString) {
    |p| == 0 || (p[0] == ':' && forall i :: 1 <= i < |p| ==> IsDigit(p[i]))
  }

  /**
   * Go's `splitHostPort`: the port is what follows the last colon when that is
   * all digits; a host in square brackets loses them.
   */
  function SplitHostPort(hostPort: GoString): (r: (GoString, GoString))
    ensures forall i :: 0 <= i < |r.1| ==> IsDigit(r.1[i])
    ensures ':' in hostPort || r == (Unbracket(hostPort), [])
    ensures |r.1| > 0 ==> exists h: GoString :: hostPort == h + [':'] + r.1 && r.0 == Unbracket(h)
  {
    var colon := GoStrings.LastIndex(hostPort, ':');
    if colon.Some? && ValidOptionalPort(hostPort[colon.value..]) then
      var h := hostPort[..colon.value];
      var p := hostPort[colon.value + 1..];
      assert hostPort == h + [':'] + p;
      assert forall i :: 0 <= i < |p| ==> p[i] == hostPort[colon.value..][i + 1];
      (Unbracket(h), p)
    else
      (Unbracket(hostPort), [])
  }

  /** Drops one pair of enclosing square brackets (an IPv6 literal). */
  function Unbracket(h: GoString): (r: GoString)
    ensures |h| >= 2 && h[0] == '[' && h[|h| - 1] == ']' ==> r == h[1..|h| - 1]
    ensures !(|h| >= 2 && h[0] == '[' && h[|h| - 1] == ']') ==> r == h
  {
    if |h| >= 1 && h[0] == '[' && h[|h| - 1] == ']' then h[1..|h| - 1] else h
  }

  /** `u.Hostname()`. */
  function Hostname(u: URL): GoString {
    SplitHostPort(u.host).0
  }

  /** `u.Port()`: only decimal digits, empty when the authority carries none. */
  function Port(u: URL): (p: GoString)
    ensures forall i :: 0 <= i < |p| ==> IsDigit(p[i])
  {
    SplitHostPort(u.host).1
  }

  /** A host written with an explicit decimal port splits back into the two. */
  lemma SplitJoinHostPort(host: GoString, port: GoString)
    requires ':' !in host && '[' !in host
    requires |port| > 0 && forall i :: 0 <= i < |port| ==> IsDigit(port[i])
    ensures SplitHostPort(host + [':'] + port) == (host, port)
  {
    var hp := host + [':'] + port;
    assert ':' !in port by {
      forall i | 0 <= i < |port| ensures port[i] != ':' {
        assert IsDigit(port[i]);
      }
    }
    GoStrings.LastIndexBeforeSuffix(host, ':', port);
    assert hp[|host|..] == [':'] + port;
    assert hp[..|host|] == host && hp[|host| + 1..] == port;
    assert Unbracket(host) == host by {
      if |host| >= 2 {
        assert host[0] in host;
      }
    }
  }
}
