/**
  Models of Go's `net.SplitHostPort` and `net.JoinHostPort`, which the probe
  uses to take a `host:port` apart and to put one together for dialling.
*/
module GoNet {
  import opened GoStrings

  /** The reasons `net.SplitHostPort` gives for refusing an address. */
  datatype AddrError =
    | MissingPort
    | TooManyColons
    | MissingBracket
    | UnexpectedOpenBracket
    | UnexpectedCloseBracket

  datatype SplitResult = HostPort(host: string, port: string) | AddrErr(why: AddrError)

  /** `"[" + host + "]:" + port`, the form SplitHostPort accepts for any host. */
  function Bracketed(host: string, port: string): string
  {
    "[" + host + "]:" + port
  }

  /**
    net.JoinHostPort: a host that contains a colon (an IPv6 literal) is put
    in square brackets.
  */
  function JoinHostPort(host: string, port: string): (hp: string)
    ensures ':' in host ==> hp == Bracketed(host, port)
    ensures ':' !in host ==> hp == host + ":" + port
  {
    ContainsChar(host, ':');
    if Contains(host, ":") then Bracketed(host, port) else host + ":" + port
  }

  /** The last checks of SplitHostPort: no stray bracket before or after the host. */
  function CheckBrackets(hostport: string, host: string, j: nat, k: nat, colon: nat): (r: SplitResult)
    requires j <= |hostport| && k <= |hostport| && colon < |hostport|
    ensures r.HostPort? <==> '[' !in hostport[j..] && ']' !in hostport[k..]
    ensures r.HostPort? ==> r == HostPort(host, hostport[colon + 1..])
  {
    ContainsChar(hostport[j..], '[');
    ContainsChar(hostport[k..], ']');
    if Contains(hostport[j..], "[") then AddrErr(UnexpectedOpenBracket)
    else if Contains(hostport[k..], "]") then AddrErr(UnexpectedCloseBracket)
    else HostPort(host, hostport[colon + 1..])
  }

  /** What SplitHostPort promises of a split it accepts. */
  predicate WellSplit(hostport: string, r: SplitResult)
  {
    r.HostPort? ==>
      && ':' !in r.port
      && '[' !in r.host && ']' !in r.host && '[' !in r.port && ']' !in r.port
      && (hostport == JoinHostPort(r.host, r.port) || hostport == Bracketed(r.host, r.port))
  }

  /**
    net.SplitHostPort: the port is what follows the last colon; the host is
    what precedes it, or, when the address starts with `[`, what stands
    between the brackets, which must close just before that colon.
  */
  function SplitHostPort(hostport: string): (r: SplitResult)
    ensures ':' !in hostport ==> r == AddrErr(MissingPort)
    ensures r.HostPort? ==> ':' !in r.port
    ensures r.HostPort? ==> '[' !in r.host && ']' !in r.host && '[' !in r.port && ']' !in r.port
    ensures r.HostPort? ==> hostport == JoinHostPort(r.host, r.port) || hostport == Bracketed(r.host, r.port)
  {
    var i := LastIndexOf(hostport, ":");
    ContainsChar(hostport, ':');
    if i < 0 then AddrErr(MissingPort)
    else
      OccursAtChar(hostport, ':', i);
      assert ':' !in hostport[i + 1..] by {
        forall m | i < m < |hostport| ensures hostport[m] != ':' {
          OccursAtChar(hostport, ':', m);
        }
      }
      if hostport[0] == '[' then SplitBracketedAt(hostport, i) else SplitPlainAt(hostport, i)
  }

  /** SplitHostPort on an address that starts with `[` and whose last colon is at `i`. */
  function SplitBracketedAt(hostport: string, i: nat): (r: SplitResult)
    requires i < |hostport| && hostport[0] == '[' && hostport[i] == ':' && ':' !in hostport[i + 1..]
    ensures WellSplit(hostport, r)
  {
    var end := IndexOf(hostport, "]");
    OccursAtChar(hostport, ']', end);
    if end < 0 then AddrErr(MissingBracket)
    else if end + 1 == |hostport| then AddrErr(MissingPort)
    else if end + 1 != i then
      if hostport[end + 1] == ':' then AddrErr(TooManyColons) else AddrErr(MissingPort)
    else
      var host := hostport[1..end];
      assert ']' !in host by {
        forall m | 1 <= m < end ensures hostport[m] != ']' {
          OccursAtChar(hostport, ']', m);
        }
      }
      var r := CheckBrackets(hostport, host, 1, end + 1, i);
      assert r.HostPort? ==> '[' !in host by {
        assert forall m | 0 <= m < |host| :: host[m] == hostport[1..][m];
      }
      assert hostport == Bracketed(host, hostport[i + 1..]);
      r
  }

  /** SplitHostPort on an address that does not start with `[` and whose last colon is at `i`. */
  function SplitPlainAt(hostport: string, i: nat): (r: SplitResult)
    requires i < |hostport| && hostport[i] == ':' && ':' !in hostport[i + 1..]
    ensures WellSplit(hostport, r)
  {
    var host := hostport[..i];
    ContainsChar(host, ':');
    if Contains(host, ":") then AddrErr(TooManyColons)
    else
      var r := CheckBrackets(hostport, host, 0, 0, i);
      assert hostport == host + ":" + hostport[i + 1..];
      r
  }

  /** SplitHostPort takes apart every address JoinHostPort builds. */
  lemma SplitJoinHostPort(host: string, port: string)
    requires '[' !in host && ']' !in host
    requires '[' !in port && ']' !in port && ':' !in port
    ensures SplitHostPort(JoinHostPort(host, port)) == HostPort(host, port)
  {
    if ':' in host {
      SplitBracketed(host, port);
    } else {
      SplitPlain(host, port);
    }
  }

  /** The bracketed form splits back into its host and port. */
  lemma SplitBracketed(host: string, port: string)
    requires '[' !in host && ']' !in host
    requires '[' !in port && ']' !in port && ':' !in port
    ensures SplitHostPort(Bracketed(host, port)) == HostPort(host, port)
  {
    var hp := Bracketed(host, port);
    assert hp == ("[" + host + "]") + [':'] + port;
    LastCharAt("[" + host + "]", ':', port);
    assert hp == "[" + host + [']'] + (":" + port);
    FirstCharAt("[" + host, ']', ":" + port);
    assert hp[1..|host| + 1] == host;
    assert hp == "[" + (host + "]:" + port);
    assert hp[1..] == host + "]:" + port;
    assert hp[|host| + 2..] == ":" + port;
    assert hp[|host| + 3..] == port;
  }

  /** `host:port` splits back into its host and port when the host has no colon. */
  lemma SplitPlain(host: string, port: string)
    requires '[' !in host && ']' !in host && ':' !in host
    requires '[' !in port && ']' !in port && ':' !in port
    ensures SplitHostPort(host + ":" + port) == HostPort(host, port)
  {
    var hp := host + ":" + port;
    assert hp == host + [':'] + port;
    LastCharAt(host, ':', port);
    assert hp[..|host|] == host;
    assert hp[|host| + 1..] == port;
    assert hp[0] != '[' by {
      if host != [] {
        assert hp[0] == host[0];
      }
    }
  }
}
