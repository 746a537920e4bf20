/**
  The target model: how one entry of ALLOW_TARGETS or DENY_TARGETS becomes a
  host, a port and an expectation (main.go, parseTarget and parseTargetList).
*/
module Targets {
  import opened Wrappers
  import opened GoStrings
  import opened GoNumbers
  import opened GoNet

  /** The port used when neither the entry nor its scheme says otherwise. */
  const DefaultPort: int := 443
  /** The port an `http://` scheme implies. */
  const HttpPort: int := 80

  /** A host and port to probe; `expectErr` marks a DENY target, which should be blocked. */
  datatype Target = Target(host: string, port: int, expectErr: bool)

  predicate ValidPort(p: int)
  {
    1 <= p <= 65535
  }

  /** The port a scheme implies: 80 for `http` in any letter case, 443 for every other scheme. */
  function SchemePort(scheme: string): (p: int)
    ensures ValidPort(p)
    ensures p == HttpPort || p == DefaultPort
    ensures p == HttpPort <==> |scheme| == 4 && LowerAscii(scheme[0]) == 'h' && LowerAscii(scheme[1]) == 't'
                                           && LowerAscii(scheme[2]) == 't' && LowerAscii(scheme[3]) == 'p'
  {
    if ToLower(scheme) == "http" then HttpPort else DefaultPort
  }

  /** The inferred port and the text after the first `://`, or 443 and the whole entry when there is none. */
  function StripScheme(s: string): (r: (int, string))
    ensures ValidPort(r.0)
    ensures Contains(s, r.1)
  {
    var idx := IndexOf(s, "://");
    if idx >= 0 then
      assert OccursAt(s, s[idx + 3..], idx + 3);
      (SchemePort(s[..idx]), s[idx + 3..])
    else
      assert OccursAt(s, s, 0);
      (DefaultPort, s)
  }

  /** Everything before the first `/`. */
  function CutPath(s: string): (r: string)
    ensures '/' !in r
    ensures OccursAt(s, r, 0)
  {
    var idx := IndexOf(s, "/");
    if idx >= 0 then
      assert '/' !in s[..idx] by {
        forall m | 0 <= m < idx ensures s[m] != '/' {
          OccursAtChar(s, '/', m);
        }
      }
      s[..idx]
    else
      ContainsChar(s, '/');
      s
  }

  /** The port Atoi found, when it is in 1..65535, and otherwise `fallback`. */
  function PortOr(explicit: Option<int>, fallback: int): int
  {
    if explicit.Some? && 0 < explicit.value <= 65535 then explicit.value else fallback
  }

  /**
    parseTarget: strip an optional scheme, cut the path, then split
    `host:port`; an explicit port wins when it is a number in 1..65535, and
    otherwise the port the scheme implies is used.  The host is always a
    piece of the entry and never holds a `/`.
  */
  function ParseTarget(s: string): (t: Target)
    ensures ValidPort(t.port)
    ensures '/' !in t.host
    ensures Contains(s, t.host)
    ensures !t.expectErr
  {
    var (inferred, rest) := StripScheme(s);
    var authority := CutPath(rest);
    assert Contains(rest, authority);
    ContainsTransitive(s, rest, authority);
    match SplitHostPort(authority)
    case AddrErr(_) =>
      Target(authority, inferred, false)
    case HostPort(host, portStr) =>
      SplitHostInside(authority);
      ContainsTransitive(s, authority, host);
      Target(host, PortOr(Atoi(portStr), inferred), false)
  }

  /** The host SplitHostPort returns is a piece of the address it was given. */
  lemma SplitHostInside(hostport: string)
    requires SplitHostPort(hostport).HostPort?
    ensures Contains(hostport, SplitHostPort(hostport).host)
  {
    var HostPort(host, port) := SplitHostPort(hostport);
    if hostport == Bracketed(host, port) {
      assert hostport[1..1 + |host|] == host;
      assert OccursAt(hostport, host, 1);
    } else {
      assert hostport[..|host|] == host;
      assert OccursAt(hostport, host, 0);
    }
  }

  /** An entry as an operator may write it: an optional scheme, then the rest. */
  function WithScheme(scheme: Option<string>, rest: string): string
  {
    if scheme.Some? then scheme.value + "://" + rest else rest
  }

  /** The port a (possibly missing) scheme implies. */
  function InferredPort(scheme: Option<string>): int
  {
    if scheme.Some? then SchemePort(scheme.value) else DefaultPort
  }

  /** The scheme is recognised up to the first `://` and nothing else is taken for one. */
  lemma StripSchemeOf(scheme: Option<string>, rest: string)
    requires scheme.Some? ==> !Contains(scheme.value, "://")
    requires scheme.None? ==> !Contains(rest, "://")
    ensures StripScheme(WithScheme(scheme, rest)) == (InferredPort(scheme), rest)
  {
    if scheme.Some? {
      var v := scheme.value;
      SchemeSeparatorAt(v, rest);
      assert (v + "://" + rest)[..|v|] == v;
      assert (v + "://" + rest)[|v| + 3..] == rest;
    }
  }

  /**
    The first `://` of `scheme://rest` is the one after the scheme, as long
    as the scheme holds none itself: no occurrence can straddle the
    scheme's end, since the separator starts with `:` and continues with `/`.
  */
  lemma SchemeSeparatorAt(v: string, rest: string)
    requires !Contains(v, "://")
    ensures IndexOf(v + "://" + rest, "://") == |v|
  {
    var s := v + "://" + rest;
    assert s[|v|..|v| + 3] == "://";
    forall k | 0 <= k < |v| ensures !OccursAt(s, "://", k) {
      if k + 3 <= |v| {
        assert s[k..k + 3] == v[k..k + 3];
        assert !OccursAt(v, "://", k);
      } else {
        assert s[|v|] == ':' && "://"[|v| - k] == '/';
        assert s[k..k + 3][|v| - k] == s[|v|];
      }
    }
    var r := IndexOf(s, "://");
    assert OccursAt(s, "://", |v|);
    assert r != -1 && !(r > |v|);
  }

  /** The path is cut at its leading `/`. */
  lemma CutPathOf(hp: string, path: string)
    requires '/' !in hp
    requires path == [] || path[0] == '/'
    ensures CutPath(hp + path) == hp
  {
    if path == [] {
      assert hp + path == hp;
      AbsentCharNotContained(hp, "/", 0);
    } else {
      OccursAtChar(path, '/', 0);
      IndexOfAfterPrefix(hp, path, "/");
      assert (hp + path)[..|hp|] == hp;
    }
  }

  /**
    How parseTarget takes an entry apart: given the scheme, the `host:port`
    part `hp` and the path, the target is what SplitHostPort makes of `hp`,
    with the scheme's port whenever `hp` has no usable explicit port.
  */
  lemma ParseTargetShape(scheme: Option<string>, hp: string, path: string)
    requires scheme.Some? ==> !Contains(scheme.value, "://")
    requires scheme.None? ==> !Contains(hp + path, "://")
    requires '/' !in hp
    requires path == [] || path[0] == '/'
    ensures ParseTarget(WithScheme(scheme, hp + path)) ==
      match SplitHostPort(hp)
      case AddrErr(_) => Target(hp, InferredPort(scheme), false)
      case HostPort(h, p) => Target(h, PortOr(Atoi(p), InferredPort(scheme)), false)
  {
    StripSchemeOf(scheme, hp + path);
    CutPathOf(hp, path);
  }

  /** With no colon in the rest of the entry there is no `://` either. */
  lemma NoSeparatorWithoutColon(s: string)
    requires ':' !in s
    ensures !Contains(s, "://")
  {
    AbsentCharNotContained(s, "://", 0);
  }

  /**
    No `://` can straddle a `host:port` part that has no `/` and does not end
    in a colon, and a colon-free path holds none.
  */
  lemma NoSeparatorAfterPort(hp: string, path: string)
    requires |hp| >= 1 && hp[|hp| - 1] != ':' && '/' !in hp
    requires ':' !in path
    ensures !Contains(hp + path, "://")
  {
    var s := hp + path;
    forall k | 0 <= k && k + 3 <= |s| ensures !OccursAt(s, "://", k) {
      assert s[k..k + 3][0] == s[k] && s[k..k + 3][1] == s[k + 1];
      if k >= |hp| {
        assert s[k] == path[k - |hp|];
      } else if k + 1 < |hp| {
        assert s[k + 1] == hp[k + 1];
      } else {
        assert s[k] == hp[|hp| - 1];
      }
    }
  }

  /**
    Canonical entries come back unchanged: `[scheme://]host:port[/path]`,
    written as the probe itself joins host and port for dialling, parses to
    that host and port whatever the scheme.
  */
  lemma ParseTargetRoundTrip(scheme: Option<string>, host: string, port: int, path: string)
    requires scheme.Some? ==> ':' !in scheme.value
    requires '/' !in host && '[' !in host && ']' !in host
    requires ValidPort(port)
    requires path == [] || path[0] == '/'
    requires scheme.None? ==> ':' !in path
    ensures ParseTarget(WithScheme(scheme, JoinHostPort(host, Itoa(port)) + path)) == Target(host, port, false)
  {
    var digits := Itoa(port);
    var hp := JoinHostPort(host, digits);
    assert hp[|hp| - 1] == digits[|digits| - 1];
    assert forall c | c in digits :: IsDigit(c);
    assert '/' !in digits;
    assert '/' !in hp by {
      if ':' in host {
        assert hp == "[" + host + "]:" + digits;
      } else {
        assert hp == host + ":" + digits;
      }
    }
    SplitJoinHostPort(host, digits);
    AtoiItoa(port);
    if scheme.None? {
      NoSeparatorAfterPort(hp, path);
    }
    if scheme.Some? {
      AbsentCharNotContained(scheme.value, "://", 0);
    }
    ParseTargetShape(scheme, hp, path);
  }

  /** The plain `host:port` form, for a host without colons. */
  lemma ParseTargetHostPort(scheme: Option<string>, host: string, port: int, path: string)
    requires scheme.Some? ==> ':' !in scheme.value
    requires '/' !in host && ':' !in host && '[' !in host && ']' !in host
    requires ValidPort(port)
    requires path == [] || path[0] == '/'
    requires scheme.None? ==> ':' !in path
    ensures ParseTarget(WithScheme(scheme, host + ":" + Itoa(port) + path)) == Target(host, port, false)
  {
    ParseTargetRoundTrip(scheme, host, port, path);
  }

  /** An entry without an explicit port gets the port its scheme implies, 443 when it has none. */
  lemma ParseTargetNoPort(scheme: Option<string>, host: string, path: string)
    requires scheme.Some? ==> ':' !in scheme.value
    requires '/' !in host && ':' !in host
    requires path == [] || path[0] == '/'
    requires scheme.None? ==> ':' !in path
    ensures ParseTarget(WithScheme(scheme, host + path)) == Target(host, InferredPort(scheme), false)
  {
    if scheme.None? {
      NoSeparatorWithoutColon(host + path);
    }
    if scheme.Some? {
      AbsentCharNotContained(scheme.value, "://", 0);
    }
    ParseTargetShape(scheme, host, path);
  }

  /**
    A malformed explicit port (not a number, or outside 1..65535) is ignored
    silently: the port the scheme implies is used instead.
  */
  lemma ParseTargetBadPort(scheme: Option<string>, host: string, portStr: string, path: string)
    requires scheme.Some? ==> ':' !in scheme.value
    requires '/' !in host && ':' !in host && '[' !in host && ']' !in host
    requires portStr != [] && '/' !in portStr && ':' !in portStr && '[' !in portStr && ']' !in portStr
    requires path == [] || path[0] == '/'
    requires scheme.None? ==> ':' !in path
    requires Atoi(portStr).None? || !ValidPort(Atoi(portStr).value)
    ensures ParseTarget(WithScheme(scheme, host + ":" + portStr + path)) == Target(host, InferredPort(scheme), false)
  {
    var hp := host + ":" + portStr;
    SplitPlain(host, portStr);
    if scheme.None? {
      assert hp[|hp| - 1] == portStr[|portStr| - 1];
      NoSeparatorAfterPort(hp, path);
    }
    assert WithScheme(scheme, host + ":" + portStr + path) == WithScheme(scheme, hp + path);
    if scheme.Some? {
      AbsentCharNotContained(scheme.value, "://", 0);
    }
    ParseTargetShape(scheme, hp, path);
  }

  /** An explicit port wins over the default. */
  lemma ExplicitPortExample()
    ensures ParseTarget("example.com:8443") == Target("example.com", 8443, false)
  {
    assert Itoa(8443) == "8443";
    assert WithScheme(None, "example.com" + ":" + "8443" + "") == "example.com:8443";
    ParseTargetHostPort(None, "example.com", 8443, "");
  }

  /** `https`, like every scheme other than `http`, implies 443. */
  lemma DefaultSchemeExamples()
    ensures ParseTarget("https://example.com") == Target("example.com", 443, false)
    ensures ParseTarget("ftp://x") == Target("x", 443, false)
  {
    assert WithScheme(Some("https"), "example.com" + "") == "https://example.com";
    assert WithScheme(Some("ftp"), "x" + "") == "ftp://x";
    assert SchemePort("https") == 443 && SchemePort("ftp") == 443;
    ParseTargetNoPort(Some("https"), "example.com", "");
    ParseTargetNoPort(Some("ftp"), "x", "");
  }

  /** `http` implies 80. */
  lemma HttpSchemeExample()
    ensures ParseTarget("http://example.com") == Target("example.com", 80, false)
  {
    assert WithScheme(Some("http"), "example.com" + "") == "http://example.com";
    assert SchemePort("http") == 80;
    ParseTargetNoPort(Some("http"), "example.com", "");
  }

  /** The scheme is matched in any letter case, and the path is dropped. */
  lemma UpperCaseSchemeExample()
    ensures ParseTarget("HTTP://example.com/x") == Target("example.com", 80, false)
  {
    assert WithScheme(Some("HTTP"), "example.com" + "/x") == "HTTP://example.com/x";
    UpperCaseHttpPort();
    ParseTargetNoPort(Some("HTTP"), "example.com", "/x");
  }

  /** `HTTP` in capitals is the `http` scheme. */
  lemma UpperCaseHttpPort()
    ensures SchemePort("HTTP") == HttpPort
  {
    assert ToLower("HTTP") == "http";
  }

  /** An explicit port after a scheme wins over the scheme's port. */
  lemma SchemeAndPortExample()
    ensures ParseTarget("tcp://1.1.1.1:53") == Target("1.1.1.1", 53, false)
  {
    assert Itoa(53) == "53";
    assert WithScheme(Some("tcp"), "1.1.1.1" + ":" + "53" + "") == "tcp://1.1.1.1:53";
    ParseTargetHostPort(Some("tcp"), "1.1.1.1", 53, "");
  }

  /** A port beyond 65535 is dropped in favour of the default. */
  lemma OutOfRangePortExample()
    ensures ParseTarget("db:99999") == Target("db", 443, false)
  {
    assert Itoa(99999) == "99999";
    AtoiItoa(99999);
    assert WithScheme(None, "db" + ":" + "99999" + "") == "db:99999";
    ParseTargetBadPort(None, "db", "99999", "");
  }

  /** A bare IPv6 literal has too many colons for SplitHostPort, so it is kept whole. */
  lemma BareIPv6Example()
    ensures ParseTarget("::1") == Target("::1", 443, false)
  {
    LastCharAt(":", ':', "1");
    assert ":" + [':'] + "1" == "::1";
    ContainsChar(":", ':');
    assert SplitHostPort("::1") == AddrErr(TooManyColons);
    ParseTargetShape(None, "::1", "");
  }

  /** A bracketed IPv6 literal without a port lacks one for SplitHostPort, so it is kept whole, brackets and all. */
  lemma BracketedIPv6Example()
    ensures ParseTarget("[::1]") == Target("[::1]", 443, false)
  {
    LastCharAt("[:", ':', "1]");
    assert "[:" + [':'] + "1]" == "[::1]";
    FirstCharAt("[::1", ']', "");
    assert "[::1" + [']'] + "" == "[::1]";
    assert SplitHostPort("[::1]") == AddrErr(MissingPort);
    AbsentCharNotContained("[::1]", "://", 1);
    ParseTargetShape(None, "[::1]", "");
  }

  /**
    The scheme separator is searched for before the path is cut, so a `://`
    inside a path makes everything before it the scheme: the host becomes
    what follows the separator and the port is the unknown scheme's 443.
  */
  lemma SeparatorInPathExample()
    ensures ParseTarget("db:5432/x?u=http://y") == Target("y", 443, false)
  {
    var scheme := "db:5432/x?u=http";
    assert WithScheme(Some(scheme), "y" + "") == "db:5432/x?u=http://y";
    forall k ensures !OccursAt(scheme, "://", k) {
      if 0 <= k && k + 3 <= |scheme| {
        assert scheme[k] != ':' || scheme[k + 1] != '/';
      }
    }
    assert SchemePort(scheme) == DefaultPort;
    assert SplitHostPort("y") == AddrErr(MissingPort);
    ParseTargetShape(Some(scheme), "y", "");
  }

  /** The target a single comma-separated entry gives: none when it is blank. */
  function EntryTargets(entry: string, expectErr: bool): (ts: seq<Target>)
    ensures |ts| <= 1
    ensures ts == [] <==> TrimSpace(entry) == []
    ensures forall t | t in ts :: t.expectErr == expectErr && ValidPort(t.port)
  {
    var trimmed := TrimSpace(entry);
    if trimmed == [] then [] else [ParseTarget(trimmed).(expectErr := expectErr)]
  }

  /** EntryTargets for one list's expectation, as a function of the entry. */
  function EntryOf(expectErr: bool): string -> seq<Target>
  {
    entry => EntryTargets(entry, expectErr)
  }

  /** What `entry` gives for each field, concatenated in field order. */
  function Collect(fields: seq<string>, entry: string -> seq<Target>): seq<Target>
  {
    if fields == [] then [] else entry(fields[0]) + Collect(fields[1..], entry)
  }

  /**
    The targets the fields of a list give, in field order: at most one per
    field, each tagged with the list's expectation.
  */
  function Entries(fields: seq<string>, expectErr: bool): (ts: seq<Target>)
    ensures |ts| <= |fields|
    ensures forall t | t in ts :: t.expectErr == expectErr && ValidPort(t.port)
  {
    CollectTagged(fields, EntryOf(expectErr), expectErr);
    Collect(fields, EntryOf(expectErr))
  }

  /** The targets a whole ALLOW_TARGETS or DENY_TARGETS value gives. */
  function TargetList(raw: string, expectErr: bool): seq<Target>
  {
    Entries(Split(raw, ','), expectErr)
  }

  /**
    parseTargetList: split at every comma, trim each entry, skip the blank
    ones, parse the others and tag them with the list's expectation.
  */
  method ParseTargetList(raw: string, expectErr: bool) returns (targets: seq<Target>)
    ensures targets == TargetList(raw, expectErr)
    ensures |targets| <= |Split(raw, ',')|
    ensures forall t | t in targets :: t.expectErr == expectErr && ValidPort(t.port)
  {
    targets := ParseEntries(Split(raw, ','), expectErr);
  }

  /** The loop of parseTargetList over the comma-separated fields. */
  method ParseEntries(fields: seq<string>, expectErr: bool) returns (targets: seq<Target>)
    ensures targets == Entries(fields, expectErr)
  {
    targets := [];
    var i := 0;
    while i < |fields|
      invariant 0 <= i <= |fields|
      invariant targets + Collect(fields[i..], EntryOf(expectErr)) == Collect(fields, EntryOf(expectErr))
    {
      CollectStep(fields, i, EntryOf(expectErr));
      ghost var rest := Collect(fields[i + 1..], EntryOf(expectErr));
      var entry := TrimSpace(fields[i]);
      if entry != [] {
        var t := ParseTarget(entry);
        t := t.(expectErr := expectErr);
        assert EntryOf(expectErr)(fields[i]) == [t];
        AppendAssoc(targets, [t], rest);
        targets := targets + [t];
      } else {
        assert EntryOf(expectErr)(fields[i]) == [];
        assert [] + rest == rest;
      }
      i := i + 1;
    }
    assert fields[i..] == [];
  }

  /** One step of the list: the field's own targets, then the rest's. */
  lemma CollectStep(fields: seq<string>, i: nat, entry: string -> seq<Target>)
    requires i < |fields|
    ensures Collect(fields[i..], entry) == entry(fields[i]) + Collect(fields[i + 1..], entry)
  {
    assert fields[i..][0] == fields[i] && fields[i..][1..] == fields[i + 1..];
  }

  /** Each field gives at most one target, tagged with the list's expectation and with a valid port. */
  lemma {:induction false} CollectTagged(fields: seq<string>, entry: string -> seq<Target>, expectErr: bool)
    requires forall f :: |entry(f)| <= 1
    requires forall f, t | t in entry(f) :: t.expectErr == expectErr && ValidPort(t.port)
    ensures |Collect(fields, entry)| <= |fields|
    ensures forall t | t in Collect(fields, entry) :: t.expectErr == expectErr && ValidPort(t.port)
    decreases |fields|
  {
    if fields != [] {
      CollectTagged(fields[1..], entry, expectErr);
    }
  }

  /** The targets of two runs of fields are those of each run, in order. */
  lemma {:induction false} CollectAppend(a: seq<string>, b: seq<string>, entry: string -> seq<Target>)
    ensures Collect(a + b, entry) == Collect(a, entry) + Collect(b, entry)
    decreases |a|
  {
    if a != [] {
      assert (a + b)[0] == a[0];
      assert (a + b)[1..] == a[1..] + b;
      CollectAppend(a[1..], b, entry);
      assert entry(a[0]) + (Collect(a[1..], entry) + Collect(b, entry))
        == (entry(a[0]) + Collect(a[1..], entry)) + Collect(b, entry);
    } else {
      assert a + b == b;
    }
  }

  /**
    Output order follows input order: the list `a,b` gives the targets of
    `a` followed by those of `b`.
  */
  lemma TargetListAppend(a: string, b: string, expectErr: bool)
    ensures TargetList(a + "," + b, expectErr) == TargetList(a, expectErr) + TargetList(b, expectErr)
  {
    SplitAppend(a, ',', b);
    CollectAppend(Split(a, ','), Split(b, ','), EntryOf(expectErr));
  }

  /**
    A list without commas is one entry: nothing when it is all white space,
    otherwise the target its trimmed text parses to.
  */
  lemma TargetListSingle(entry: string, expectErr: bool)
    requires ',' !in entry
    ensures (forall i | 0 <= i < |entry| :: IsSpace(entry[i])) ==> TargetList(entry, expectErr) == []
    ensures !(forall i | 0 <= i < |entry| :: IsSpace(entry[i])) ==>
      TargetList(entry, expectErr) == [ParseTarget(TrimSpace(entry)).(expectErr := expectErr)]
  {
    SplitJoin([entry], ',');
    assert Join([entry], ',') == entry;
    assert [entry][1..] == [];
    assert Collect([entry], EntryOf(expectErr)) == EntryTargets(entry, expectErr) + [];
  }
}
