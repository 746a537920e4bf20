/**
  The probe pipeline (main.go, runTests and the verdict and exit logic of
  main): a DNS lookup for every target in order, then TCP and TLS for the
  targets whose earlier phases succeeded, then a verdict per target and an
  exit status for the whole run.
*/
module Pipeline {
  import opened Targets

  /** The outcome of one phase; `duration` is the elapsed time and is kept opaque. */
  datatype PhaseResult = PhaseResult(success: bool, duration: int, detail: string)

  /** Everything recorded about one target. */
  datatype TestResult = TestResult(
    target: Target,
    dns: PhaseResult,
    tcp: PhaseResult,
    tls: PhaseResult,
    passed: bool,
    blocked: bool)

  /** A network probe, reduced to the outcome it reports for a target. */
  type Probe = Target -> PhaseResult

  const DnsSkipped: string := "skipped (DNS failed)"
  const TcpSkipped: string := "skipped (TCP failed)"

  /** Go's zero PhaseResult: no success, no time, no detail. */
  const Unset: PhaseResult := PhaseResult(false, 0, "")

  /** A phase that was not attempted: a zero result carrying only its detail. */
  function Skip(detail: string): (p: PhaseResult)
    ensures !p.success && p.duration == 0 && p.detail == detail
  {
    Unset.(detail := detail)
  }

  /** One probe call made by the pipeline, naming the target by its index. */
  datatype Call = DnsCall(index: nat) | TcpCall(index: nat) | TlsCall(index: nat)

  /** A result after the first loop of runTests: the target and its DNS outcome, the rest zero. */
  function Resolved(t: Target, dns: Probe): TestResult
  {
    TestResult(t, dns(t), Unset, Unset, false, false)
  }

  /**
    The result runTests records for a target: the DNS outcome, then TCP only
    after a successful lookup and TLS only after a successful connection,
    each phase that is not attempted marked as skipped because of the phase
    that failed.  A phase can only succeed when the ones before it did.
  */
  function Outcome(t: Target, dns: Probe, tcp: Probe, tls: Probe): (r: TestResult)
    ensures r.target == t && r.dns == dns(t) && !r.passed && !r.blocked
    ensures !r.dns.success ==> r.tcp == Skip(DnsSkipped) && r.tls == Skip(DnsSkipped)
    ensures r.dns.success ==> r.tcp == tcp(t)
    ensures r.dns.success && !r.tcp.success ==> r.tls == Skip(TcpSkipped)
    ensures r.dns.success && r.tcp.success ==> r.tls == tls(t)
    ensures !r.tcp.success ==> r.tls == Skip(DnsSkipped) || r.tls == Skip(TcpSkipped)
    ensures r.tcp.success ==> r.dns.success
    ensures r.tls.success ==> r.dns.success && r.tcp.success
  {
    var resolved := Resolved(t, dns);
    if !resolved.dns.success then
      resolved.(tcp := Skip(DnsSkipped), tls := Skip(DnsSkipped))
    else
      var connected := resolved.(tcp := tcp(t));
      if !connected.tcp.success then connected.(tls := Skip(TcpSkipped))
      else connected.(tls := tls(t))
  }

  /** The DNS lookups runTests makes first: one per target, in target order. */
  ghost function Lookups(n: nat): (calls: seq<Call>)
    ensures |calls| == n
  {
    if n == 0 then [] else Lookups(n - 1) + [DnsCall(n - 1)]
  }

  /** The probes made for the target at index `i` once its lookup is done. */
  ghost function Followups(i: nat, t: Target, dns: Probe, tcp: Probe): seq<Call>
  {
    if !dns(t).success then []
    else if !tcp(t).success then [TcpCall(i)]
    else [TcpCall(i), TlsCall(i)]
  }

  /** The TCP and TLS probes made for the first `n` targets, target by target. */
  ghost function Connections(targets: seq<Target>, n: nat, dns: Probe, tcp: Probe): seq<Call>
    requires n <= |targets|
  {
    if n == 0 then [] else Connections(targets, n - 1, dns, tcp) + Followups(n - 1, targets[n - 1], dns, tcp)
  }

  /**
    runTests: one result per target, at the target's index.  All DNS
    lookups come first, in target order, then the TCP and TLS probes target
    by target; `calls` records the probes in the order this sequential model
    makes them.
  */
  method RunTests(targets: seq<Target>, dns: Probe, tcp: Probe, tls: Probe)
    returns (results: array<TestResult>, ghost calls: seq<Call>)
    ensures fresh(results) && results.Length == |targets|
    ensures forall i | 0 <= i < |targets| :: results[i] == Outcome(targets[i], dns, tcp, tls)
    ensures calls == Lookups(|targets|) + Connections(targets, |targets|, dns, tcp)
  {
    results := new TestResult[|targets|];
    calls := [];
    for i := 0 to |targets|
      invariant calls == Lookups(i)
      invariant forall j | 0 <= j < i :: results[j] == Resolved(targets[j], dns)
    {
      results[i] := TestResult(targets[i], dns(targets[i]), Unset, Unset, false, false);
      calls := calls + [DnsCall(i)];
    }
    for i := 0 to results.Length
      invariant forall j | 0 <= j < i :: results[j] == Outcome(targets[j], dns, tcp, tls)
      invariant forall j | i <= j < |targets| :: results[j] == Resolved(targets[j], dns)
      invariant calls == Lookups(|targets|) + Connections(targets, i, dns, tcp)
    {
      var r := results[i];
      if !r.dns.success {
        r := r.(tcp := Skip(DnsSkipped), tls := Skip(DnsSkipped));
      } else {
        r := r.(tcp := tcp(targets[i]));
        calls := calls + [TcpCall(i)];
        if !r.tcp.success {
          r := r.(tls := Skip(TcpSkipped));
        } else {
          r := r.(tls := tls(targets[i]));
          calls := calls + [TlsCall(i)];
        }
      }
      results[i] := r;
    }
  }

  /** The lookups are the first calls, one per target in order. */
  lemma {:induction false} LookupsInOrder(n: nat)
    ensures forall i | 0 <= i < n :: Lookups(n)[i] == DnsCall(i)
  {
    if n > 0 {
      LookupsInOrder(n - 1);
    }
  }

  /**
    After the lookups, a TCP probe is made exactly for the targets whose
    lookup succeeded, a TLS probe exactly for those whose connection
    succeeded too, and no further lookup.
  */
  lemma {:induction false} ConnectionsMade(targets: seq<Target>, n: nat, dns: Probe, tcp: Probe)
    requires n <= |targets|
    ensures forall c | c in Connections(targets, n, dns, tcp) :: !c.DnsCall? && c.index < n
    ensures forall i | 0 <= i < n :: TcpCall(i) in Connections(targets, n, dns, tcp) <==> dns(targets[i]).success
    ensures forall i | 0 <= i < n ::
      TlsCall(i) in Connections(targets, n, dns, tcp) <==> dns(targets[i]).success && tcp(targets[i]).success
  {
    if n > 0 {
      var before := Connections(targets, n - 1, dns, tcp);
      var last := Followups(n - 1, targets[n - 1], dns, tcp);
      ConnectionsMade(targets, n - 1, dns, tcp);
      FollowupsMade(n - 1, targets[n - 1], dns, tcp);
      assert Connections(targets, n, dns, tcp) == before + last;
    }
  }

  /** The probes made for one target after its lookup carry its index. */
  lemma FollowupsMade(i: nat, t: Target, dns: Probe, tcp: Probe)
    ensures forall c | c in Followups(i, t, dns, tcp) :: !c.DnsCall? && c.index == i
    ensures forall j: nat :: TcpCall(j) in Followups(i, t, dns, tcp) <==> j == i && dns(t).success
    ensures forall j: nat :: TlsCall(j) in Followups(i, t, dns, tcp) <==> j == i && dns(t).success && tcp(t).success
  {
  }

  /**
    The probe schedule of runTests: every lookup comes first, in target
    order; after them a TCP probe is made exactly for the targets whose
    lookup succeeded, a TLS probe exactly for those whose connection
    succeeded too, and no target is looked up twice.
  */
  lemma ProbeSchedule(targets: seq<Target>, dns: Probe, tcp: Probe)
    ensures var calls := Lookups(|targets|) + Connections(targets, |targets|, dns, tcp);
      && |calls| >= |targets|
      && (forall i | 0 <= i < |targets| :: calls[i] == DnsCall(i))
      && (forall c | c in calls[|targets|..] :: !c.DnsCall? && c.index < |targets|)
      && (forall i | 0 <= i < |targets| :: TcpCall(i) in calls <==> dns(targets[i]).success)
      && (forall i | 0 <= i < |targets| ::
            TlsCall(i) in calls <==> dns(targets[i]).success && tcp(targets[i]).success)
  {
    var n := |targets|;
    var calls := Lookups(n) + Connections(targets, n, dns, tcp);
    LookupsInOrder(n);
    ConnectionsMade(targets, n, dns, tcp);
    assert calls[n..] == Connections(targets, n, dns, tcp);
    forall i | 0 <= i < n ensures TcpCall(i) !in Lookups(n) && TlsCall(i) !in Lookups(n) {
      forall k | 0 <= k < n ensures Lookups(n)[k] == DnsCall(k) {
      }
    }
  }

  /**
    The verdict main gives a result: blocked when some phase did not
    succeed, passed when being blocked is what the target expects; nothing
    else about the result changes.
  */
  function Verdict(r: TestResult): (v: TestResult)
    ensures v.blocked <==> !(r.dns.success && r.tcp.success && r.tls.success)
    ensures v.passed <==> (v.blocked == r.target.expectErr)
    ensures v.(passed := r.passed, blocked := r.blocked) == r
  {
    var blocked := !r.dns.success || !r.tcp.success || !r.tls.success;
    r.(blocked := blocked, passed := if r.target.expectErr then blocked else !blocked)
  }

  /** The verdict loop of main, updating every result in place. */
  method EvaluateVerdicts(results: array<TestResult>)
    modifies results
    ensures forall i | 0 <= i < results.Length :: results[i] == Verdict(old(results[i]))
  {
    for i := 0 to results.Length
      invariant forall j | 0 <= j < i :: results[j] == Verdict(old(results[j]))
      invariant forall j | i <= j < results.Length :: results[j] == old(results[j])
    {
      var blocked := !results[i].dns.success || !results[i].tcp.success || !results[i].tls.success;
      results[i] := results[i].(blocked := blocked);
      if results[i].target.expectErr {
        results[i] := results[i].(passed := blocked);
      } else {
        results[i] := results[i].(passed := !blocked);
      }
    }
  }

  /** The exit rule of main: status 1 as soon as some result did not pass, 0 otherwise. */
  method ExitStatus(results: array<TestResult>) returns (code: int)
    ensures code == 0 || code == 1
    ensures code == 0 <==> forall i | 0 <= i < results.Length :: results[i].passed
  {
    for i := 0 to results.Length
      invariant forall j | 0 <= j < i :: results[j].passed
    {
      if !results[i].passed {
        return 1;
      }
    }
    return 0;
  }

  /** Whether a target passes once the pipeline and the verdict have run. */
  predicate Passes(t: Target, dns: Probe, tcp: Probe, tls: Probe)
  {
    Verdict(Outcome(t, dns, tcp, tls)).passed
  }

  /**
    The run of main once the targets are known: no targets is an error
    (status 1); otherwise the status is 0 exactly when every target passes.
  */
  method Run(targets: seq<Target>, dns: Probe, tcp: Probe, tls: Probe) returns (code: int)
    ensures code == 0 || code == 1
    ensures code == 0 <==> |targets| > 0 && forall t | t in targets :: Passes(t, dns, tcp, tls)
  {
    if |targets| == 0 {
      return 1;
    }
    var results, calls := RunTests(targets, dns, tcp, tls);
    EvaluateVerdicts(results);
    code := ExitStatus(results);
    assert code == 0 <==> forall i | 0 <= i < |targets| :: Passes(targets[i], dns, tcp, tls);
  }

  /**
    End to end, a target passes exactly when the probes' successes match
    its expectation: an ALLOW target when all three phases succeed, a DENY
    target when any of them fails.
  */
  lemma PassesByProbes(t: Target, dns: Probe, tcp: Probe, tls: Probe)
    ensures Passes(t, dns, tcp, tls) <==> (t.expectErr <==> !(dns(t).success && tcp(t).success && tls(t).success))
  {
  }

  /** A target is blocked exactly when its TLS phase did not succeed, skipped or failed. */
  lemma BlockedIffNoTls(t: Target, dns: Probe, tcp: Probe, tls: Probe)
    ensures Verdict(Outcome(t, dns, tcp, tls)).blocked <==> !Outcome(t, dns, tcp, tls).tls.success
  {
  }

  /** When DNS fails, what the TCP and TLS probes would report makes no difference. */
  lemma LaterProbesIgnoredAfterDns(t: Target, dns: Probe, tcp: Probe, tls: Probe, tcp': Probe, tls': Probe)
    requires !dns(t).success
    ensures Outcome(t, dns, tcp, tls) == Outcome(t, dns, tcp', tls')
  {
  }

  /** When TCP fails, what the TLS probe would report makes no difference. */
  lemma TlsProbeIgnoredAfterTcp(t: Target, dns: Probe, tcp: Probe, tls: Probe, tls': Probe)
    requires !tcp(t).success
    ensures Outcome(t, dns, tcp, tls) == Outcome(t, dns, tcp, tls')
  {
  }

  /** A DENY target whose name does not resolve: TCP and TLS skipped, blocked, passed. */
  lemma UnresolvedDenyScenario(t: Target, dns: Probe, tcp: Probe, tls: Probe)
    requires t.expectErr && !dns(t).success
    ensures var v := Verdict(Outcome(t, dns, tcp, tls));
      && v.tcp == Skip(DnsSkipped) && v.tls == Skip(DnsSkipped)
      && v.blocked && v.passed
  {
  }

  /** An ALLOW target whose connection fails: TLS skipped, blocked, not passed. */
  lemma RefusedAllowScenario(t: Target, dns: Probe, tcp: Probe, tls: Probe)
    requires !t.expectErr && dns(t).success && !tcp(t).success
    ensures var v := Verdict(Outcome(t, dns, tcp, tls));
      && v.tcp == tcp(t) && v.tls == Skip(TcpSkipped)
      && v.blocked && !v.passed
  {
  }

  /**
    A healthy ALLOW target next to a DENY target stopped at TLS: both pass,
    so the run succeeds although one target shows a failed phase.
  */
  lemma MixedRunScenario(allow: Target, deny: Target, dns: Probe, tcp: Probe, tls: Probe)
    requires !allow.expectErr && dns(allow).success && tcp(allow).success && tls(allow).success
    requires deny.expectErr && dns(deny).success && tcp(deny).success && !tls(deny).success
    ensures forall t | t in [allow, deny] :: Passes(t, dns, tcp, tls)
  {
    PassesByProbes(allow, dns, tcp, tls);
    PassesByProbes(deny, dns, tcp, tls);
  }
}
