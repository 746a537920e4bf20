/**
  The error classifier of the probe (main.go, simplifyError): a raw error
  message becomes one of a few stable categories by substring matching in a
  fixed priority order, or else the terse reason after the last `": "`.
*/
module ErrorClass {
  import opened Wrappers
  import opened GoStrings

  const NxDomain: string := "NXDOMAIN"
  const Timeout: string := "timeout"
  const Refused: string := "connection refused"
  const Reset: string := "connection reset"
  const CertUnknownAuthority: string := "cert: unknown authority"
  const CertExpired: string := "cert: expired"
  const CertError: string := "cert error"
  const HandshakeFailure: string := "TLS handshake failure"

  /** The categories simplifyError can answer with when some phrase matches. */
  const Labels: set<string> :=
    {NxDomain, Timeout, Refused, Reset, CertUnknownAuthority, CertExpired, CertError, HandshakeFailure}

  /**
    The unclassified case: the text after the last `": "`, or the whole
    message when it has none.  What comes back is a suffix of the message
    holding no `": "`, and either it is the whole message or a `": "` stands
    right before it.
  */
  function Fallback(msg: string): (r: string)
    ensures |r| <= |msg| && r == msg[|msg| - |r|..]
    ensures !Contains(r, ": ")
    ensures r == msg || (|msg| - |r| >= 2 && msg[|msg| - |r| - 2..|msg| - |r|] == ": ")
  {
    var idx := LastIndexOf(msg, ": ");
    if idx != -1 then
      var r := msg[idx + 2..];
      assert !Contains(r, ": ") by {
        forall j | 0 <= j ensures !OccursAt(r, ": ", j) {
          if j + 2 <= |r| {
            assert r[j..j + 2] == msg[idx + 2 + j..idx + 2 + j + 2];
            assert !OccursAt(msg, ": ", idx + 2 + j);
          }
        }
      }
      r
    else
      assert !Contains(msg, ": ") by {
        forall j | 0 <= j ensures !OccursAt(msg, ": ", j) {
          assert -1 < j;
        }
      }
      msg
  }

  /** None of the phrases simplifyError looks for occurs: the message is reported through the fallback. */
  predicate Unclassified(msg: string)
  {
    && !Contains(msg, "no such host")
    && !Contains(msg, "i/o timeout")
    && !Contains(msg, "deadline exceeded")
    && !Contains(msg, "connection refused")
    && !Contains(msg, "connection reset")
    && !Contains(msg, "certificate")
    && !Contains(msg, "handshake failure")
  }

  /**
    simplifyError on the message text: the first matching phrase decides
    the category (matching is case-sensitive), and an unmatched message
    falls back to its last `": "`-separated part.
  */
  function SimplifyError(msg: string): (r: string)
    ensures Unclassified(msg) ==> r == Fallback(msg)
    ensures !Unclassified(msg) ==> r in Labels
    ensures Contains(msg, "no such host") ==> r == NxDomain
  {
    if Contains(msg, "no such host") then NxDomain
    else if Contains(msg, "i/o timeout") || Contains(msg, "deadline exceeded") then Timeout
    else if Contains(msg, "connection refused") then Refused
    else if Contains(msg, "connection reset") then Reset
    else if Contains(msg, "certificate") then
      if Contains(msg, "unknown authority") then CertUnknownAuthority
      else if Contains(msg, "expired") then CertExpired
      else CertError
    else if Contains(msg, "handshake failure") then HandshakeFailure
    else Fallback(msg)
  }

  /** A classification rule: it applies when every one of its phrases occurs in the message. */
  datatype Rule = Rule(phrases: seq<string>, category: string)

  /** The rules of the classifier as an ordered table, the earlier ones taking precedence. */
  const Rules: seq<Rule> := [
    Rule(["no such host"], NxDomain),
    Rule(["i/o timeout"], Timeout),
    Rule(["deadline exceeded"], Timeout),
    Rule(["connection refused"], Refused),
    Rule(["connection reset"], Reset),
    Rule(["certificate", "unknown authority"], CertUnknownAuthority),
    Rule(["certificate", "expired"], CertExpired),
    Rule(["certificate"], CertError),
    Rule(["handshake failure"], HandshakeFailure)
  ]

  predicate Applies(rule: Rule, msg: string)
  {
    forall k | 0 <= k < |rule.phrases| :: Contains(msg, rule.phrases[k])
  }

  /** The category of the first rule from index `from` on that applies. */
  function FirstMatch(msg: string, from: nat): (category: Option<string>)
    requires from <= |Rules|
    ensures category.Some? ==>
      exists k | from <= k < |Rules| ::
        && Applies(Rules[k], msg) && category.value == Rules[k].category
        && forall j | from <= j < k :: !Applies(Rules[j], msg)
    ensures category.None? ==> forall k | from <= k < |Rules| :: !Applies(Rules[k], msg)
    decreases |Rules| - from
  {
    if from == |Rules| then None
    else if Applies(Rules[from], msg) then Some(Rules[from].category)
    else FirstMatch(msg, from + 1)
  }

  /** The classifier as a table lookup: the first applicable rule's category, or the fallback. */
  function Classify(msg: string): string
  {
    match FirstMatch(msg, 0)
    case Some(category) => category
    case None => Fallback(msg)
  }

  lemma AppliesOne(msg: string, p: string, category: string)
    ensures Applies(Rule([p], category), msg) <==> Contains(msg, p)
  {
    assert [p][0] == p;
  }

  lemma AppliesTwo(msg: string, p: string, q: string, category: string)
    ensures Applies(Rule([p, q], category), msg) <==> Contains(msg, p) && Contains(msg, q)
  {
    assert [p, q][0] == p && [p, q][1] == q;
  }

  /** What it takes for each rule of the table to apply. */
  lemma RuleConditions(msg: string)
    ensures Applies(Rules[0], msg) <==> Contains(msg, "no such host")
    ensures Applies(Rules[1], msg) <==> Contains(msg, "i/o timeout")
    ensures Applies(Rules[2], msg) <==> Contains(msg, "deadline exceeded")
    ensures Applies(Rules[3], msg) <==> Contains(msg, "connection refused")
    ensures Applies(Rules[4], msg) <==> Contains(msg, "connection reset")
    ensures Applies(Rules[5], msg) <==> Contains(msg, "certificate") && Contains(msg, "unknown authority")
    ensures Applies(Rules[6], msg) <==> Contains(msg, "certificate") && Contains(msg, "expired")
    ensures Applies(Rules[7], msg) <==> Contains(msg, "certificate")
    ensures Applies(Rules[8], msg) <==> Contains(msg, "handshake failure")
  {
    AppliesOne(msg, "no such host", NxDomain);
    AppliesOne(msg, "i/o timeout", Timeout);
    AppliesOne(msg, "deadline exceeded", Timeout);
    AppliesOne(msg, "connection refused", Refused);
    AppliesOne(msg, "connection reset", Reset);
    AppliesTwo(msg, "certificate", "unknown authority", CertUnknownAuthority);
    AppliesTwo(msg, "certificate", "expired", CertExpired);
    AppliesOne(msg, "certificate", CertError);
    AppliesOne(msg, "handshake failure", HandshakeFailure);
  }

  /** simplifyError's chain of tests is exactly the ordered rule table. */
  lemma SimplifyErrorByRules(msg: string)
    ensures SimplifyError(msg) == Classify(msg)
  {
    RuleConditions(msg);
    assert FirstMatch(msg, 9) == None;
    assert FirstMatch(msg, 8) == if Applies(Rules[8], msg) then Some(HandshakeFailure) else FirstMatch(msg, 9);
    assert FirstMatch(msg, 7) == if Applies(Rules[7], msg) then Some(CertError) else FirstMatch(msg, 8);
    assert FirstMatch(msg, 6) == if Applies(Rules[6], msg) then Some(CertExpired) else FirstMatch(msg, 7);
    assert FirstMatch(msg, 5) == if Applies(Rules[5], msg) then Some(CertUnknownAuthority) else FirstMatch(msg, 6);
    assert FirstMatch(msg, 4) == if Applies(Rules[4], msg) then Some(Reset) else FirstMatch(msg, 5);
    assert FirstMatch(msg, 3) == if Applies(Rules[3], msg) then Some(Refused) else FirstMatch(msg, 4);
    assert FirstMatch(msg, 2) == if Applies(Rules[2], msg) then Some(Timeout) else FirstMatch(msg, 3);
    assert FirstMatch(msg, 1) == if Applies(Rules[1], msg) then Some(Timeout) else FirstMatch(msg, 2);
    assert FirstMatch(msg, 0) == if Applies(Rules[0], msg) then Some(NxDomain) else FirstMatch(msg, 1);
  }

  /**
    The fallback is determined by the last separator: whatever precedes a
    `": "`, a reason without one comes back exactly.
  */
  lemma FallbackAfterSeparator(prefix: string, reason: string)
    requires !Contains(reason, ": ")
    ensures Fallback(prefix + ": " + reason) == reason
  {
    var msg := prefix + ": " + reason;
    var p := |prefix|;
    assert msg[p..p + 2] == ": ";
    assert OccursAt(msg, ": ", p);
    forall i | p < i ensures !OccursAt(msg, ": ", i) {
      if i + 2 <= |msg| {
        if i == p + 1 {
          assert msg[i..i + 2][0] == msg[p + 1] == ' ';
        } else {
          assert msg[i..i + 2] == reason[i - p - 2..i - p];
          assert !OccursAt(reason, ": ", i - p - 2);
        }
      }
    }
    assert LastIndexOf(msg, ": ") == p;
    assert msg[p + 2..] == reason;
  }

  /** A message with no separator at all is its own fallback. */
  lemma FallbackWhole(msg: string)
    requires !Contains(msg, ": ")
    ensures Fallback(msg) == msg
  {
    forall i ensures !OccursAt(msg, ": ", i) {
    }
    assert LastIndexOf(msg, ": ") == -1;
  }

  /**
    Matching is case-sensitive: every phrase starts with a lower-case
    letter, so a message without lower-case letters is never classified,
    and without a colon it comes back unchanged.
  */
  lemma CapitalsUnclassified(msg: string)
    requires forall i | 0 <= i < |msg| :: !('a' <= msg[i] <= 'z')
    ensures Unclassified(msg)
    ensures ':' !in msg ==> SimplifyError(msg) == msg
  {
    AbsentCharNotContained(msg, "no such host", 0);
    AbsentCharNotContained(msg, "i/o timeout", 0);
    AbsentCharNotContained(msg, "deadline exceeded", 0);
    AbsentCharNotContained(msg, "connection refused", 0);
    AbsentCharNotContained(msg, "connection reset", 0);
    AbsentCharNotContained(msg, "certificate", 0);
    AbsentCharNotContained(msg, "handshake failure", 0);
    if ':' !in msg {
      AbsentCharNotContained(msg, ": ", 0);
      FallbackWhole(msg);
    }
  }

  /** The resolver's phrase in capitals is not recognised. */
  lemma CaseSensitiveExample()
    ensures SimplifyError("NO SUCH HOST") == "NO SUCH HOST"
  {
    CapitalsUnclassified("NO SUCH HOST");
  }

  /**
    The priority order settles messages that mention several problems: a
    timeout beats a refusal, an unknown authority beats an expiry, and any
    certificate problem beats a handshake failure.
  */
  lemma PriorityExamples(msg: string)
    ensures !Contains(msg, "no such host") && Contains(msg, "i/o timeout") ==> SimplifyError(msg) == Timeout
    ensures (&& !Contains(msg, "no such host") && !Contains(msg, "i/o timeout")
             && !Contains(msg, "deadline exceeded") && !Contains(msg, "connection refused")
             && !Contains(msg, "connection reset") && Contains(msg, "certificate")) ==>
      && (Contains(msg, "unknown authority") ==> SimplifyError(msg) == CertUnknownAuthority)
      && SimplifyError(msg) in {CertUnknownAuthority, CertExpired, CertError}
  {
  }
}
