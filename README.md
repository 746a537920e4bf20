# egress-probe, modelled in Dafny

egress-probe is a one-shot command-line check of a workload's network egress.
It reads two comma-separated lists of targets (or, when neither gives any target, the older `TARGETS` list, read as ALLOW targets):

- ALLOW targets must be reachable.
- DENY targets must be blocked.

Each target goes through three phases in order: a DNS lookup, a TCP connect
and a TLS handshake. A phase is attempted only when the phase before it
succeeded. A target counts as *blocked* when any phase fails. It *passes*
when being blocked is what its list expects. The process exits with status 0
exactly when every target passes, and with status 1 when there are no
targets or some target failed its expectation.

The model covers:

- how a list entry becomes a `Target`: scheme, path, host and port;
- how a raw error message becomes a short category (`simplifyError`);
- the probe pipeline of `runTests`, with each network probe as a parameter;
- the verdict and exit logic of `main`;
- the column-width helpers `visibleLen` and `padRight` of the report table.

Modules:

| module | file | models |
|---|---|---|
| `GoStrings` | strings.dfy | the `strings` functions the core calls, from their documented behaviour |
| `GoNumbers` | numbers.dfy | `strconv.Atoi` and `strconv.Itoa` |
| `GoNet` | hostport.dfy | `net.SplitHostPort` and `net.JoinHostPort` |
| `Targets` | targets.dfy | `parseTarget` and `parseTargetList` |
| `ErrorClass` | errors.dfy | `simplifyError` |
| `Pipeline` | pipeline.dfy | `runTests`, the verdict loop and the exit rule of `main` |
| `Display` | display.dfy | `visibleLen`, `padRight` and the colour codes |

Behaviour of the source worth knowing:

- `simplifyError` matches its phrases case-sensitively and never
  lower-cases the message (main.go:313-346).
  `ErrorClass.CaseSensitiveExample` shows that `NO SUCH HOST` is not
  classified.
- `parseTarget` looks for `://` in the whole entry before it cuts the path
  (main.go:140 comes before main.go:153). A `://` inside a path therefore
  makes everything before it the scheme. `Targets.SeparatorInPathExample`
  shows that `db:5432/x?u=http://y` parses to host `y` and port 443.
- The check and cross marks that `visibleLen` counts as two columns are
  U+2705 and U+274C.

## Model

| member | source | states |
|---|---|---|
| GoStrings.IndexOf | main.go:140 | `strings.Index`: the first occurrence of the pattern, or -1 exactly when there is none |
| GoStrings.LastIndexOf | main.go:342 | `strings.LastIndex`: the last occurrence of the pattern, or -1 exactly when there is none |
| GoStrings.Contains | main.go:315-339 | `strings.Contains` holds exactly when the pattern occurs at some position |
| GoStrings.Split | main.go:126 | `strings.Split` on a rune: at least one field, no field holds the separator, and joining the fields gives back the input |
| GoStrings.SplitJoin | main.go:126 | splitting a join of separator-free fields gives back the fields |
| GoStrings.SplitAppend | main.go:126 | the fields of `a,b` are the fields of `a` followed by those of `b` |
| GoStrings.TrimSpace | main.go:127 | the trimmed text is the input with its leading and trailing white space removed: it occurs in the input with only white space before and after it, has no white space at either end, and is empty exactly when the input is all white space |
| GoStrings.ToLower | main.go:141 | same length, every ASCII capital lower-cased, every other rune kept |
| GoStrings.Spaces | main.go:613 | `strings.Repeat(" ", n)`: exactly `n` spaces |
| GoNumbers.Atoi | main.go:161 | success exactly for an optionally signed run of decimal digits whose value fits in 64 bits, and the value is that of the digits with the sign applied |
| GoNumbers.NatDigits | main.go:260 | at least one decimal digit, `0` for zero and no leading zero otherwise |
| GoNumbers.NatDigitsValue | main.go:260 | the digits read back give the number |
| GoNumbers.Itoa | main.go:260 | `strconv.Itoa`: the digits of the number, without a leading zero, preceded by `-` exactly when it is negative, with no leading zero after the `-` either |
| GoNumbers.AtoiItoa | main.go:161 | `Atoi` reads back every 64-bit integer `Itoa` writes |
| GoNet.JoinHostPort | main.go:260 | a host with a colon is bracketed, any other host is joined to the port by a colon |
| GoNet.SplitHostPort | main.go:157 | no colon means a missing-port error; an accepted split has a colon-free port and no brackets, and the input is the join of its parts |
| GoNet.SplitJoinHostPort | main.go:157 | `SplitHostPort` undoes `JoinHostPort` for hosts and ports without brackets |
| Targets.SchemePort | main.go:141-150 | the inferred port is 80 or 443: 80 exactly for `http` in any letter case, 443 for any other scheme |
| Targets.SchemeSeparatorAt | main.go:140 | the first `://` of `scheme://rest` is the one after the scheme whenever the scheme holds no `://` |
| Targets.StripScheme | main.go:140-151 | a valid inferred port, and a rest that is a piece of the entry |
| Targets.CutPath | main.go:153-155 | the part before the first `/`: a prefix of its input with no `/` |
| Targets.ParseTarget | main.go:138-166 | the port is always in 1..65535, the host is a `/`-free piece of the entry, and the target is not tagged DENY |
| Targets.StripSchemeOf | main.go:140-151 | the scheme up to the first `://` decides the port, and the rest is what follows it |
| Targets.CutPathOf | main.go:153-155 | a path that starts with `/` is cut off |
| Targets.ParseTargetShape | main.go:138-166 | the target is what `SplitHostPort` makes of the host and port part, with the scheme's port when there is no usable explicit port |
| Targets.ParseTargetRoundTrip | main.go:138-166 | `[scheme://]host:port[/path]`, written as the probe writes addresses, with a colon-free scheme (or no scheme and a colon-free path) and a host without `/` or brackets, parses back to that host and port; without a scheme, a `://` in the path is read as the end of a scheme (see `SeparatorInPathExample`) |
| Targets.ParseTargetHostPort | main.go:138-166 | `[scheme://]host:port[/path]` with a plain host (no `/`, `:` or brackets), under a colon-free scheme or under no scheme with a colon-free path, parses back to its host and port |
| Targets.ParseTargetNoPort | main.go:138-166 | without an explicit port the scheme's port is used, and 443 when there is no scheme |
| Targets.ParseTargetBadPort | main.go:161-164 | a non-numeric or out-of-range port is silently replaced by the scheme's port |
| Targets.ExplicitPortExample | main.go:138-166 | `example.com:8443` gives port 8443 |
| Targets.DefaultSchemeExamples | main.go:143-150 | `https://` and unknown schemes give 443 |
| Targets.HttpSchemeExample | main.go:144-145 | `http://` gives 80 |
| Targets.UpperCaseHttpPort | main.go:141-145 | `HTTP` in capitals implies port 80 |
| Targets.UpperCaseSchemeExample | main.go:141-155 | `HTTP://example.com/x` gives host `example.com` and port 80 |
| Targets.SchemeAndPortExample | main.go:138-166 | `tcp://1.1.1.1:53` gives port 53 |
| Targets.OutOfRangePortExample | main.go:161-164 | `db:99999` gives port 443 |
| Targets.BareIPv6Example | main.go:157-160 | `::1` is kept whole as the host, with port 443 |
| Targets.BracketedIPv6Example | main.go:157-160 | `[::1]` is kept whole, brackets and all, with port 443 |
| Targets.SeparatorInPathExample | main.go:140-155 | `db:5432/x?u=http://y` takes everything before the `://` in its path as the scheme, giving host `y` and port 443 |
| Targets.EntryTargets | main.go:127-133 | a blank entry gives no target; any other entry gives one target, tagged with the list's expectation and with a valid port |
| Targets.Entries | main.go:125-135 | at most one target per field, each tagged and with a valid port |
| Targets.ParseTargetList | main.go:124-136 | the loop yields `TargetList(raw)`: at most one target per comma-separated field, each tagged and with a valid port |
| Targets.ParseEntries | main.go:125-135 | the loop over the fields yields the targets of the non-blank fields, in field order |
| Targets.CollectTagged | main.go:125-135 | every collected target carries the list's expectation and a valid port |
| Targets.CollectAppend | main.go:125-135 | the targets of two runs of fields are those of the first run followed by those of the second |
| Targets.TargetListAppend | main.go:124-136 | the list `a,b` gives the targets of `a` followed by those of `b` |
| Targets.TargetListSingle | main.go:126-133 | a comma-free list gives nothing when it is blank, otherwise the target of its trimmed text |
| ErrorClass.Fallback | main.go:342-345 | the unclassified answer is a `": "`-free suffix of the message, either the whole message or the part right after a `": "` |
| ErrorClass.SimplifyError | main.go:313-346 | a message with a known phrase gets a category from the fixed set, `no such host` always gives NXDOMAIN, and any other message gets the fallback |
| ErrorClass.FirstMatch | main.go:313-340 | the category of a rule that applies and before which no rule applies, or none exactly when no rule applies |
| ErrorClass.RuleConditions | main.go:315-339 | the condition each row of the rule table stands for |
| ErrorClass.SimplifyErrorByRules | main.go:313-346 | the chain of tests equals the first-match lookup in the ordered rule table, with the fallback when no rule applies |
| ErrorClass.FallbackAfterSeparator | main.go:342-343 | after a `": "`, a reason without one comes back exactly, whatever precedes it |
| ErrorClass.FallbackWhole | main.go:345 | a message without `": "` comes back whole |
| ErrorClass.CapitalsUnclassified | main.go:315-339 | matching is case-sensitive: a message without lower-case letters is never classified, and without a colon it comes back unchanged |
| ErrorClass.CaseSensitiveExample | main.go:315-317 | `NO SUCH HOST` comes back as itself |
| ErrorClass.PriorityExamples | main.go:315-339 | a timeout outranks a refusal, an unknown authority outranks an expiry, and once `certificate` decides, the answer is a certificate category |
| Pipeline.Skip | main.go:196-197 | a skipped phase is unsuccessful, took no time, and carries its reason as detail |
| Pipeline.Outcome | main.go:185-214 | the DNS result is the probe's; after a DNS failure both later phases are `skipped (DNS failed)`; after a lookup TCP holds the TCP probe's result; after a TCP failure TLS is `skipped (TCP failed)`, and otherwise it holds the TLS probe's result; a phase succeeds only after the earlier ones did |
| Pipeline.RunTests | main.go:185-214 | a fresh array holding each target's outcome at its index, and a probe log of all lookups followed by the TCP and TLS probes target by target |
| Pipeline.Lookups | main.go:188-191 | one lookup per target |
| Pipeline.LookupsInOrder | main.go:188-191 | the lookups are made in target order |
| Pipeline.ConnectionsMade | main.go:194-210 | TCP is probed exactly for the targets whose lookup succeeded, TLS exactly for those whose connection succeeded too, and no lookup is repeated |
| Pipeline.ProbeSchedule | main.go:185-214 | in the whole log, all lookups come first and in order, then TCP and TLS exactly where the earlier phases succeeded |
| Pipeline.Verdict | main.go:76-84 | blocked exactly when some phase failed, passed exactly when blocked matches the expectation, nothing else changed |
| Pipeline.EvaluateVerdicts | main.go:76-84 | each result in the array is replaced by its verdict |
| Pipeline.ExitStatus | main.go:92-96 | the status is 0 or 1, and 0 exactly when every result passed |
| Pipeline.Run | main.go:52-97 | the status is 0 or 1, and 0 exactly when there are targets and every one of them passes |
| Pipeline.PassesByProbes | main.go:76-84 | an ALLOW target passes exactly when all three probes succeed, a DENY target exactly when one fails |
| Pipeline.BlockedIffNoTls | main.go:76-84 | a target is blocked exactly when its TLS phase did not succeed |
| Pipeline.LaterProbesIgnoredAfterDns | main.go:195-199 | after a DNS failure, the TCP and TLS probes do not affect the result |
| Pipeline.TlsProbeIgnoredAfterTcp | main.go:204-207 | after a TCP failure, the TLS probe does not affect the result |
| Pipeline.UnresolvedDenyScenario | main.go:76-84 | a DENY target whose name does not resolve is blocked and passes, with TCP and TLS skipped |
| Pipeline.RefusedAllowScenario | main.go:76-84 | an ALLOW target whose connection fails is blocked and fails, with TLS skipped |
| Pipeline.MixedRunScenario | main.go:92-96 | a healthy ALLOW target and a DENY target stopped at TLS both pass |
| Display.RunAppend | main.go:619-635 | scanning a concatenation is scanning one part after the other |
| Display.VisibleLen | main.go:616-637 | the loop computes `VisibleWidth` |
| Display.RunWidthBounds | main.go:619-635 | scanning adds at most two columns per rune and never removes any |
| Display.VisibleWidthBound | main.go:616-637 | a string is at most twice as wide as its rune count |
| Display.PlainRun | main.go:630-634 | outside an escape, runes that are neither escapes nor marks take one column each |
| Display.PlainWidth | main.go:616-637 | plain text is as wide as it is long |
| Display.EscapeBody | main.go:624-629 | inside an escape, runes that are not letters change nothing |
| Display.EscapeInvisible | main.go:620-629 | an escape sequence takes no columns and closes itself, whatever came before it |
| Display.ColorsAreEscapes | main.go:21-29 | every colour code is an escape sequence |
| Display.ColoredWidth | main.go:616-637 | wrapping text in a colour code and the reset code keeps its width |
| Display.WidthAppend | main.go:616-637 | widths add up when the first part does not end inside an escape |
| Display.RunShift | main.go:619-635 | counting from a larger start shifts the result by the same amount |
| Display.PassedCellWidth | main.go:590 | a passed phase's cell is six columns plus the duration's digits, the check mark counting twice |
| Display.PadRight | main.go:608-614 | the text followed by spaces only: unchanged when it is already wide enough, and otherwise followed by exactly the missing number of columns in spaces |
| Display.PadRightWidth | main.go:608-614 | a padded cell is exactly the column's width, or the text's when that is wider; spaces after an open escape add nothing |
| Display.PadRightIdempotent | main.go:608-614 | padding a cell that does not end inside an open escape sequence a second time changes nothing |

## Left out

- The network probes `testDNS`, `testTCP` and `testTLS`, and the DNS warm-up `warmupDNS`. Each probe is a function parameter from target to phase result, so the model assumes a probe answers the same for the same target.
- The goroutines and the WaitGroup of `runTests`: the TCP and TLS probes run one target at a time. The probe log records that sequential order. The source makes no promise about the order of probes for different targets, and its results do not depend on it.
- `parseConfig`, because it reads environment variables. The timeout and the `OUTPUT` mode are not modelled.
- The report printers `printHeader`, `printResults`, `printJSON`, `printSeparator`, `printSectionLabel` and `formatPhaseCell`, and `tlsVersionString`, because they only produce output. `Display.PassedCellWidth` covers the width of one cell that `formatPhaseCell` builds.
- `Pipeline.PhaseResult`: durations are plain integers, and time is not modelled.
- `Pipeline.Run`: the error message for an empty target list is not modelled. Only the exit status is.
- Strings are rune sequences throughout. The byte indexing that Go's `strings` functions use gives the same results on the ASCII patterns the core searches for. Invalid UTF-8 is not modelled.
- `GoStrings.ToLower` lower-cases ASCII letters only. The scheme is only compared with `http`. Go's full lower-casing does map a few non-ASCII runes to ASCII letters, for example U+212A KELVIN SIGN to `k` and U+0130 to `i`. But no rune other than an ASCII capital lower-cases to `h`, `t` or `p`, so the comparison comes out the same.
- `GoNumbers.Atoi` assumes 64-bit `int`, the width of Go's `int` on the platforms the probe is built for.
- `ErrorClass.SimplifyError` takes the message text rather than an `error` value. Producing the message with `err.Error()` is not modelled.
