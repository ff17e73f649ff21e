/** The status/host decision of the Slack report processor: which headline
    and colour a finished run gets, and whether its host passes the host
    patterns configured for that outcome. */
module Decision {
  import opened Wrappers

  /** The fields of a finished Puppet run that the processor reads. */
  datatype Report = Report(host: string, status: string, environment: string, noopPending: bool)

  /** The host patterns configured per outcome (`failed_hosts`,
      `pending_hosts`, `changed_hosts`, `unchanged_hosts`). */
  datatype HostRules = HostRules(failedHosts: seq<string>, pendingHosts: seq<string>, changedHosts: seq<string>, unchangedHosts: seq<string>)

  /** Which hosts an outcome is posted for: those matching one of the
      patterns, or every host. */
  datatype Gate = Patterns(patterns: seq<string>) | AnyHost

  /** The headline (`pretxt`), the attachment colour and the host gate chosen
      for a run. */
  datatype Verdict = Verdict(headline: string, color: string, gate: Gate)

  /** A regular-expression search: does the pattern match somewhere in the
      host name? The regex engine itself is not part of this model. */
  type Matcher = (string, string) -> bool

  const PendingHeadline: string := ":exclamation: Puppet status: *pending changes*"
  const PendingColor: string := "#80699B"

  /** The headline before any marker is put in front of it. */
  function StatusLine(status: string): string
  {
    "Puppet status: *" + status + "*"
  }

  /** An unchanged run with pending no-op changes, when `pending` is one of
      the configured statuses. */
  predicate PendingOverride(statuses: seq<string>, report: Report)
  {
    "pending" in statuses && report.status == "unchanged" && report.noopPending
  }

  /** The first-match-wins choice between the pending override and the
      branch on the run status; `None` leaves the run unreported. */
  function Decide(statuses: seq<string>, rules: HostRules, report: Report): (v: Option<Verdict>)
    ensures v.None? <==> !PendingOverride(statuses, report) && report.status !in statuses
  {
    if PendingOverride(statuses, report) then
      Some(Verdict(PendingHeadline, PendingColor, Patterns(rules.pendingHosts)))
    else if report.status !in statuses then
      None
    else if report.status == "changed" then
      Some(Verdict(":congratulations: " + StatusLine(report.status), "good", Patterns(rules.changedHosts)))
    else if report.status == "failed" then
      Some(Verdict(":warning: " + StatusLine(report.status), "warning", Patterns(rules.failedHosts)))
    else if report.status == "unchanged" then
      Some(Verdict(":zzz: " + StatusLine(report.status), "#cccccc", Patterns(rules.unchangedHosts)))
    else
      Some(Verdict(":grey_question: " + StatusLine(report.status), "warning", AnyHost))
  }

  /** The union of the patterns as alternatives: the host matches the union
      exactly when it matches one of them, so an empty list matches nothing. */
  function AnyMatch(matches: Matcher, patterns: seq<string>, host: string): (r: bool)
    ensures r <==> exists i :: 0 <= i < |patterns| && matches(patterns[i], host)
  {
    if patterns == [] then false
    else
      var rest := AnyMatch(matches, patterns[1..], host);
      assert rest ==> exists i :: 0 <= i < |patterns| && matches(patterns[i], host) by {
        if rest {
          var i :| 0 <= i < |patterns[1..]| && matches(patterns[1..][i], host);
          assert matches(patterns[i + 1], host);
        }
      }
      matches(patterns[0], host) || rest
  }

  predicate Admits(gate: Gate, matches: Matcher, host: string)
  {
    match gate
    case AnyHost => true
    case Patterns(ps) => AnyMatch(matches, ps, host)
  }

  /** The final value of `post_report`: there is a verdict, and either it
      ignores the host or one of its patterns matches the host. */
  function ShouldPost(statuses: seq<string>, rules: HostRules, report: Report, matches: Matcher): (r: bool)
    ensures r <==> var v := Decide(statuses, rules, report);
      && v.Some?
      && (v.value.gate.AnyHost?
          || exists i :: 0 <= i < |v.value.gate.patterns| && matches(v.value.gate.patterns[i], report.host))
  {
    var v := Decide(statuses, rules, report);
    v.Some? && Admits(v.value.gate, matches, report.host)
  }

  /** The pending override wins over the branch on the status: the pending
      headline and colour, gated by the pending patterns, and never the
      `:zzz:` headline, whether or not `unchanged` is itself a configured status. */
  lemma PendingOverridePrecedence(statuses: seq<string>, rules: HostRules, report: Report, matches: Matcher)
    requires "pending" in statuses && report.status == "unchanged" && report.noopPending
    ensures Decide(statuses, rules, report)
         == Some(Verdict(":exclamation: Puppet status: *pending changes*", "#80699B", Patterns(rules.pendingHosts)))
    ensures ShouldPost(statuses, rules, report, matches)
        <==> exists i :: 0 <= i < |rules.pendingHosts| && matches(rules.pendingHosts[i], report.host)
  {
  }

  /** Without the override, a status that is not configured is never
      reported. */
  lemma UnlistedStatusSuppressed(statuses: seq<string>, rules: HostRules, report: Report, matches: Matcher)
    requires !PendingOverride(statuses, report) && report.status !in statuses
    ensures Decide(statuses, rules, report) == None
    ensures !ShouldPost(statuses, rules, report, matches)
  {
  }

  /** The pattern list that gates a known status. */
  function KnownStatusHosts(rules: HostRules, status: string): seq<string>
  {
    if status == "changed" then rules.changedHosts
    else if status == "failed" then rules.failedHosts
    else rules.unchangedHosts
  }

  /** A configured `changed` run gets the `:congratulations: ` headline, colour
      `good` and the `changed_hosts` patterns; the pending override, which
      needs an `unchanged` run, never interferes. */
  lemma ChangedVerdict(statuses: seq<string>, rules: HostRules, report: Report)
    requires report.status in statuses
    requires report.status == "changed"
    ensures Decide(statuses, rules, report)
         == Some(Verdict(":congratulations: Puppet status: *changed*", "good", Patterns(rules.changedHosts)))
  {
    assert ":congratulations: " + StatusLine("changed") == ":congratulations: Puppet status: *changed*";
  }

  /** A configured `failed` run gets the `:warning: ` headline, colour
      `warning` and the `failed_hosts` patterns, whatever the pending
      override's conditions. */
  lemma FailedVerdict(statuses: seq<string>, rules: HostRules, report: Report)
    requires report.status in statuses
    requires report.status == "failed"
    ensures Decide(statuses, rules, report)
         == Some(Verdict(":warning: Puppet status: *failed*", "warning", Patterns(rules.failedHosts)))
  {
    assert ":warning: " + StatusLine("failed") == ":warning: Puppet status: *failed*";
  }

  /** Without the override, a configured `unchanged` run gets the `:zzz: `
      headline, colour `#cccccc` and the `unchanged_hosts` patterns. */
  lemma UnchangedVerdict(statuses: seq<string>, rules: HostRules, report: Report)
    requires !PendingOverride(statuses, report) && report.status in statuses
    requires report.status == "unchanged"
    ensures Decide(statuses, rules, report)
         == Some(Verdict(":zzz: Puppet status: *unchanged*", "#cccccc", Patterns(rules.unchangedHosts)))
  {
    assert ":zzz: " + StatusLine("unchanged") == ":zzz: Puppet status: *unchanged*";
  }

  /** A run with one of the three known statuses is posted exactly when one
      of that status's host patterns matches its host, so an empty list never
      posts. */
  lemma KnownStatusGate(statuses: seq<string>, rules: HostRules, report: Report, matches: Matcher)
    requires !PendingOverride(statuses, report) && report.status in statuses
    requires report.status in ["changed", "failed", "unchanged"]
    ensures var ps := KnownStatusHosts(rules, report.status);
            ShouldPost(statuses, rules, report, matches) <==> exists i :: 0 <= i < |ps| && matches(ps[i], report.host)
    ensures KnownStatusHosts(rules, report.status) == [] ==> !ShouldPost(statuses, rules, report, matches)
  {
  }

  /** Any other configured status gets the question-mark headline and the
      warning colour, and is posted whatever the host. */
  lemma OtherStatusAlwaysPosts(statuses: seq<string>, rules: HostRules, report: Report, matches: Matcher)
    requires !PendingOverride(statuses, report) && report.status in statuses
    requires report.status !in ["changed", "failed", "unchanged"]
    ensures Decide(statuses, rules, report)
         == Some(Verdict(":grey_question: Puppet status: *" + report.status + "*", "warning", AnyHost))
    ensures ShouldPost(statuses, rules, report, matches)
  {
    assert ":grey_question: " + StatusLine(report.status) == ":grey_question: Puppet status: *" + report.status + "*";
  }

  /** That fallback is the only outcome without host filtering. */
  lemma OnlyFallbackIgnoresHost(statuses: seq<string>, rules: HostRules, report: Report)
    ensures (Decide(statuses, rules, report).Some? && Decide(statuses, rules, report).value.gate == AnyHost)
        <==> (!PendingOverride(statuses, report) && report.status in statuses
              && report.status !in ["changed", "failed", "unchanged"])
  {
  }
}
