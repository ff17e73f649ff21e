/** The processor's configuration (`slack.yaml`) once parsed, and the
    defaults `process` fills in for the keys that are absent. */
module Configuration {
  import opened Wrappers
  import opened Text
  import opened Decision

  /** The recognised keys of `slack.yaml`; every one of them may be absent. */
  datatype Config = Config(
    statuses: Option<string>,
    reportUrl: Option<string>,
    failedHosts: Option<seq<string>>,
    pendingHosts: Option<seq<string>>,
    changedHosts: Option<seq<string>>,
    unchangedHosts: Option<seq<string>>,
    channels: Option<seq<string>>,
    webhook: Option<string>,
    httpProxy: Option<string>,
    username: Option<string>,
    iconUrl: Option<string>)

  const DefaultStatuses: string := "changed,failed"

  /** The pattern that stands in for an absent host list. */
  const AnyHostPattern: string := ".*"

  /** The values `process` decides with once the defaults are in place. */
  datatype Settings = Settings(statuses: seq<string>, reportUrl: string, rules: HostRules)

  /** The defaults for absent keys: statuses `changed` and `failed`, no
      report link, and the single pattern `.*` as host list. A configured
      `statuses` string is split on commas with nothing trimmed. */
  function Resolve(c: Config): (r: Settings)
    ensures c.statuses.None? ==> r.statuses == ["changed", "failed"]
    ensures c.statuses.Some? ==>
              forall x :: x != [] ==> (x in r.statuses <==> x in Fields(c.statuses.value, ','))
    ensures r.reportUrl == if c.reportUrl.Some? then c.reportUrl.value else ""
    ensures r.rules.failedHosts == if c.failedHosts.Some? then c.failedHosts.value else [".*"]
    ensures r.rules.pendingHosts == if c.pendingHosts.Some? then c.pendingHosts.value else [".*"]
    ensures r.rules.changedHosts == if c.changedHosts.Some? then c.changedHosts.value else [".*"]
    ensures r.rules.unchangedHosts == if c.unchangedHosts.Some? then c.unchangedHosts.value else [".*"]
  {
    DefaultStatusList();
    Settings(
      RubySplit(c.statuses.GetOr(DefaultStatuses), ','),
      c.reportUrl.GetOr(""),
      HostRules(
        c.failedHosts.GetOr([AnyHostPattern]),
        c.pendingHosts.GetOr([AnyHostPattern]),
        c.changedHosts.GetOr([AnyHostPattern]),
        c.unchangedHosts.GetOr([AnyHostPattern])))
  }

  /** The regex engine matches `pattern` against every host name, as it
      does for `.*`. */
  ghost predicate MatchesEverything(matches: Matcher, pattern: string)
  {
    forall host :: matches(pattern, host)
  }

  /** Two non-empty names joined by one comma split back into the two. */
  lemma {:induction false} SplitTwo(a: string, b: string)
    requires ',' !in a && ',' !in b && b != []
    ensures RubySplit(a + [','] + b, ',') == [a, b]
  {
    FieldsAfterFirst(a, b, ',');
    FieldsNoSep(b, ',');
  }

  /** Ruby splits the default statuses string into `changed` and `failed`. */
  lemma DefaultStatusList()
    ensures RubySplit(DefaultStatuses, ',') == ["changed", "failed"]
  {
    assert DefaultStatuses == "changed" + [','] + "failed";
    SplitTwo("changed", "failed");
  }

  /** A default host list lets every host through. */
  lemma DefaultHostsAdmitAll(c: Config, matches: Matcher, host: string)
    requires MatchesEverything(matches, ".*")
    ensures c.failedHosts.None? ==> AnyMatch(matches, Resolve(c).rules.failedHosts, host)
    ensures c.pendingHosts.None? ==> AnyMatch(matches, Resolve(c).rules.pendingHosts, host)
    ensures c.changedHosts.None? ==> AnyMatch(matches, Resolve(c).rules.changedHosts, host)
    ensures c.unchangedHosts.None? ==> AnyMatch(matches, Resolve(c).rules.unchangedHosts, host)
  {
    assert AnyMatch(matches, [AnyHostPattern], host) by {
      assert matches(AnyHostPattern, host);
    }
  }

  /** A configured `statuses` string is split on commas with nothing trimmed:
      a status counts as configured exactly when it is one of the
      comma-separated pieces, and the pieces put back together give the
      configured string. */
  lemma ConfiguredStatuses(c: Config, status: string)
    requires c.statuses.Some? && status != []
    ensures status in Resolve(c).statuses <==> status in Fields(c.statuses.value, ',')
    ensures Join(Fields(c.statuses.value, ','), ',') == c.statuses.value
  {
    KeepsNonEmpty(Fields(c.statuses.value, ','));
    JoinFields(c.statuses.value, ',');
  }
}
