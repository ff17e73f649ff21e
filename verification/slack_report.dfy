/** The report processor's `process`: resolve the configuration, render the
    message, decide whether to notify, and post one payload per configured
    channel. The HTTPS posts are recorded as a sequence of requests. */
module SlackReport {
  import opened Wrappers
  import opened Text
  import opened Decision
  import opened Configuration
  import opened Message
  import opened Payloads

  /** The exceptions `process` can end with: no readable `slack.yaml`
      (`Puppet::ParseError`), no `channels` key when there is something to
      post (`nil.each`), no `webhook` key when there is a channel to post to
      (`URI.parse(nil)`). */
  datatype Error = ConfigNotReadable | ChannelsMissing | WebhookMissing

  /** One call of `post_to_webhook`: where to, through which proxy, what. */
  datatype Request = Request(webhook: string, proxy: Option<string>, payload: Payload)

  /** The decision for a run under a configuration. */
  function VerdictFor(c: Config, report: Report): Option<Verdict>
  {
    Decide(Resolve(c).statuses, Resolve(c).rules, report)
  }

  /** Whether a run is posted under a configuration. */
  predicate Posts(c: Config, report: Report, matches: Matcher)
  {
    ShouldPost(Resolve(c).statuses, Resolve(c).rules, report, matches)
  }

  /** The message for a run: `report_url` with its first `%h` replaced by the
      report host becomes the report link, and without `report_url` the
      message has no link line. */
  function MessageFor(c: Config, report: Report, hostname: string): (m: string)
    ensures c.reportUrl.None? ==> m == Join(MessageLines(hostname, report.host, report.environment, []), '\n')
    ensures c.reportUrl.Some? ==>
              m == Join(MessageLines(hostname, report.host, report.environment,
                                     ReplaceFirst(c.reportUrl.value, "%h", report.host)), '\n')
  {
    Body(hostname, report.host, report.environment, ReplaceFirst(Resolve(c).reportUrl, "%h", report.host))
  }

  /** The request for one configured channel. */
  function ChannelRequest(base: Payload, channel: string, webhook: string, proxy: Option<string>): Request
  {
    Request(webhook, proxy, WithChannel(base, ChannelName(channel)))
  }

  /** What the channel loop leaves behind: with a webhook, one request per
      channel in configuration order and no error; without one, nothing
      posted and an error as soon as there is a channel. */
  predicate FannedOut(base: Payload, channels: seq<string>, webhook: Option<string>, proxy: Option<string>,
                      sent: seq<Request>, error: Option<Error>)
  {
    match webhook
    case None =>
      sent == [] && error == (if channels == [] then None else Some(WebhookMissing))
    case Some(url) =>
      && error == None
      && |sent| == |channels|
      && forall i :: 0 <= i < |channels| ==> sent[i] == ChannelRequest(base, channels[i], url, proxy)
  }

  /** The `channels.each` loop: strip the channel's leading backslash, merge
      it into the payload and post. */
  method FanOut(base: Payload, channels: seq<string>, webhook: Option<string>, proxy: Option<string>)
    returns (sent: seq<Request>, error: Option<Error>)
    ensures FannedOut(base, channels, webhook, proxy, sent, error)
  {
    sent, error := [], None;
    for i := 0 to |channels|
      invariant i > 0 ==> webhook.Some?
      invariant error == None && |sent| == i
      invariant forall k :: 0 <= k < i ==> sent[k] == ChannelRequest(base, channels[k], webhook.value, proxy)
    {
      var channel := ChannelName(channels[i]);
      var payload := WithChannel(base, channel);
      if webhook.None? {
        error := Some(WebhookMissing);
        return;
      }
      sent := sent + [Request(webhook.value, proxy, payload)];
    }
  }

  /** `process`, given the parsed configuration (`None` when `slack.yaml` is
      not readable), the finished run, the master's host name and the regex
      search. */
  method Process(config: Option<Config>, report: Report, hostname: string, matches: Matcher)
    returns (sent: seq<Request>, error: Option<Error>)
    ensures config.None? ==> sent == [] && error == Some(ConfigNotReadable)
    ensures config.Some? && !Posts(config.value, report, matches) ==> sent == [] && error == None
    ensures config.Some? && Posts(config.value, report, matches) ==>
      var c := config.value;
      var v := VerdictFor(c, report).value;
      var base := MakePayload(c, v.headline, MessageFor(c, report, hostname), Some(v.color));
      if c.channels.None? then sent == [] && error == Some(ChannelsMissing)
      else FannedOut(base, c.channels.value, c.webhook, c.httpProxy, sent, error)
  {
    if config.None? {
      return [], Some(ConfigNotReadable);
    }
    var c := config.value;
    var settings := Resolve(c);
    var statuses, reportUrl, rules := settings.statuses, settings.reportUrl, settings.rules;
    reportUrl := ReplaceFirst(reportUrl, "%h", report.host);

    var pretxt := StatusLine(report.status);
    var message := Body(hostname, report.host, report.environment, reportUrl);
    var color: Option<string> := None;
    var postReport := false;

    ghost var verdict := VerdictFor(c, report);
    if "pending" in statuses && report.status == "unchanged" && report.noopPending {
      pretxt := PendingHeadline;
      color := Some(PendingColor);
      postReport := AnyMatch(matches, rules.pendingHosts, report.host);
      assert verdict == Some(Verdict(pretxt, color.value, Patterns(rules.pendingHosts)));
    } else if report.status in statuses {
      if report.status == "changed" {
        pretxt := ":congratulations: " + pretxt;
        color := Some("good");
        postReport := AnyMatch(matches, rules.changedHosts, report.host);
        assert verdict == Some(Verdict(pretxt, color.value, Patterns(rules.changedHosts)));
      } else if report.status == "failed" {
        pretxt := ":warning: " + pretxt;
        color := Some("warning");
        postReport := AnyMatch(matches, rules.failedHosts, report.host);
        assert verdict == Some(Verdict(pretxt, color.value, Patterns(rules.failedHosts)));
      } else if report.status == "unchanged" {
        pretxt := ":zzz: " + pretxt;
        color := Some("#cccccc");
        postReport := AnyMatch(matches, rules.unchangedHosts, report.host);
        assert verdict == Some(Verdict(pretxt, color.value, Patterns(rules.unchangedHosts)));
      } else {
        pretxt := ":grey_question: " + pretxt;
        color := Some("warning");
        postReport := true;
        assert verdict == Some(Verdict(pretxt, color.value, AnyHost));
      }
    } else {
      assert verdict == None;
    }

    assert postReport == Posts(c, report, matches);
    sent, error := [], None;
    if postReport {
      assert pretxt == VerdictFor(c, report).value.headline && color == Some(VerdictFor(c, report).value.color);
      var payload := MakePayload(c, pretxt, message, color);
      if c.channels.None? {
        return [], Some(ChannelsMissing);
      }
      sent, error := FanOut(payload, c.channels.value, c.webhook, c.httpProxy);
    }
  }
}
