# Slack report processor for Puppet — a Dafny model

The repository is a Puppet report processor (`lib/puppet/reports/slack.rb`).
After every Puppet run it reads `slack.yaml`, fills in defaults for absent
keys, renders a code-fenced message naming the Puppet master, the
provisioned host, the run environment and an optional report link, and
decides whether the run is worth a Slack notification. If it is, it builds
a JSON payload and posts one copy per configured channel to the webhook.

The decision works first-match-wins. The "pending changes" override comes
first: `pending` is a configured status, the run is `unchanged` and it has
pending no-op changes. Otherwise the run status is looked up in the
configured statuses. The chosen branch fixes the headline, the attachment
colour and the host patterns that the report host must match. The one
exception is an unrecognised configured status, which posts for every host.

The model has one module per part of `process`:

- `Text` (`text.dfy`): the Ruby string operations the code relies on.
  These are `split` with its dropping of trailing empty fields,
  `include?`/`[]=` on the first occurrence of a substring, and `strip`.
- `Decision` (`decision.dfy`): the report fields, the per-status host
  patterns, the decision as the pure function `Decide`, and the host gate.
  `Regexp.union` is modelled as `AnyMatch`: a host matches the union when
  it matches one of the listed patterns.
- `Configuration` (`configuration.dfy`): the parsed `slack.yaml` as a
  record of optional keys, and `Resolve`, which applies the defaults.
- `Message` (`message.dfy`): the heredoc message and its stripping.
- `Payloads` (`payload.dfy`): `make_payload`, the `channel` merge, the JSON
  values, and the channel name after `gsub!(/^\\/, '')`.
- `SlackReport` (`slack_report.dfy`): `process` as an imperative method.
  It reassigns `pretxt`, `color` and `post_report` the way the code does.
  The `channels.each` loop is the method `FanOut`, which appends one
  `Request` per channel in place of the HTTPS post.

Inputs that come from outside the core are parameters of `Process`:

- the parsed configuration (`None` when `slack.yaml` is not readable);
- the report;
- the master's host name, the output of the `hostname` shell call after
  `chomp`;
- the regular-expression search, a function `matches(pattern, host)`.

Where the code's behaviour differs from a plain reading of the plugin's
purpose, the model follows the code:

- A post that raises ends the whole `process`, because there is no
  `rescue`. Delivery is therefore not isolated per channel. A non-2xx
  response is only logged. Neither is part of this model (see below).
- `gsub!(/^\\/, '')` strips a backslash at the start of every line of the
  channel name, not only at the start of the string, because Ruby's `^`
  anchors at line starts (`Payloads.ChannelName`).
- `statuses` is split on `,` with nothing trimmed. For example,
  `"changed, failed"` configures `changed` and ` failed`, so `failed` runs
  are not reported. Trailing empty fields are dropped, as Ruby's `split`
  does.
- A missing `channels` key fails only when there is something to post. A
  missing `webhook` key fails only when there is also at least one channel.
- `color` starts out `nil`. `Process` proves that a payload is only ever
  built after a colour has been chosen.

## Model

| member | source | states |
|---|---|---|
| `Text.Fields` | lib/puppet/reports/slack.rb:15 | splitting on a separator gives at least one field, and no field contains the separator |
| `Text.DropTrailingEmpty` | lib/puppet/reports/slack.rb:15 | Ruby's split keeps the longest prefix of the fields that does not end in an empty field; every dropped field is empty |
| `Text.JoinFields` | lib/puppet/reports/slack.rb:15 | joining the fields with the separator gives back the original string |
| `Text.FieldsJoin` | lib/puppet/reports/slack.rb:15 | splitting a join of separator-free pieces gives back the pieces |
| `Text.RubySplit` | lib/puppet/reports/slack.rb:15 | the split is the fields with the empty fields at the end removed (only empty fields go, and the last one kept is non-empty); a non-empty name is in the result exactly when it is one of the fields |
| `Configuration.DefaultStatusList` | lib/puppet/reports/slack.rb:14-15 | the default statuses string splits into exactly `["changed", "failed"]` |
| `Configuration.Resolve` | lib/puppet/reports/slack.rb:14-20 | absent `statuses` gives `["changed", "failed"]`, and a configured one counts a non-empty status exactly when it is one of its untrimmed comma-separated fields; absent `report_url` gives `""`; each absent host list gives `[".*"]`; configured values are kept |
| `Configuration.DefaultHostsAdmitAll` | lib/puppet/reports/slack.rb:17-20 | when `.*` matches every host, a defaulted host list lets every host through |
| `Configuration.ConfiguredStatuses` | lib/puppet/reports/slack.rb:15 | a configured status counts exactly when it is one of the untrimmed comma-separated pieces, and the pieces rejoin to the configured string |
| `Text.IndexFrom` | lib/puppet/reports/slack.rb:28 | the result is the first index at or after the start where the substring occurs; `None` means it does not occur there |
| `Text.ReplaceFirst` | lib/puppet/reports/slack.rb:28-30 | without `%h` the URL is unchanged; otherwise the first `%h` is replaced by the host and the text before and after it is kept |
| `Text.StripLeading` | lib/puppet/reports/slack.rb:53 | the result is a suffix, it does not start with whitespace, and only whitespace was removed |
| `Text.StripTrailing` | lib/puppet/reports/slack.rb:53 | the result is a prefix, it does not end with whitespace, and only whitespace was removed |
| `Text.Strip` | lib/puppet/reports/slack.rb:53 | the result sits in the string with only whitespace before and after it, and neither starts nor ends with whitespace |
| `Text.StripFinalNewline` | lib/puppet/reports/slack.rb:53 | stripping text that starts and ends with non-space characters and is followed by a line feed removes only that line feed |
| `Message.Body` | lib/puppet/reports/slack.rb:35-53 | whatever the values, the stripped message is the heredoc's lines (fence, master, host, environment, the link line when there is a link, fence) joined by line feeds: the fences shield the values, so `strip!` removes only the final line feed |
| `Message.HeredocStrip` | lib/puppet/reports/slack.rb:35-53 | stripping the heredoc with its final line feed gives back the heredoc's lines joined by line feeds |
| `Message.BodySplitsIntoLines` | lib/puppet/reports/slack.rb:35-53 | with values free of line feeds, the body's lines are exactly the heredoc's lines |
| `Message.BodyLines` | lib/puppet/reports/slack.rb:35-53 | with values free of line feeds, the body is a fence, then the master, host and environment lines in that order, then the `Report Link` line exactly when the link is non-empty, then the closing fence |
| `Decision.Decide` | lib/puppet/reports/slack.rb:54-86 | no verdict exactly when the pending override does not apply and the status is not configured |
| `Decision.AnyMatch` | lib/puppet/reports/slack.rb:61-62 | the union of the patterns matches a host exactly when some pattern in the list matches it, so an empty list matches nothing |
| `Decision.ShouldPost` | lib/puppet/reports/slack.rb:54-88 | the run is posted exactly when there is a verdict and either it ignores the host or one of its patterns matches the host |
| `Decision.PendingOverridePrecedence` | lib/puppet/reports/slack.rb:58-62 | under the override the headline is `:exclamation: Puppet status: *pending changes*` and the colour `#80699B`, whether or not `unchanged` is configured; the run posts exactly when a `pending_hosts` pattern matches |
| `Decision.UnlistedStatusSuppressed` | lib/puppet/reports/slack.rb:55-64 | without the override, an unconfigured status yields no verdict and no post |
| `Decision.ChangedVerdict` | lib/puppet/reports/slack.rb:66-70 | a configured `changed` run (which the pending override never applies to) gets the headline `:congratulations: Puppet status: *changed*`, colour `good` and the `changed_hosts` list |
| `Decision.FailedVerdict` | lib/puppet/reports/slack.rb:71-75 | a configured `failed` run (which the pending override never applies to) gets the headline `:warning: Puppet status: *failed*`, colour `warning` and the `failed_hosts` list |
| `Decision.UnchangedVerdict` | lib/puppet/reports/slack.rb:76-80 | without the override, a configured `unchanged` run gets the headline `:zzz: Puppet status: *unchanged*`, colour `#cccccc` and the `unchanged_hosts` list |
| `Decision.KnownStatusGate` | lib/puppet/reports/slack.rb:64-80 | a known status posts exactly when a pattern of its host list matches the host; an empty list never posts |
| `Decision.OtherStatusAlwaysPosts` | lib/puppet/reports/slack.rb:81-84 | any other configured status gets the `:grey_question: ` headline and colour `warning`, and posts for every host |
| `Decision.OnlyFallbackIgnoresHost` | lib/puppet/reports/slack.rb:64-85 | the verdict skips host filtering exactly in that fallback branch |
| `Payloads.MakePayload` | lib/puppet/reports/slack.rb:101-111 | the payload has exactly the keys `username` (default `puppet`), `icon_url` (default the fixed image URL) and `attachments`; its one attachment has exactly the keys `pretext`, `text`, `mrkdwn_in` and `color`, and reads back as the given headline, message and colour, with `mrkdwn_in` = `["text", "pretext"]` |
| `Payloads.WithChannel` | lib/puppet/reports/slack.rb:93 | the merge adds the `channel` key and keeps every other key of the base payload |
| `Payloads.PostedPayload` | lib/puppet/reports/slack.rb:101-111 | a posted payload has exactly the keys `username` (default `puppet`), `icon_url` (default the fixed image URL), `attachments` and `channel`; its one attachment has exactly the keys `pretext`, `text`, `mrkdwn_in` and `color`, and reads back as the headline, message and colour, with `mrkdwn_in` = `["text", "pretext"]` |
| `Payloads.ChannelName` | lib/puppet/reports/slack.rb:92 | a one-line channel loses a single leading backslash (`\#ops` becomes `#ops`) and is otherwise unchanged; any channel keeps its number of lines, and each line loses one leading backslash |
| `Payloads.StripFromByLines` | lib/puppet/reports/slack.rb:92 | removing backslashes at line starts keeps the lines of the string, and each line loses one leading backslash |
| `SlackReport.MessageFor` | lib/puppet/reports/slack.rb:28-53 | without `report_url` the message has no link line; with one, the link is the URL with its first `%h` replaced by the report host |
| `SlackReport.FanOut` | lib/puppet/reports/slack.rb:91-96 | with a webhook, exactly one request per channel in configuration order, each the base payload plus the stripped channel; without a webhook, nothing is posted and it fails when there is a channel |
| `SlackReport.Process` | lib/puppet/reports/slack.rb:7-98 | an unreadable config fails before anything is posted, and a run that should not be posted sends nothing; otherwise the posts carry the decided headline, the rendered message and a non-nil colour, sent through the channel loop, or the run fails when `channels` is absent |

## Left out

- Locating and reading `slack.yaml` and parsing YAML (lines 8-12). The configuration arrives parsed, with typed optional keys, or as `None` when the file is not readable. YAML values of other types, and `false` (which Ruby's `||` treats like an absent key), are not modelled.
- The `hostname` shell call (line 33). The master's host name is an input, taken to be already `chomp`ed.
- Compiling the host patterns with `Regexp.new` (lines 23-26), including the `RegexpError` an invalid pattern raises after the configuration is read and defaulted, before the message is rendered or anything is posted.
- The regex engine. Matching is the parameter `matches`, and that `.*` matches every host is a hypothesis (`Configuration.MatchesEverything`).
- `Decision.AnyMatch`: treats the patterns of `Regexp.union` as independent alternatives. The renumbering of numbered backreferences across the joined patterns is not modelled.
- `post_to_webhook` (lines 114-131) is not part of this model. That covers parsing the webhook URI (a malformed URI raises), Net::HTTP, TLS, the proxy, JSON serialisation and the response check with its error log. Every request is recorded as posted. A transport exception, which would end the loop and skip the remaining channels, is not modelled.
- Logging through `Puppet.notice` and `Puppet.err` (lines 95, 129).
- In-place updates are modelled on values: `||=` on `statuses`, `map!` on the host lists, `gsub!` on the channel strings and `report_url[]=` all change the configuration's own objects (when `report_url` is configured, line 16 binds the configuration's string, so line 29 changes it), and `strip!` changes the local message. The configuration is discarded after the run, so for a configuration whose keys and channel entries are distinct objects no observable behaviour depends on the aliasing.
- YAML anchors and aliases that share one object between keys or channel entries. The in-place `gsub!` and `[]=` would then change that object twice, or change it under another key (for example a `username` aliased to `report_url`). Loaders that refuse aliases are not modelled either.
