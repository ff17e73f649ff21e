/** The JSON document posted to the Slack webhook: the base payload built by
    `make_payload`, and the per-channel copy with its `channel` key. */
module Payloads {
  import opened Wrappers
  import opened Text
  import opened Configuration

  /** The JSON values a payload is built from. */
  datatype Json = JNull | JStr(str: string) | JArr(items: seq<Json>) | JObj(fields: map<string, Json>)

  /** A Ruby hash with string keys, serialised as a JSON object. */
  type Payload = map<string, Json>

  const DefaultUsername: string := "puppet"
  const DefaultIconUrl: string :=
    "https://cloud.githubusercontent.com/assets/91011/6860448/96c424a0-d46b-11e4-9131-31a711893171.png"

  /** The colour of an attachment: `nil` serialises as JSON `null`. */
  function ColorValue(color: Option<string>): Json
  {
    match color
    case None => JNull
    case Some(c) => JStr(c)
  }

  /** `make_payload`: bot name and icon (configured or default) and one
      attachment with the headline as pretext, the message as text, Markdown
      enabled in both (the symbols `:text` and `:pretext` serialise as
      strings), and the colour. */
  function MakePayload(c: Config, pretext: string, text: string, color: Option<string>): (p: Payload)
    ensures p.Keys == {"username", "icon_url", "attachments"}
    ensures p["username"] == JStr(if c.username.Some? then c.username.value else "puppet")
    ensures p["icon_url"] == JStr(if c.iconUrl.Some? then c.iconUrl.value
                                  else "https://cloud.githubusercontent.com/assets/91011/6860448/96c424a0-d46b-11e4-9131-31a711893171.png")
    ensures ReadAttachment(p) == Some((pretext, text, color))
    ensures p["attachments"].JArr? && |p["attachments"].items| == 1 && p["attachments"].items[0].JObj?
    ensures p["attachments"].items[0].fields.Keys == {"pretext", "text", "mrkdwn_in", "color"}
    ensures "mrkdwn_in" in p["attachments"].items[0].fields && p["attachments"].items[0].fields["mrkdwn_in"] == JArr([JStr("text"), JStr("pretext")])
  {
    map[
      "username" := JStr(c.username.GetOr(DefaultUsername)),
      "icon_url" := JStr(c.iconUrl.GetOr(DefaultIconUrl)),
      "attachments" := JArr([JObj(map[
        "pretext" := JStr(pretext),
        "text" := JStr(text),
        "mrkdwn_in" := JArr([JStr("text"), JStr("pretext")]),
        "color" := ColorValue(color)])])]
  }

  /** `payload.merge("channel" => channel)`: a new hash with the `channel`
      key set and every other key as in `base`. */
  function WithChannel(base: Payload, channel: string): (p: Payload)
    ensures p.Keys == base.Keys + {"channel"}
    ensures p["channel"] == JStr(channel)
    ensures forall k :: k in base && k != "channel" ==> p[k] == base[k]
  {
    base["channel" := JStr(channel)]
  }

  /** What a receiver reads back from a payload: the pretext, text and colour
      of its single attachment, when it has exactly one. */
  function ReadAttachment(p: Payload): Option<(string, string, Option<string>)>
  {
    if "attachments" !in p || !p["attachments"].JArr? || |p["attachments"].items| != 1 then None
    else
      var a := p["attachments"].items[0];
      if !a.JObj? || "pretext" !in a.fields || "text" !in a.fields || "color" !in a.fields then None
      else
        var pretext, text, color := a.fields["pretext"], a.fields["text"], a.fields["color"];
        if !pretext.JStr? || !text.JStr? then None
        else if color.JNull? then Some((pretext.str, text.str, None))
        else if color.JStr? then Some((pretext.str, text.str, Some(color.str)))
        else None
  }

  /** Every posted payload carries the bot name (default `puppet`), the icon
      (default the fixed image URL), the channel and one attachment from
      which the headline, message and colour read back unchanged, with
      Markdown enabled for text and pretext. */
  lemma PostedPayload(c: Config, pretext: string, text: string, color: Option<string>, channel: string)
    ensures var p := WithChannel(MakePayload(c, pretext, text, color), channel);
      && p.Keys == {"username", "icon_url", "attachments", "channel"}
      && p["username"] == JStr(if c.username.Some? then c.username.value else "puppet")
      && p["icon_url"] == JStr(if c.iconUrl.Some? then c.iconUrl.value
                               else "https://cloud.githubusercontent.com/assets/91011/6860448/96c424a0-d46b-11e4-9131-31a711893171.png")
      && p["channel"] == JStr(channel)
      && ReadAttachment(p) == Some((pretext, text, color))
      && p["attachments"].JArr? && |p["attachments"].items| == 1
      && p["attachments"].items[0].JObj?
      && p["attachments"].items[0].fields.Keys == {"pretext", "text", "mrkdwn_in", "color"}
      && p["attachments"].items[0].fields["mrkdwn_in"] == JArr([JStr("text"), JStr("pretext")])
  {
    var base := MakePayload(c, pretext, text, color);
    var p := WithChannel(base, channel);
    assert p["attachments"] == base["attachments"];
  }

  /** The channel after `gsub!(/^\\/, '')`: `^` anchors at the start of every
      line, so a backslash is dropped where it opens a line of the original
      string. `atLineStart` says whether `s` begins a line. */
  function StripFrom(s: string, atLineStart: bool): string
  {
    if s == [] then []
    else if atLineStart && s[0] == '\\' then StripFrom(s[1..], false)
    else [s[0]] + StripFrom(s[1..], s[0] == '\n')
  }

  /** The channel as posted: a one-line name loses a single leading
      backslash (`\#ops` is posted as `#ops`) and is otherwise kept; in
      general the name keeps its lines and each line loses one leading
      backslash. */
  function ChannelName(channel: string): (r: string)
    ensures '\n' !in channel ==> r == if channel != [] && channel[0] == '\\' then channel[1..] else channel
    ensures |Fields(r, '\n')| == |Fields(channel, '\n')|
    ensures forall i :: 0 <= i < |Fields(channel, '\n')| ==>
              Fields(r, '\n')[i] == DropLeadingBackslash(Fields(channel, '\n')[i])
  {
    StripFromByLines(channel);
    if '\n' in channel then StripFrom(channel, true)
    else (StripWithinLine(channel); StripFrom(channel, true))
  }

  /** One line without its leading backslash, if it has one. */
  function DropLeadingBackslash(line: string): string
  {
    if line != [] && line[0] == '\\' then line[1..] else line
  }

  lemma {:induction false} StripWithinLine(a: string)
    requires '\n' !in a
    ensures StripFrom(a, false) == a
    ensures StripFrom(a, true) == DropLeadingBackslash(a)
  {
    if a != [] {
      StripWithinLine(a[1..]);
      assert [a[0]] + a[1..] == a;
    }
  }

  lemma {:induction false} StripAcrossNewline(a: string, b: string, atLineStart: bool)
    requires '\n' !in a
    ensures StripFrom(a + ['\n'] + b, atLineStart) == StripFrom(a, atLineStart) + ['\n'] + StripFrom(b, true)
  {
    var s := a + ['\n'] + b;
    if a == [] {
      assert s[1..] == b;
    } else {
      assert s[1..] == a[1..] + ['\n'] + b;
      StripAcrossNewline(a[1..], b, false);
    }
  }

  /** Stripping from a line start keeps the lines, and each line loses one
      leading backslash. */
  lemma {:induction false} StripFromByLines(channel: string)
    ensures |Fields(StripFrom(channel, true), '\n')| == |Fields(channel, '\n')|
    ensures forall i :: 0 <= i < |Fields(channel, '\n')| ==>
              Fields(StripFrom(channel, true), '\n')[i] == DropLeadingBackslash(Fields(channel, '\n')[i])
    decreases |channel|
  {
    var fs := Fields(channel, '\n');
    JoinFields(channel, '\n');
    if |fs| == 1 {
      StripWithinLine(channel);
      var r := StripFrom(channel, true);
      assert '\n' !in r;
      FieldsNoSep(r, '\n');
    } else {
      var a, b := fs[0], Join(fs[1..], '\n');
      assert channel == a + ['\n'] + b;
      FieldsJoin(fs[1..], '\n');
      assert Fields(b, '\n') == fs[1..];
      StripFromByLines(b);
      StripAcrossNewline(a, b, true);
      StripWithinLine(a);
      var da := DropLeadingBackslash(a);
      assert '\n' !in da;
      FieldsAfterFirst(da, StripFrom(b, true), '\n');
      assert Fields(StripFrom(channel, true), '\n') == [da] + Fields(StripFrom(b, true), '\n');
    }
  }
}
