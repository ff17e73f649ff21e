/** The message text of a notification: a code-fenced block naming the
    Puppet master, the provisioned host, the run environment and, when there
    is one, the report link. */
module Message {
  import opened Text

  const Fence: string := "```"
  const MasterLabel: string := "Puppet Master Host = "
  const HostLabel: string := "Provisioned Host   = "
  const EnvironmentLabel: string := "Run Environment    = "
  const LinkLabel: string := "Report Link        = "

  /** The lines of the message heredoc, before stripping. */
  function MessageLines(master: string, host: string, environment: string, link: string): seq<string>
  {
    [Fence, MasterLabel + master, HostLabel + host, EnvironmentLabel + environment]
    + (if link == [] then [] else [LinkLabel + link])
    + [Fence]
  }

  /** The heredoc (every line ended by a line feed) with surrounding
      whitespace stripped. The fences protect the filled-in values, so only
      the final line feed goes: the message is the heredoc's lines joined by
      line feeds, whatever the values are. */
  function Body(master: string, host: string, environment: string, link: string): (r: string)
    ensures r == Join(MessageLines(master, host, environment, link), '\n')
  {
    HeredocStrip(master, host, environment, link);
    Strip(Join(MessageLines(master, host, environment, link), '\n') + "\n")
  }

  /** Stripping the heredoc removes only its final line feed, because its
      first and last lines are fences. */
  lemma HeredocStrip(master: string, host: string, environment: string, link: string)
    ensures Strip(Join(MessageLines(master, host, environment, link), '\n') + "\n")
         == Join(MessageLines(master, host, environment, link), '\n')
  {
    var lines := MessageLines(master, host, environment, link);
    var text := Join(lines, '\n');
    JoinEnds(lines, '\n');
    assert text[..3] == Fence;
    assert text[|text| - 3..] == Fence;
    assert text[0] == '`' && text[|text| - 1] == '`';
    StripFinalNewline(text);
  }

  /** The fences and labels are single lines. */
  lemma LabelsAreLines()
    ensures '\n' !in Fence && '\n' !in MasterLabel && '\n' !in HostLabel
    ensures '\n' !in EnvironmentLabel && '\n' !in LinkLabel
  {
  }

  /** When the values hold no line feeds, the body's lines are the heredoc's
      lines. */
  lemma {:induction false} BodySplitsIntoLines(master: string, host: string, environment: string, link: string)
    requires '\n' !in master && '\n' !in host && '\n' !in environment && '\n' !in link
    ensures Fields(Body(master, host, environment, link), '\n') == MessageLines(master, host, environment, link)
  {
    var lines := MessageLines(master, host, environment, link);
    LabelsAreLines();
    forall i | 0 <= i < |lines| ensures '\n' !in lines[i] {
    }
    FieldsJoin(lines, '\n');
  }

  /** When the values hold no line feeds, the body's lines are the opening
      fence, the master, host and environment lines in that order, the report
      link line exactly when the link is non-empty, and the closing fence. */
  lemma BodyLines(master: string, host: string, environment: string, link: string)
    requires '\n' !in master && '\n' !in host && '\n' !in environment && '\n' !in link
    ensures link == [] ==>
              Fields(Body(master, host, environment, link), '\n')
              == ["```", "Puppet Master Host = " + master, "Provisioned Host   = " + host,
                  "Run Environment    = " + environment, "```"]
    ensures link != [] ==>
              Fields(Body(master, host, environment, link), '\n')
              == ["```", "Puppet Master Host = " + master, "Provisioned Host   = " + host,
                  "Run Environment    = " + environment, "Report Link        = " + link, "```"]
  {
    BodySplitsIntoLines(master, host, environment, link);
    HeredocLines(master, host, environment, link);
  }

  /** The heredoc's lines spelled out. */
  lemma HeredocLines(master: string, host: string, environment: string, link: string)
    ensures link == [] ==>
              MessageLines(master, host, environment, link)
              == ["```", "Puppet Master Host = " + master, "Provisioned Host   = " + host,
                  "Run Environment    = " + environment, "```"]
    ensures link != [] ==>
              MessageLines(master, host, environment, link)
              == ["```", "Puppet Master Host = " + master, "Provisioned Host   = " + host,
                  "Run Environment    = " + environment, "Report Link        = " + link, "```"]
  {
  }
}
