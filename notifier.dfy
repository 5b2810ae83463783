/** `sendLeadsToCliqBot` without the POST: which leads the digest selects and
    the text of the message it would send. `None` means no message is sent. */
module Notifier {
  import opened Optional
  import opened Leads
  import opened Decimal

  /** A lead is reported when its score is strictly above this. */
  const ALERT_THRESHOLD: int := 80
  const HEADER: string := "**High Priority Leads Alert**\n\n"
  const BLOCK_SEPARATOR: string := "\n\n"
  const MISSING: string := "N/A"

  /** `lead.User_score > 80`: a missing score never qualifies. */
  predicate IsHighPriority(lead: Lead)
  {
    lead.userScore.Some? && lead.userScore.value > ALERT_THRESHOLD
  }

  /** The leads the digest reports, in their original order. */
  function HighPriorityLeads(leads: seq<Lead>): (selected: seq<Lead>)
    ensures |selected| <= |leads|
    ensures forall l :: l in selected <==> l in leads && IsHighPriority(l)
  {
    if leads == [] then []
    else if IsHighPriority(leads[0]) then [leads[0]] + HighPriorityLeads(leads[1..])
    else HighPriorityLeads(leads[1..])
  }

  /** `${lead.User_score || 0}`: a missing score prints as 0. The text is a
      numeral that reads back as the score, or as 0 when there is none. */
  function ScoreText(score: Option<int>): (s: string)
    ensures |s| >= 1 && (s[0] == '-' || IsDigit(s[0])) && forall k :: 1 <= k < |s| ==> IsDigit(s[k])
    ensures SignedValue(s) == if score.Some? then score.value else 0
    ensures '\n' !in s
  {
    var v := if score.Some? then score.value else 0;
    IntRoundTrip(v);
    IntToDecimal(v)
  }

  /** The five labelled lines of one reported lead. */
  function BlockLines(lead: Lead): seq<string>
  {
    [ "**Lead Name**: " + OrElse(lead.fullName, MISSING),
      "**Priority**: High",
      "**User Score**: " + ScoreText(lead.userScore),
      "**Industry**: " + OrElse(lead.industry, MISSING),
      "**Contact**: " + OrElse(lead.email, MISSING) ]
  }

  /** The text block of one reported lead: its five lines, one under the other. */
  function RenderLead(lead: Lead): string
  {
    Join(BlockLines(lead), "\n")
  }

  /** `Array.prototype.join(sep)` on strings. */
  function Join(parts: seq<string>, sep: string): string
  {
    if parts == [] then "" else if |parts| == 1 then parts[0] else parts[0] + sep + Join(parts[1..], sep)
  }

  function RenderAll(leads: seq<Lead>): (blocks: seq<string>)
    ensures |blocks| == |leads|
    ensures forall i :: 0 <= i < |leads| ==> blocks[i] == RenderLead(leads[i])
  {
    if leads == [] then [] else [RenderLead(leads[0])] + RenderAll(leads[1..])
  }

  /** The message text, or `None` when no lead qualifies. */
  function Digest(leads: seq<Lead>): (message: Option<string>)
    ensures message.None? <==> forall l :: l in leads ==> !IsHighPriority(l)
    ensures message.Some? ==> |message.value| >= |HEADER| && message.value[..|HEADER|] == HEADER
  {
    var selected := HighPriorityLeads(leads);
    if |selected| == 0 then None
    else
      assert selected[0] in leads;
      Some(HEADER + Join(RenderAll(selected), BLOCK_SEPARATOR))
  }

  /** Filtering distributes over concatenation: with the one-lead cases this
      says the selection keeps exactly the qualifying leads, in order. */
  lemma {:induction false} HighPriorityAppend(a: seq<Lead>, b: seq<Lead>)
    ensures HighPriorityLeads(a + b) == HighPriorityLeads(a) + HighPriorityLeads(b)
  {
    if a == [] {
      assert a + b == b;
    } else {
      assert (a + b)[1..] == a[1..] + b;
      HighPriorityAppend(a[1..], b);
    }
  }

  /** Joining distributes over concatenation of non-empty lists of blocks. */
  lemma {:induction false} JoinAppend(a: seq<string>, b: seq<string>, sep: string)
    requires a != [] && b != []
    ensures Join(a + b, sep) == Join(a, sep) + sep + Join(b, sep)
  {
    if |a| == 1 {
      assert (a + b)[1..] == b;
    } else {
      assert (a + b)[1..] == a[1..] + b;
      JoinAppend(a[1..], b, sep);
    }
  }

  /** Splitting on newlines, the inverse of joining lines with "\n". */
  function Lines(s: string): (lines: seq<string>)
    ensures |lines| >= 1
  {
    if s == [] then [""]
    else
      var rest := Lines(s[1..]);
      if s[0] == '\n' then [""] + rest else [[s[0]] + rest[0]] + rest[1..]
  }

  lemma {:induction false} LinesFirst(a: string, b: string)
    requires '\n' !in a
    ensures Lines(a + "\n" + b) == [a] + Lines(b)
  {
    var s := a + "\n" + b;
    if a == [] {
      assert s[1..] == b;
    } else {
      assert s[1..] == a[1..] + "\n" + b;
      LinesFirst(a[1..], b);
      assert [a[0]] + a[1..] == a;
    }
  }

  lemma {:induction false} LinesUnbroken(s: string)
    requires '\n' !in s
    ensures Lines(s) == [s]
  {
    if s != [] {
      LinesUnbroken(s[1..]);
      assert [s[0]] + s[1..] == s;
    }
  }

  /** Splitting undoes joining with "\n", when no part holds a line break. */
  lemma {:induction false} LinesOfJoin(parts: seq<string>)
    requires parts != []
    requires forall i :: 0 <= i < |parts| ==> '\n' !in parts[i]
    ensures Lines(Join(parts, "\n")) == parts
  {
    if |parts| == 1 {
      LinesUnbroken(parts[0]);
    } else {
      LinesOfJoin(parts[1..]);
      LinesFirst(parts[0], Join(parts[1..], "\n"));
    }
  }

  /** When the lead's texts hold no line break, its block reads back as the
      five labelled lines, the score line carrying the lead's score. */
  lemma RenderLeadLines(lead: Lead)
    requires '\n' !in OrElse(lead.fullName, MISSING)
    requires '\n' !in OrElse(lead.industry, MISSING)
    requires '\n' !in OrElse(lead.email, MISSING)
    ensures Lines(RenderLead(lead)) == BlockLines(lead)
  {
    BlockLinesUnbroken(lead);
    LinesOfJoin(BlockLines(lead));
  }

  /** The lines of the reported blocks, one under the other, with an empty
      line between consecutive blocks. */
  function MessageLines(leads: seq<Lead>): seq<string>
  {
    if leads == [] then []
    else if |leads| == 1 then BlockLines(leads[0])
    else BlockLines(leads[0]) + [""] + MessageLines(leads[1..])
  }

  /** Texts of a lead that could hold a line break hold none. */
  predicate SingleLineFields(lead: Lead)
  {
    '\n' !in OrElse(lead.fullName, MISSING) &&
    '\n' !in OrElse(lead.industry, MISSING) &&
    '\n' !in OrElse(lead.email, MISSING)
  }

  /** Splitting lines joined with "\n" and followed by more text gives those
      lines and then the lines of the text. */
  lemma {:induction false} LinesOfJoinThen(parts: seq<string>, t: string)
    requires parts != []
    requires forall i :: 0 <= i < |parts| ==> '\n' !in parts[i]
    ensures Lines(Join(parts, "\n") + "\n" + t) == parts + Lines(t)
  {
    if |parts| == 1 {
      LinesFirst(parts[0], t);
    } else {
      var tail := parts[1..];
      var rest := Join(tail, "\n");
      assert Join(parts, "\n") == parts[0] + "\n" + rest;
      NewlineRegroup(parts[0], rest, t);
      LinesFirst(parts[0], rest + "\n" + t);
      assert forall i :: 0 <= i < |tail| ==> tail[i] == parts[i + 1];
      LinesOfJoinThen(tail, t);
      assert [parts[0]] + tail == parts;
    }
  }

  /** Regrouping two line breaks between three texts. */
  lemma NewlineRegroup(a: string, b: string, t: string)
    ensures (a + "\n" + b) + "\n" + t == a + "\n" + (b + "\n" + t)
  {
  }

  /** The header reads back as its title line and an empty line, ahead of
      the lines of what follows it. */
  lemma {:induction false} HeaderLines(body: string)
    ensures Lines(HEADER + body) == ["**High Priority Leads Alert**", ""] + Lines(body)
  {
    assert HEADER + body == "**High Priority Leads Alert**" + "\n" + ("" + "\n" + body);
    LinesFirst("**High Priority Leads Alert**", "" + "\n" + body);
    LinesFirst("", body);
    assert "" + "\n" + body == "\n" + body;
  }

  /** The reported blocks joined by a blank line read back as their lines with
      an empty line between blocks. */
  lemma {:induction false} LinesOfBlocks(leads: seq<Lead>)
    requires leads != []
    requires forall i :: 0 <= i < |leads| ==> SingleLineFields(leads[i])
    ensures Lines(Join(RenderAll(leads), BLOCK_SEPARATOR)) == MessageLines(leads)
  {
    if |leads| == 1 {
      RenderLeadLines(leads[0]);
    } else {
      var lines := BlockLines(leads[0]);
      BlockLinesUnbroken(leads[0]);
      var blocks := RenderAll(leads);
      assert blocks[1..] == RenderAll(leads[1..]);
      var rest := Join(blocks[1..], BLOCK_SEPARATOR);
      assert Join(blocks, BLOCK_SEPARATOR) == Join(lines, "\n") + BLOCK_SEPARATOR + rest;
      BlankLineRegroup(Join(lines, "\n"), rest);
      LinesOfJoinThen(lines, "\n" + rest);
      LeadingBreak(rest);
      LinesOfBlocks(leads[1..]);
    }
  }

  /** A blank-line separator is two line breaks. */
  lemma BlankLineRegroup(a: string, b: string)
    ensures a + BLOCK_SEPARATOR + b == a + "\n" + ("\n" + b)
  {
  }

  /** A text that starts with a line break starts with an empty line. */
  lemma LeadingBreak(b: string)
    ensures Lines("\n" + b) == [""] + Lines(b)
  {
    LinesFirst("", b);
    assert "" + "\n" + b == "\n" + b;
  }

  /** No line of a block holds a line break when the lead's texts hold none. */
  lemma BlockLinesUnbroken(lead: Lead)
    requires SingleLineFields(lead)
    ensures forall i :: 0 <= i < |BlockLines(lead)| ==> '\n' !in BlockLines(lead)[i]
  {
    var lines := BlockLines(lead);
    forall i | 0 <= i < |lines|
      ensures '\n' !in lines[i]
    {
    }
  }


  /** The whole message reads back as the header line, an empty line, and the
      blocks of the reported leads in their original order, an empty line
      between consecutive blocks. */
  lemma DigestLines(leads: seq<Lead>)
    requires forall l :: l in leads && IsHighPriority(l) ==> SingleLineFields(l)
    requires Digest(leads).Some?
    ensures Lines(Digest(leads).value) ==
              ["**High Priority Leads Alert**", ""] + MessageLines(HighPriorityLeads(leads))
  {
    var selected := HighPriorityLeads(leads);
    forall i | 0 <= i < |selected|
      ensures SingleLineFields(selected[i])
    {
      assert selected[i] in selected;
    }
    LinesOfBlocks(selected);
    var body := Join(RenderAll(selected), BLOCK_SEPARATOR);
    assert Digest(leads).value == HEADER + body;
    HeaderLines(body);
  }

  /** A reported lead's score line never falls back to 0: it prints the score
      itself, which reads back as that score. */
  lemma ReportedScoreIsExact(lead: Lead)
    requires IsHighPriority(lead)
    ensures ScoreText(lead.userScore) == NatToDecimal(lead.userScore.value)
    ensures DecimalValue(ScoreText(lead.userScore)) == lead.userScore.value
  {
    DecimalRoundTrip(lead.userScore.value);
  }

  /** Scores 90, 70 and 85: the first and the third are reported, in that order. */
  lemma ThreeScoresSelection(a: Lead, b: Lead, c: Lead)
    requires a.userScore == Some(90) && b.userScore == Some(70) && c.userScore == Some(85)
    ensures HighPriorityLeads([a, b, c]) == [a, c]
  {
    HighPriorityAppend([a], [b, c]);
    HighPriorityAppend([b], [c]);
    assert [a] + [b, c] == [a, b, c];
    assert [b] + [c] == [b, c];
  }

  /** The message for scores 90, 70 and 85 holds the two reported blocks. */
  lemma ThreeScoresMessage(a: Lead, b: Lead, c: Lead)
    requires a.userScore == Some(90) && b.userScore == Some(70) && c.userScore == Some(85)
    ensures Digest([a, b, c]) == Some(HEADER + (RenderLead(a) + BLOCK_SEPARATOR + RenderLead(c)))
  {
    ThreeScoresSelection(a, b, c);
    var blocks := RenderAll([a, c]);
    assert blocks == [RenderLead(a), RenderLead(c)];
    assert blocks[1..] == [RenderLead(c)];
    assert Join(blocks, BLOCK_SEPARATOR) == RenderLead(a) + BLOCK_SEPARATOR + RenderLead(c);
  }
}
