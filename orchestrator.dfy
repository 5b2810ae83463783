/** `processLeads`: refresh the token, fetch every lead, overwrite each lead's
    score in place and issue its update, then hand the whole collection to the
    notifier. Remote calls are replaced by their modelled replies; the update
    requests and the message are returned instead of sent. */
module Orchestrator {
  import opened Optional
  import opened Leads
  import opened TokenRefresh
  import opened Pagination
  import opened Notifier

  /** The update `updateLead` sends for one lead: its id and its new score. */
  datatype ScoreWrite = ScoreWrite(leadId: string, score: int)

  /** How a run ends: the token refresh error caught at the top level, or the
      token obtained, the leads as left in memory, the updates issued in order,
      why pagination stopped, and the message the notifier would post. A
      `Completed` run whose `fetchStop` is `InputExhausted` is one the source
      never finishes that way: it would request another page, whereas the
      model scores and reports the leads gathered from the responses given. */
  datatype RunReport =
    | Aborted(error: FailureSignal)
    | Completed(accessToken: string, leads: seq<Lead>, writes: seq<ScoreWrite>,
                fetchStop: FetchStop, message: Option<string>)

  /** The updates issued for a collection of leads, one per lead, in order. */
  function WritesFor(leads: seq<Lead>): (writes: seq<ScoreWrite>)
    ensures |writes| == |leads|
    ensures forall i :: 0 <= i < |leads| ==> writes[i] == ScoreWrite(leads[i].id, CalculateScore(leads[i]))
  {
    if leads == [] then [] else [ScoreWrite(leads[0].id, CalculateScore(leads[0]))] + WritesFor(leads[1..])
  }

  /** One run of the job. `replies` answers the token refresh attempts and
      `responses` the page requests; every update is best effort and its reply
      is never read, so every lead gets one. */
  method ProcessLeads(replies: seq<TokenReply>, responses: seq<PageResponse>) returns (report: RunReport)
    requires |replies| == MAX_RETRIES + 1
    ensures report.Aborted? <==> RefreshAccessToken(replies, 0).result.Failed?
    ensures report.Aborted? ==> report.error == RefreshAccessToken(replies, 0).result.signal
    ensures report.Completed? ==> report.accessToken == RefreshAccessToken(replies, 0).result.token
    ensures report.Completed? ==> report.leads == RescoreAll(FetchAll(responses).leads)
    ensures report.Completed? ==> report.writes == WritesFor(FetchAll(responses).leads)
    ensures report.Completed? ==> report.fetchStop == FetchAll(responses).stop
    ensures report.Completed? ==> report.message == Digest(report.leads)
  {
    var refresh := RefreshAccessToken(replies, 0);
    if refresh.result.Failed? {
      return Aborted(refresh.result.signal);
    }
    var accessToken := refresh.result.token;
    var fetched, _, _, stop := FetchLeads(responses);
    var leads := new Lead[|fetched|](i requires 0 <= i < |fetched| => fetched[i]);
    var writes := RescoreInPlace(leads);
    var message := Digest(leads[..]);
    report := Completed(accessToken, leads[..], writes, stop, message);
  }

  /** The loop of `processLeads`: each lead of the array, in order, gets its
      computed score written into its score field, and its update is issued. */
  method RescoreInPlace(leads: array<Lead>) returns (writes: seq<ScoreWrite>)
    modifies leads
    ensures leads[..] == RescoreAll(old(leads[..]))
    ensures writes == WritesFor(old(leads[..]))
  {
    ghost var fetched := leads[..];
    writes := [];
    for i := 0 to leads.Length
      invariant forall k :: 0 <= k < i ==> leads[k] == Rescore(fetched[k])
      invariant forall k :: i <= k < leads.Length ==> leads[k] == fetched[k]
      invariant |writes| == i
      invariant forall k :: 0 <= k < i ==> writes[k] == ScoreWrite(fetched[k].id, CalculateScore(fetched[k]))
    {
      var newScore := CalculateScore(leads[i]);
      leads[i] := leads[i].(userScore := Some(newScore));
      writes := writes + [ScoreWrite(leads[i].id, newScore)];
    }
    RescoredElementwise(fetched, leads[..]);
    WritesElementwise(fetched, writes);
  }

  /** A collection that holds each fetched lead rescored, in place, is the
      rescored collection. */
  lemma RescoredElementwise(fetched: seq<Lead>, leads: seq<Lead>)
    requires |leads| == |fetched|
    requires forall k :: 0 <= k < |leads| ==> leads[k] == Rescore(fetched[k])
    ensures leads == RescoreAll(fetched)
  {
  }

  /** Updates that carry each fetched lead's id and score, in order, are the
      updates of the collection. */
  lemma WritesElementwise(fetched: seq<Lead>, writes: seq<ScoreWrite>)
    requires |writes| == |fetched|
    requires forall k :: 0 <= k < |writes| ==> writes[k] == ScoreWrite(fetched[k].id, CalculateScore(fetched[k]))
    ensures writes == WritesFor(fetched)
  {
  }

  /** The leads that reach the notifier after scoring: priority "High" and
      industry "Large Enterprise", the only pair that scores above 80. */
  predicate IsTopTier(lead: Lead)
  {
    lead.priorityLevel == Some("High") && lead.industry == Some("Large Enterprise")
  }

  function TopTier(leads: seq<Lead>): (selected: seq<Lead>)
    ensures forall l :: l in selected <==> l in leads && IsTopTier(l)
  {
    if leads == [] then []
    else if IsTopTier(leads[0]) then [leads[0]] + TopTier(leads[1..])
    else TopTier(leads[1..])
  }

  /** After rescoring, the notifier reports exactly the top-tier leads, in
      fetch order, each with score 110. */
  lemma {:induction false} ReportedAfterScoring(leads: seq<Lead>)
    ensures HighPriorityLeads(RescoreAll(leads)) == RescoreAll(TopTier(leads))
    ensures forall l :: l in HighPriorityLeads(RescoreAll(leads)) ==> l.userScore == Some(110)
  {
    if leads != [] {
      ReportedAfterScoring(leads[1..]);
      assert RescoreAll(leads)[1..] == RescoreAll(leads[1..]);
    }
  }
}
