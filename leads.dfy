/** The lead record as the CRM returns it, and the scoring rule of the job
    (`calculateScore`). */
module Leads {
  import opened Optional

  /** One lead: the properties of the CRM record that the job reads or writes.
      `userScore` is the only one the job changes. */
  datatype Lead = Lead(
    id: string,
    fullName: Option<string>,
    email: Option<string>,
    priorityLevel: Option<string>,
    industry: Option<string>,
    userScore: Option<int>)

  /** Points for the priority level, as a table: the three tiers of `calculateScore`. */
  function PriorityPoints(level: Option<string>): (p: int)
    ensures p == 60 || p == 30 || p == 10
    ensures p == 60 <==> level == Some("High")
    ensures p == 30 <==> level == Some("Medium")
  {
    match level
    case Some("High") => 60
    case Some("Medium") => 30
    case _ => 10
  }

  /** Points for the industry, as a table: the three tiers of `calculateScore`. */
  function IndustryPoints(industry: Option<string>): (i: int)
    ensures i == 50 || i == 20 || i == 0
    ensures i == 50 <==> industry == Some("Large Enterprise")
    ensures i == 20 <==> industry == Some("Small/Medium Enterprise")
  {
    match industry
    case Some("Large Enterprise") => 50
    case Some("Small/Medium Enterprise") => 20
    case _ => 0
  }

  /** The score of a lead, built as a running total that starts at 0: first
      the priority component is added, then the industry component (nothing
      for any other industry). */
  function CalculateScore(lead: Lead): (score: int)
    ensures score == PriorityPoints(lead.priorityLevel) + IndustryPoints(lead.industry)
    ensures 10 <= score <= 110
    ensures score in {10, 30, 50, 60, 80, 110}
    ensures score > 80 <==> lead.priorityLevel == Some("High") && lead.industry == Some("Large Enterprise")
  {
    var afterPriority :=
      if lead.priorityLevel == Some("High") then 60
      else if lead.priorityLevel == Some("Medium") then 30
      else 10;
    if lead.industry == Some("Large Enterprise") then afterPriority + 50
    else if lead.industry == Some("Small/Medium Enterprise") then afterPriority + 20
    else afterPriority
  }

  /** The lead with its score field overwritten by its computed score, as the
      orchestrator does to each fetched lead. */
  function Rescore(lead: Lead): (r: Lead)
    ensures r.userScore == Some(CalculateScore(lead))
    ensures r.id == lead.id && r.fullName == lead.fullName && r.email == lead.email
    ensures r.priorityLevel == lead.priorityLevel && r.industry == lead.industry
  {
    lead.(userScore := Some(CalculateScore(lead)))
  }

  /** Every lead of a collection rescored, in the same order. */
  function RescoreAll(leads: seq<Lead>): (r: seq<Lead>)
    ensures |r| == |leads|
    ensures forall i :: 0 <= i < |leads| ==> r[i] == Rescore(leads[i])
  {
    if leads == [] then [] else [Rescore(leads[0])] + RescoreAll(leads[1..])
  }

  /** The score reads only the priority level and the industry. */
  lemma ScoreDependsOnlyOnCategories(a: Lead, b: Lead)
    requires a.priorityLevel == b.priorityLevel && a.industry == b.industry
    ensures CalculateScore(a) == CalculateScore(b)
  {
  }

  /** Rescoring is idempotent: the score does not depend on the previous score,
      so running the job twice writes the same scores. */
  lemma {:induction false} RescoreAllIdempotent(leads: seq<Lead>)
    ensures RescoreAll(RescoreAll(leads)) == RescoreAll(leads)
  {
    var once := RescoreAll(leads);
    forall i | 0 <= i < |leads|
      ensures RescoreAll(once)[i] == once[i]
    {
      ScoreDependsOnlyOnCategories(once[i], leads[i]);
    }
  }
}
