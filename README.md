# Lead scoring job — a Dafny model

The job in `lead_score/index.js` refreshes an OAuth access token for the Zoho
CRM, pages through the CRM's lead collection, gives each lead a score from its
priority level and industry, writes the score back, and posts the leads scoring
above 80 to a Cliq bot. This project models the deterministic part of that job
and proves what it promises. Every remote call is replaced by an input:

- the identity provider by the sequence of its replies, one per attempt
  (`TokenRefresh.TokenReply`, six of them, one for each retry count 0..5);
- the CRM's lead listing by the finite sequence of its responses, one per page
  request (`Pagination.PageResponse`): a page body, an HTTP error status, or a
  transport error with no response;
- sleeping by the list of delays, in milliseconds, that would have been slept;
- the lead updates and the chat message by values the model returns
  (`Orchestrator.ScoreWrite`, `Notifier.Digest`).

Modules, one per component of the script:

- `Optional` — `Option` and JavaScript's `s || fallback` on strings.
- `Leads` — the lead record and `calculateScore`.
- `TokenRefresh` — the retry decision and backoff schedule of `refreshAccessToken`,
  as recursion on the retry count.
- `Pagination` — the `while` loop of `fetchLeads` as a method, proved equal to
  a recursive specification function whose properties are proved as lemmas.
- `Decimal` — how a template literal prints an integer score.
- `Notifier` — the filter, the per-lead block and the join of `sendLeadsToCliqBot`.
- `Orchestrator` — `processLeads`: the in-place rescoring loop over the array
  of fetched leads, the updates it issues and the message handed to the notifier.

The code gives every lead at least 10 points (an unset priority still scores
10), so scores lie in [10, 110] and take only the values 10, 30, 50, 60, 80 and
110. A consequence proved here: only priority "High" with industry
"Large Enterprise" (110) exceeds the alert threshold of 80, so the fixed label
"**Priority**: High" in each block is always accurate for a rescored lead.

## Model

| member | source | states |
|---|---|---|
| `Optional.OrElse` | lead_score/index.js:112 | the fallback is used exactly when the property is missing or the empty string; otherwise the property's own text |
| `Leads.PriorityPoints` | lead_score/index.js:90-92 | priority points are 60, 30 or 10; 60 exactly for "High", 30 exactly for "Medium" |
| `Leads.IndustryPoints` | lead_score/index.js:94-95 | industry points are 50, 20 or 0; 50 exactly for "Large Enterprise", 20 exactly for "Small/Medium Enterprise" |
| `Leads.CalculateScore` | lead_score/index.js:87-98 | the score is priority points plus industry points, lies in [10, 110], is one of 10, 30, 50, 60, 80, 110, and exceeds 80 exactly for "High" with "Large Enterprise" |
| `Leads.Rescore` | lead_score/index.js:135-136 | the lead's score field becomes its computed score; id, name, email, priority and industry are unchanged |
| `Leads.RescoreAll` | lead_score/index.js:134-136 | same length and order, each lead rescored in place |
| `Leads.ScoreDependsOnlyOnCategories` | lead_score/index.js:87-98 | two leads with the same priority and industry get the same score, whatever their other fields |
| `Leads.RescoreAllIdempotent` | lead_score/index.js:134-136 | rescoring an already rescored collection changes nothing, so a re-run writes the same scores |
| `TokenRefresh.IsRetryable` | lead_score/index.js:26-28 | a failure is retried only for HTTP status 429 or the transport code "ENOTFOUND" |
| `TokenRefresh.Backoff` | lead_score/index.js:30 | the delay is at most 30000 ms and is either 1000·2^k or the 30000 ms cap |
| `TokenRefresh.RefreshAccessToken` | lead_score/index.js:13-37 | at most 6 attempts; every retry follows a 429 or "ENOTFOUND" failure and waits Backoff of its retry count; the result is the token of the deciding attempt, or its error when that error is not retryable or the retry count has reached 5 |
| `TokenRefresh.BackoffSchedule` | lead_score/index.js:30 | delays 1000, 2000, 4000, 8000, 16000 ms for retry counts 0..4, and the 30000 ms cap from 5 on |
| `TokenRefresh.FirstDecisiveAttempt` | lead_score/index.js:15-35 | the first attempt within the cap that succeeds or fails non-retryably decides the result, with exactly one retry for each earlier attempt; a first-attempt success returns its token with no retry |
| `TokenRefresh.AllAttemptsRateLimited` | lead_score/index.js:28-35 | six retryable failures give delays 1000..16000 and rethrow the sixth failure, after exactly 6 attempts |
| `Pagination.FetchLeads` | lead_score/index.js:40-69 | the loop returns exactly the leads, page numbers, delays and stop reason of the specification `FetchAll` |
| `Pagination.FetchFrom` | lead_score/index.js:45-65 | never more requests than responses; running out of responses means every response was consumed |
| `Pagination.FetchedLeadsAreServed` | lead_score/index.js:43-68 | the returned leads are the concatenation, in request order, of the data of the responses consumed |
| `Pagination.PageCounter` | lead_score/index.js:41-59 | request k asks for page 1 plus the number of complete pages before it: a 429 re-requests the same page, a page advances the counter by one |
| `Pagination.RateLimitDelays` | lead_score/index.js:57-59 | one 1000 ms pause per 429 response consumed, and no other pause |
| `Pagination.StopCondition` | lead_score/index.js:45-63 | every request but the last is a page with more records or a 429; the last is a page with no more records, or a non-429 failure returned with the partial result, or the end of the modelled responses |
| `Pagination.ThreePages` | lead_score/index.js:45-55 | pages of 200, 200 and 50 flagged more, more, no more give 450 leads in order after exactly 3 requests for pages 1, 2, 3 |
| `Decimal.NatToDecimal` | lead_score/index.js:112 | a non-empty string of digits without a leading zero |
| `Decimal.IntToDecimal` | lead_score/index.js:112 | non-empty, starts with '-' exactly for negative numbers, holds no line break |
| `Decimal.DecimalRoundTrip` | lead_score/index.js:112 | the printed digits read back as the number |
| `Decimal.IntRoundTrip` | lead_score/index.js:112 | a printed integer, sign included, reads back as the integer |
| `Notifier.HighPriorityLeads` | lead_score/index.js:102 | a lead is selected exactly when it is in the input and its score is above 80 |
| `Notifier.HighPriorityAppend` | lead_score/index.js:102 | the selection of a concatenation is the concatenation of the selections, so the original order is kept |
| `Notifier.ScoreText` | lead_score/index.js:112 | the text is a numeral that reads back as the score, or as 0 when the score is missing, and holds no line break |
| `Notifier.RenderAll` | lead_score/index.js:109-113 | one block per selected lead, in order |
| `Notifier.Digest` | lead_score/index.js:101-119 | no message exactly when no lead scores above 80; otherwise the message starts with the "**High Priority Leads Alert**" header and its blank line; what follows is stated by `DigestLines` |
| `Notifier.JoinAppend` | lead_score/index.js:114 | joining two non-empty lists of blocks puts one separator between them |
| `Notifier.RenderLeadLines` | lead_score/index.js:112 | a block reads back as the five labelled lines name, priority, score, industry, contact, with "N/A" for a missing name, industry or email |
| `Notifier.BlockLines` | lead_score/index.js:111-112 | the five labelled lines of a reported lead: name or "N/A", the fixed "High" priority label, the score or 0, industry or "N/A", email or "N/A" |
| `Notifier.RenderLead` | lead_score/index.js:111-112 | the block of one lead is its five labelled lines joined by line breaks; `RenderLeadLines` proves it reads back as those lines |
| `Notifier.Join` | lead_score/index.js:114 | `join` on strings: the parts in order with the separator between consecutive parts; `JoinAppend` proves it distributes over concatenation |
| `Notifier.IsHighPriority` | lead_score/index.js:102 | a lead qualifies exactly when it has a score and that score is strictly above 80 |
| `Notifier.DigestLines` | lead_score/index.js:109-119 | for every input whose reported texts hold no line break, the message reads back as the header line, an empty line, and the reported leads' blocks in their original order with an empty line between consecutive blocks |
| `Notifier.LinesOfBlocks` | lead_score/index.js:109-114 | the reported blocks joined by a blank line read back as their lines with an empty line between blocks |
| `Notifier.ReportedScoreIsExact` | lead_score/index.js:102-112 | for a reported lead the score line never falls back to 0: it prints the score, which reads back as that score |
| `Notifier.ThreeScoresSelection` | lead_score/index.js:102 | scores 90, 70, 85 select the first and third lead, in that order |
| `Notifier.ThreeScoresMessage` | lead_score/index.js:109-119 | the message for scores 90, 70, 85 is the header, the first block, a blank line and the third block |
| `Orchestrator.WritesFor` | lead_score/index.js:135-137 | one update per lead, in order, carrying its id and its computed score |
| `Orchestrator.ProcessLeads` | lead_score/index.js:129-144 | a refresh failure aborts the run with that error and nothing else; otherwise the leads left in memory are the fetched leads rescored in place, one update per lead is issued, and the message is the digest of the rescored leads |
| `Orchestrator.RescoreInPlace` | lead_score/index.js:134-137 | the array afterwards holds each lead of the old array rescored, in place and in order, and one update per lead is issued with its id and computed score |
| `Orchestrator.TopTier` | lead_score/index.js:90-95 | selects exactly the leads with priority "High" and industry "Large Enterprise" |
| `Orchestrator.ReportedAfterScoring` | lead_score/index.js:134-140 | after rescoring, the notifier reports exactly the "High" / "Large Enterprise" leads, in fetch order, each with score 110 |

## Left out

- Network I/O: the token, listing, update and webhook requests, their URLs,
  headers and query parameters, and the HTTP client. Replies and responses are
  inputs; the updates and the message are outputs.
- Time: `setTimeout` sleeps and `async`/`await`; delays are returned as values.
- Configuration from `dotenv`/`process.env`, the hard-coded webhook URL and the
  credentials.
- Console logging.
- `updateLead` beyond the request it issues: its reply is never read and its
  failure is swallowed, so the model issues one `ScoreWrite` per lead and no
  outcome of the write can influence the rest of the run.
- The notifier's POST failure, which is logged and swallowed; the model stops
  at the message text.
- `Pagination.FetchLeads`: the source loops for as long as the CRM answers 429.
  The model's CRM has finitely many responses, and when they run out with the
  loop still wanting a page the result says so (`InputExhausted`). Termination
  under endless 429 responses is therefore not modelled.
- `TokenRefresh.RefreshAccessToken`: the replies are exactly six, one per
  possible retry count; a successful reply without an `access_token` field
  (which would return `undefined`) is not modelled.
- JavaScript dynamic typing: the score is an integer or missing; a
  non-numeric, fractional or `NaN` `User_score`, and non-string names or
  non-array `data`, are not modelled. A response whose `info` lacks
  `more_records` is modelled as `more_records` false, which is how the loop
  treats `undefined`.
- Number representation: scores are unbounded integers; JavaScript's 2^53
  precision limit and its exponent form from 1e21 on (`${1e21}` prints
  "1e+21") are not modelled. Rescored values lie in [10, 110], where neither
  applies.
- Object identity: leads are values in an array rewritten element by element;
  the source's leads are distinct objects parsed from JSON, so no aliasing
  between them is lost.
