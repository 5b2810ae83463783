/** `fetchLeads`: read the CRM's lead collection page by page. The CRM is
    replaced by the finite sequence of its responses, one per request, in
    request order; sleeping becomes the list of delays the loop would have
    waited. */
module Pagination {
  import opened Optional
  import opened Leads

  /** Records per requested page. */
  const PER_PAGE: nat := 200
  /** Pause after a rate-limited page request, in milliseconds. */
  const RATE_LIMIT_DELAY: nat := 1000

  /** The CRM's answer to one page request. A page body carries `data` (the
      records; `None` when the body has no array to append) and
      `info.more_records` (`None` when the body has no `info`; a present `info`
      without `more_records` reads as `Some(false)`). */
  datatype PageResponse =
    | Page(data: Option<seq<Lead>>, moreRecords: Option<bool>)
    | HttpError(status: int)
    | NetworkError(message: string)

  /** Why pagination ended. */
  datatype FetchStop =
    | LastPage                      // a page said there are no more records
    | Stopped(failure: PageResponse) // any failure other than a 429
    | InputExhausted                // the modelled CRM has no further response

  /** The collected leads, the page number of every request in order, and the
      delays slept after rate-limited requests. */
  datatype FetchResult = FetchResult(leads: seq<Lead>, pages: seq<nat>, delays: seq<nat>, stop: FetchStop)

  /** A page whose records were appended and whose `info` was read. */
  predicate IsCompletePage(r: PageResponse)
  {
    r.Page? && r.data.Some? && r.moreRecords.Some?
  }

  /** A response after which the loop requests again. */
  predicate Continues(r: PageResponse)
  {
    (IsCompletePage(r) && r.moreRecords.value) || r == HttpError(429)
  }

  /** The records a response contributes to the accumulator: those of any page
      body that has a `data` array, even when reading `info` then fails. */
  function DataOf(r: PageResponse): seq<Lead>
  {
    if r.Page? && r.data.Some? then r.data.value else []
  }

  /** All records served by a run of responses, in order. */
  function Served(rs: seq<PageResponse>): (leads: seq<Lead>)
    ensures rs == [] ==> leads == []
  {
    if rs == [] then [] else DataOf(rs[0]) + Served(rs[1..])
  }

  /** The number of complete pages in a run of responses. */
  function CompletePages(rs: seq<PageResponse>): (n: nat)
    ensures n <= |rs|
  {
    if rs == [] then 0 else (if IsCompletePage(rs[0]) then 1 else 0) + CompletePages(rs[1..])
  }

  /** The number of rate-limited responses in a run of responses. */
  function RateLimited(rs: seq<PageResponse>): (n: nat)
    ensures n <= |rs|
  {
    if rs == [] then 0 else (if rs[0] == HttpError(429) then 1 else 0) + RateLimited(rs[1..])
  }

  /** The run of the loop from the request for `page` onwards, on the responses
      still to come. */
  function FetchFrom(responses: seq<PageResponse>, page: nat): (r: FetchResult)
    ensures |r.pages| <= |responses|
    ensures r.stop == InputExhausted ==> |r.pages| == |responses|
  {
    if responses == [] then FetchResult([], [], [], InputExhausted)
    else
      var response := responses[0];
      if IsCompletePage(response) then
        if response.moreRecords.value then
          var rest := FetchFrom(responses[1..], page + 1);
          FetchResult(response.data.value + rest.leads, [page] + rest.pages, rest.delays, rest.stop)
        else
          FetchResult(response.data.value, [page], [], LastPage)
      else if response == HttpError(429) then
        var rest := FetchFrom(responses[1..], page);
        FetchResult(rest.leads, [page] + rest.pages, [RATE_LIMIT_DELAY] + rest.delays, rest.stop)
      else
        FetchResult(DataOf(response), [page], [], Stopped(response))
  }

  /** The whole run, starting at page 1. */
  function FetchAll(responses: seq<PageResponse>): FetchResult
  {
    FetchFrom(responses, 1)
  }

  /** The loop of the source: request the current page; on a page body append
      its records, read `more_records` and advance the page; on a 429 pause and
      ask for the same page again; on any other failure stop with what has been
      gathered. */
  method FetchLeads(responses: seq<PageResponse>) returns (allLeads: seq<Lead>, pages: seq<nat>, delays: seq<nat>, stop: FetchStop)
    ensures FetchResult(allLeads, pages, delays, stop) == FetchAll(responses)
  {
    var page := 1;
    var hasMoreRecords := true;
    var i := 0;
    allLeads, pages, delays, stop := [], [], [], LastPage;
    while hasMoreRecords
      invariant 0 <= i <= |responses|
      invariant hasMoreRecords ==>
        var rest := FetchFrom(responses[i..], page);
        FetchAll(responses) == FetchResult(allLeads + rest.leads, pages + rest.pages, delays + rest.delays, rest.stop)
      invariant !hasMoreRecords ==> FetchAll(responses) == FetchResult(allLeads, pages, delays, LastPage)
      decreases |responses| - i, hasMoreRecords
    {
      if i == |responses| {
        stop := InputExhausted;
        break;
      }
      var response := responses[i];
      assert responses[i..][1..] == responses[i + 1..];
      i := i + 1;
      pages := pages + [page];
      if response.Page? && response.data.Some? {
        allLeads := allLeads + response.data.value;
        if response.moreRecords.None? {
          stop := Stopped(response);
          break;
        }
        hasMoreRecords := response.moreRecords.value;
        page := page + 1;
      } else if response == HttpError(429) {
        delays := delays + [RATE_LIMIT_DELAY];
      } else {
        stop := Stopped(response);
        break;
      }
    }
  }

  /** The first `n` responses, seen as the first one followed by the first
      `n - 1` of the rest. */
  lemma PrefixSplit(responses: seq<PageResponse>, n: nat)
    requires 1 <= n <= |responses|
    ensures responses[..n] == [responses[0]] + responses[1..][..n - 1]
  {
  }

  /** The leads returned are the records of the responses consumed, in request
      order: the successful pages, plus the records of a final page whose
      `info` could not be read. */
  lemma {:induction false} FetchedLeadsAreServed(responses: seq<PageResponse>, page: nat)
    ensures FetchFrom(responses, page).leads == Served(responses[..|FetchFrom(responses, page).pages|])
  {
    var r := FetchFrom(responses, page);
    if responses != [] {
      var n := |r.pages|;
      PrefixSplit(responses, n);
      assert Served(responses[..n]) == DataOf(responses[0]) + Served(responses[1..][..n - 1]);
      if Continues(responses[0]) {
        FetchedLeadsAreServed(responses[1..], if responses[0] == HttpError(429) then page else page + 1);
      }
    }
  }

  /** The page counter: request `k` asks for the starting page plus the number
      of complete pages before it, so a 429 repeats the same page and every
      complete page advances it by exactly one. */
  lemma {:induction false} PageCounter(responses: seq<PageResponse>, page: nat, k: nat)
    requires k < |FetchFrom(responses, page).pages|
    ensures FetchFrom(responses, page).pages[k] == page + CompletePages(responses[..k])
  {
    if k > 0 {
      var r := FetchFrom(responses, page);
      PrefixSplit(responses, k);
      assert CompletePages(responses[..k]) ==
        (if IsCompletePage(responses[0]) then 1 else 0) + CompletePages(responses[1..][..k - 1]);
      PageCounter(responses[1..], if IsCompletePage(responses[0]) then page + 1 else page, k - 1);
    }
  }

  /** One pause of RATE_LIMIT_DELAY per rate-limited request, and no other. */
  lemma {:induction false} RateLimitDelays(responses: seq<PageResponse>, page: nat)
    ensures var r := FetchFrom(responses, page);
      |r.delays| == RateLimited(responses[..|r.pages|]) &&
      forall d :: d in r.delays ==> d == RATE_LIMIT_DELAY
  {
    var r := FetchFrom(responses, page);
    if responses != [] {
      var n := |r.pages|;
      PrefixSplit(responses, n);
      assert RateLimited(responses[..n]) ==
        (if responses[0] == HttpError(429) then 1 else 0) + RateLimited(responses[1..][..n - 1]);
      if Continues(responses[0]) {
        RateLimitDelays(responses[1..], if responses[0] == HttpError(429) then page else page + 1);
      }
    }
  }

  /** Why and where the loop stops: every request but the last was followed by
      another one; the last is a page saying there is nothing more, a failure
      other than 429, or the end of the modelled responses. */
  lemma {:induction false} StopCondition(responses: seq<PageResponse>, page: nat)
    ensures var r := FetchFrom(responses, page); var n := |r.pages|;
      (forall k :: 0 <= k < n - 1 ==> Continues(responses[k])) &&
      (r.stop == InputExhausted <==> n == |responses| && forall k :: 0 <= k < n ==> Continues(responses[k])) &&
      (r.stop == LastPage ==> n >= 1 && IsCompletePage(responses[n - 1]) && !responses[n - 1].moreRecords.value) &&
      (r.stop.Stopped? ==> n >= 1 && r.stop.failure == responses[n - 1] &&
                           !IsCompletePage(responses[n - 1]) && responses[n - 1] != HttpError(429))
  {
    if responses != [] && Continues(responses[0]) {
      StopCondition(responses[1..], if responses[0] == HttpError(429) then page else page + 1);
    }
  }

  /** Three full pages flagged more, more, no more: three requests for pages
      1, 2 and 3, and all their records in order. */
  lemma ThreePages(a: seq<Lead>, b: seq<Lead>, c: seq<Lead>, later: seq<PageResponse>)
    requires |a| == PER_PAGE && |b| == PER_PAGE && |c| == 50
    ensures var r := FetchAll([Page(Some(a), Some(true)), Page(Some(b), Some(true)), Page(Some(c), Some(false))] + later);
      r.leads == a + b + c && |r.leads| == 450 && r.pages == [1, 2, 3] && r.delays == [] && r.stop == LastPage
  {
    var rs := [Page(Some(a), Some(true)), Page(Some(b), Some(true)), Page(Some(c), Some(false))] + later;
    assert rs[1..] == [Page(Some(b), Some(true)), Page(Some(c), Some(false))] + later;
    assert rs[1..][1..] == [Page(Some(c), Some(false))] + later;
    var third := FetchFrom(rs[1..][1..], 3);
    assert third == FetchResult(c, [3], [], LastPage);
    var second := FetchFrom(rs[1..], 2);
    assert second == FetchResult(b + c, [2, 3], [], LastPage);
    assert FetchFrom(rs, 1) == FetchResult(a + (b + c), [1, 2, 3], [], LastPage);
    assert a + (b + c) == a + b + c;
  }
}
