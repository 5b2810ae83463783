/** `refreshAccessToken`: exchange the refresh credential for an access token,
    retrying rate-limited and name-resolution failures with exponential backoff.
    The identity provider is replaced by the sequence of its replies: reply `k`
    answers the attempt made with retry count `k`. Sleeping becomes the list of
    delays, in milliseconds, that the call would have waited. */
module TokenRefresh {

  /** The retry cap of the source. */
  const MAX_RETRIES: nat := 5
  /** The ceiling on one backoff delay, in milliseconds. */
  const MAX_BACKOFF: nat := 30000

  /** What a failed attempt exposes: the HTTP status of the error response when
      there is one, otherwise the transport error code (e.g. "ENOTFOUND"). */
  datatype FailureSignal = HttpStatus(code: int) | ErrorCode(name: string)

  /** The identity provider's answer to one attempt. */
  datatype TokenReply = Granted(accessToken: string) | Rejected(signal: FailureSignal)

  /** What the call returns: the token, or the error it rethrows. */
  datatype Refresh = Refreshed(token: string) | Failed(signal: FailureSignal)

  /** The outcome together with the delays slept before each retry, in order. */
  datatype TokenOutcome = TokenOutcome(result: Refresh, delays: seq<nat>)

  /** A failure worth retrying: rate limited (429) or the host name did not resolve. */
  predicate IsRetryable(s: FailureSignal)
  {
    s == HttpStatus(429) || s == ErrorCode("ENOTFOUND")
  }

  function Pow2(k: nat): (p: nat)
    ensures p >= 1
  {
    if k == 0 then 1 else 2 * Pow2(k - 1)
  }

  /** The delay before the retry that follows a failure at retry count `k`. */
  function Backoff(k: nat): (d: nat)
    ensures d <= MAX_BACKOFF
    ensures d <= 1000 * Pow2(k)
    ensures d == MAX_BACKOFF || d == 1000 * Pow2(k)
  {
    if 1000 * Pow2(k) < MAX_BACKOFF then 1000 * Pow2(k) else MAX_BACKOFF
  }

  /** The attempt made with retry count `retryCount` and, when it fails with a
      retryable signal below the cap, the attempts after it. */
  function RefreshAccessToken(replies: seq<TokenReply>, retryCount: nat): (r: TokenOutcome)
    requires |replies| == MAX_RETRIES + 1 && retryCount <= MAX_RETRIES
    decreases MAX_RETRIES - retryCount
    // never more than MAX_RETRIES + 1 attempts in all
    ensures retryCount + |r.delays| <= MAX_RETRIES
    // every retry follows a retryable failure, after the backoff for its count
    ensures forall k :: retryCount <= k < retryCount + |r.delays| ==>
              replies[k].Rejected? && IsRetryable(replies[k].signal)
    ensures forall k :: 0 <= k < |r.delays| ==> r.delays[k] == Backoff(retryCount + k)
    // the last attempt decides: its token, or its error when that is not retryable or retries are spent
    ensures r.result.Refreshed? ==> replies[retryCount + |r.delays|] == Granted(r.result.token)
    ensures r.result.Failed? ==>
              replies[retryCount + |r.delays|] == Rejected(r.result.signal) &&
              (!IsRetryable(r.result.signal) || retryCount + |r.delays| == MAX_RETRIES)
  {
    match replies[retryCount]
    case Granted(token) => TokenOutcome(Refreshed(token), [])
    case Rejected(signal) =>
      if IsRetryable(signal) && retryCount < MAX_RETRIES then
        var rest := RefreshAccessToken(replies, retryCount + 1);
        TokenOutcome(rest.result, [Backoff(retryCount)] + rest.delays)
      else
        TokenOutcome(Failed(signal), [])
  }

  /** The number of attempts the call makes. */
  function Attempts(r: TokenOutcome): nat
  {
    |r.delays| + 1
  }

  lemma {:induction false} Pow2Grows(k: nat)
    requires k >= 5
    ensures 1000 * Pow2(k) >= MAX_BACKOFF
  {
    if k > 5 {
      Pow2Grows(k - 1);
    }
  }

  /** The schedule doubles from one second and is capped at thirty seconds from
      retry count 5 on (which the retry cap never reaches). */
  lemma BackoffSchedule(k: nat)
    ensures k == 0 ==> Backoff(k) == 1000
    ensures k == 1 ==> Backoff(k) == 2000
    ensures k == 2 ==> Backoff(k) == 4000
    ensures k == 3 ==> Backoff(k) == 8000
    ensures k == 4 ==> Backoff(k) == 16000
    ensures k >= 5 ==> Backoff(k) == MAX_BACKOFF
  {
    if k >= 5 {
      Pow2Grows(k);
    }
  }

  /** The first attempt that is not a retryable failure decides the outcome,
      provided it happens within the retry cap. */
  lemma {:induction false} FirstDecisiveAttempt(replies: seq<TokenReply>, retryCount: nat, j: nat)
    requires |replies| == MAX_RETRIES + 1 && retryCount <= j <= MAX_RETRIES
    requires forall k :: retryCount <= k < j ==> replies[k].Rejected? && IsRetryable(replies[k].signal)
    requires replies[j].Granted? || !IsRetryable(replies[j].signal)
    ensures |RefreshAccessToken(replies, retryCount).delays| == j - retryCount
    ensures RefreshAccessToken(replies, retryCount).result ==
              if replies[j].Granted? then Refreshed(replies[j].accessToken) else Failed(replies[j].signal)
    decreases j - retryCount
  {
    if retryCount < j {
      FirstDecisiveAttempt(replies, retryCount + 1, j);
    }
  }

  /** Six retryable failures in a row: five retries after 1, 2, 4, 8 and 16
      seconds, then the sixth failure is rethrown. */
  lemma AllAttemptsRateLimited(replies: seq<TokenReply>)
    requires |replies| == MAX_RETRIES + 1
    requires forall k :: 0 <= k < |replies| ==> replies[k].Rejected? && IsRetryable(replies[k].signal)
    ensures RefreshAccessToken(replies, 0).result == Failed(replies[MAX_RETRIES].signal)
    ensures RefreshAccessToken(replies, 0).delays == [1000, 2000, 4000, 8000, 16000]
    ensures Attempts(RefreshAccessToken(replies, 0)) == 6
  {
    var r := RefreshAccessToken(replies, 0);
    assert |r.delays| == MAX_RETRIES;
    BackoffSchedule(0);
    BackoffSchedule(1);
    BackoffSchedule(2);
    BackoffSchedule(3);
    BackoffSchedule(4);
    assert r.delays == [r.delays[0], r.delays[1], r.delays[2], r.delays[3], r.delays[4]];
  }
}
