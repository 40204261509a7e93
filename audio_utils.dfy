/**
 * The client-side wrappers around the transcription and translation
 * endpoints: at most three requests, a retry only after HTTP 429 with a
 * capped exponential backoff plus jitter, and a typed error otherwise.
 *
 * The network is replaced by the sequence of answers the first, second and
 * third request would get (a response, or a rejected `fetch`); `Math.random`
 * by the jitter drawn before each retry.
 */
module AudioUtils {
  import opened Wrappers
  import JsText

  const MaxAttempts: nat := 3
  const MaxBackoffMs: nat := 8000
  const RateLimited: nat := 429

  /** `Math.floor(Math.random() * 250)`: an integer in [0, 249]. */
  type Jitter = j: nat | j < 250

  /**
   * A response body as `response.json()` sees it: not JSON at all, the JSON
   * `null`, or a JSON value whose string fields may be missing. `payload` is
   * the success field (`text` for transcription, `translatedText` for
   * translation).
   */
  datatype Body =
    | Unparseable
    | JsonNull
    | Json(error: Option<string>, message: Option<string>, payload: Option<string>)

  /** What one `fetch` gave: a response, or a rejection (network error, abort). */
  datatype Response = Response(status: nat, body: Body) | Rejected

  /** `response.ok`: a response with a 2xx status. */
  predicate IsOk(r: Response) {
    r.Response? && 200 <= r.status <= 299
  }

  /** A response with HTTP 429. */
  predicate IsRateLimited(r: Response) {
    r.Response? && r.status == RateLimited
  }

  /** The two endpoints, which differ only in backoff base and error shape. */
  datatype Service = Transcribe | Translate

  function BaseDelayMs(s: Service): nat {
    match s
    case Transcribe => 1000
    case Translate => 1200
  }

  function Pow2(n: nat): (p: nat)
    ensures p >= 1
  {
    if n == 0 then 1 else 2 * Pow2(n - 1)
  }

  /** The wait before retrying after attempt `attempt`: `min(8000, base * 2^(attempt-1)) + jitter`. */
  function BackoffDelay(base: nat, attempt: nat, jitter: Jitter): (d: nat)
    requires attempt >= 1
    ensures base * Pow2(attempt - 1) <= MaxBackoffMs ==> d == base * Pow2(attempt - 1) + jitter
    ensures base * Pow2(attempt - 1) >= MaxBackoffMs ==> d == MaxBackoffMs + jitter
  {
    Min(MaxBackoffMs, base * Pow2(attempt - 1)) + jitter
  }

  /** No backoff delay exceeds the cap plus the largest jitter. */
  lemma BackoffBounded(base: nat, attempt: nat, jitter: Jitter)
    requires attempt >= 1
    ensures BackoffDelay(base, attempt, jitter) <= MaxBackoffMs + 249
  {
  }

  /**
   * Whatever the jitters, the second wait is longer than the first, as long
   * as the base exceeds the jitter range and its double stays under the cap
   * (both bases in use, 1000 and 1200, qualify).
   */
  lemma SecondBackoffLonger(base: nat, j1: Jitter, j2: Jitter)
    requires 250 <= base && 2 * base <= MaxBackoffMs
    ensures BackoffDelay(base, 2, j2) > BackoffDelay(base, 1, j1)
  {
    assert Pow2(1) == 2;
  }

  /** The default message of `parseErrorMessage`: "请求失败（<status>）". */
  function StatusFallback(status: nat): string {
    "请求失败（" + JsText.NatToString(status) + "）"
  }

  /** The default message still names the status: it can be read back out. */
  lemma StatusFallbackNamesStatus(status: nat)
    ensures var m := StatusFallback(status);
      && |m| >= 3
      && JsText.AllDigits(m[5..|m| - 1])
      && JsText.DigitsValue(m[5..|m| - 1]) == status
  {
    var m := StatusFallback(status);
    assert m[5..|m| - 1] == JsText.NatToString(status);
    JsText.NatToStringRoundTrip(status);
  }

  /**
   * `parseErrorMessage`: the body's `error` if it is a non-empty string,
   * else its `message` if non-empty, else the default naming the status.
   * A body that is not JSON falls through to the default.
   */
  function ParseErrorMessage(r: Response): (m: string)
    requires r.Response?
    ensures m != ""
    ensures r.body.Json? && Truthy(r.body.error) ==> m == r.body.error.value
    ensures r.body.Json? && !Truthy(r.body.error) && Truthy(r.body.message) ==> m == r.body.message.value
    ensures !(r.body.Json? && (Truthy(r.body.error) || Truthy(r.body.message))) ==> m == StatusFallback(r.status)
  {
    match r.body
    case Unparseable => StatusFallback(r.status)
    case JsonNull => StatusFallback(r.status)
    case Json(error, message, _) =>
      if Truthy(error) then error.value
      else if Truthy(message) then message.value
      else StatusFallback(r.status)
  }

  /**
   * What a call throws: an HTTP error (translation errors carry the status);
   * for a 2xx response, the JSON parse error of its body, or the `TypeError`
   * of reading the success field of a `null` body; or the rejection of
   * `fetch` itself, passed on unchanged.
   */
  datatype Failure = HttpError(message: string, status: Option<nat>) | BodyParseError | NullBodyAccess | FetchRejected

  /** How a call ends: it returns the success field (`None` for `undefined`) or throws. */
  datatype Outcome = Returned(value: Option<string>) | Threw(failure: Failure)

  /** The result of the first OK response. */
  function OkOutcome(r: Response): (o: Outcome)
    requires r.Response?
    ensures o.Returned? <==> r.body.Json?
    ensures o.Returned? ==> o.value == r.body.payload
    ensures r.body.Unparseable? ==> o == Threw(BodyParseError)
    ensures r.body.JsonNull? ==> o == Threw(NullBodyAccess)
  {
    match r.body
    case Unparseable => Threw(BodyParseError)
    case JsonNull => Threw(NullBodyAccess)
    case Json(_, _, payload) => Returned(payload)
  }

  /**
   * The error thrown after a non-OK response that is not retried. The
   * `message || ...` defaults written in the source are kept; they are never
   * taken, because `ParseErrorMessage` is never empty.
   */
  function FailureFor(s: Service, r: Response): (f: Failure)
    requires r.Response?
    ensures f.HttpError? && f.message == ParseErrorMessage(r)
    ensures f.status == (if s == Translate then Some(r.status) else None)
  {
    var m := ParseErrorMessage(r);
    var status := r.status;
    match s
    case Transcribe => HttpError(if m != "" then m else "转写失败", None)
    case Translate => HttpError(if m != "" then m else "翻译失败（" + JsText.NatToString(status) + "）", Some(status))
  }

  /**
   * How a call ends on an answer that is not retried: a rejection is passed
   * on, an OK response gives `OkOutcome`, any other response throws its
   * `FailureFor`.
   */
  function StopOutcome(s: Service, r: Response): (o: Outcome)
    ensures r.Rejected? ==> o == Threw(FetchRejected)
    ensures IsOk(r) ==> o == OkOutcome(r)
    ensures r.Response? && !IsOk(r) ==> o == Threw(FailureFor(s, r))
  {
    if r.Rejected? then Threw(FetchRejected)
    else if IsOk(r) then OkOutcome(r)
    else Threw(FailureFor(s, r))
  }

  /** One call: how it ended, how many requests it made, and the waits between them. */
  datatype Run = Run(outcome: Outcome, requests: nat, delays: seq<nat>)

  /**
   * The call as it proceeds from attempt `attempt` on: it makes between
   * `attempt` and three requests, and waits once before each of them but the
   * first.
   */
  function RunFrom(s: Service, responses: seq<Response>, jitters: seq<Jitter>, attempt: nat): (run: Run)
    requires 1 <= attempt <= MaxAttempts
    requires |responses| >= MaxAttempts && |jitters| >= MaxAttempts - 1
    ensures attempt <= run.requests <= MaxAttempts
    ensures |run.delays| == run.requests - attempt
    decreases MaxAttempts - attempt
  {
    var r := responses[attempt - 1];
    if IsRateLimited(r) && attempt < MaxAttempts then
      var rest := RunFrom(s, responses, jitters, attempt + 1);
      Run(rest.outcome, rest.requests, [BackoffDelay(BaseDelayMs(s), attempt, jitters[attempt - 1])] + rest.delays)
    else Run(StopOutcome(s, r), attempt, [])
  }

  /** A whole call of `transcribeAudio` or `translateText`: one to three requests. */
  function Call(s: Service, responses: seq<Response>, jitters: seq<Jitter>): (run: Run)
    requires |responses| >= MaxAttempts && |jitters| >= MaxAttempts - 1
    ensures 1 <= run.requests <= MaxAttempts
  {
    RunFrom(s, responses, jitters, 1)
  }

  /** A run that stops at response `k` (0-based) was retried exactly on 429 before it. */
  ghost predicate StopsAt(responses: seq<Response>, k: nat)
    requires k < |responses|
  {
    && (forall i :: 0 <= i < k ==> IsRateLimited(responses[i]))
    && (!IsRateLimited(responses[k]) || k == MaxAttempts - 1)
  }

  /** The end of a run from attempt `a`, and what it did in between. */
  lemma {:induction false} RunFromShape(s: Service, responses: seq<Response>, jitters: seq<Jitter>, a: nat)
    requires 1 <= a <= MaxAttempts
    requires |responses| >= MaxAttempts && |jitters| >= MaxAttempts - 1
    ensures var run := RunFrom(s, responses, jitters, a);
      && a <= run.requests <= MaxAttempts
      && |run.delays| == run.requests - a
      && (forall i :: a - 1 <= i < run.requests - 1 ==> IsRateLimited(responses[i]))
      && (forall i :: 0 <= i < |run.delays| ==>
            run.delays[i] == BackoffDelay(BaseDelayMs(s), a + i, jitters[a - 1 + i]))
      && var last := responses[run.requests - 1];
      && (!IsRateLimited(last) || run.requests == MaxAttempts)
      && run.outcome == StopOutcome(s, last)
    decreases MaxAttempts - a
  {
    var r := responses[a - 1];
    if IsRateLimited(r) && a < MaxAttempts {
      RunFromShape(s, responses, jitters, a + 1);
    }
  }

  /**
   * Every call makes between one and three requests and waits once between
   * consecutive requests; it retries exactly after each 429 that was not the
   * third response, and stops at the first other response or rejection.
   */
  lemma CallShape(s: Service, responses: seq<Response>, jitters: seq<Jitter>)
    requires |responses| >= MaxAttempts && |jitters| >= MaxAttempts - 1
    ensures var run := Call(s, responses, jitters);
      && 1 <= run.requests <= MaxAttempts
      && |run.delays| == run.requests - 1
      && StopsAt(responses, run.requests - 1)
  {
    RunFromShape(s, responses, jitters, 1);
  }

  /** The waits before retries 1 to n: `BackoffDelay` of each attempt with its jitter. */
  function Schedule(s: Service, jitters: seq<Jitter>, n: nat): (d: seq<nat>)
    requires n <= |jitters|
    ensures |d| == n
    ensures forall i :: 0 <= i < n ==> d[i] == BackoffDelay(BaseDelayMs(s), i + 1, jitters[i])
  {
    if n == 0 then [] else Schedule(s, jitters, n - 1) + [BackoffDelay(BaseDelayMs(s), n, jitters[n - 1])]
  }

  /**
   * A call whose answers stop at index k makes k+1 requests, waits by the
   * backoff schedule before each retry, and ends as that answer says.
   */
  lemma CallStopsAt(s: Service, responses: seq<Response>, jitters: seq<Jitter>, k: nat)
    requires |responses| >= MaxAttempts && |jitters| >= MaxAttempts - 1 && k < MaxAttempts
    requires StopsAt(responses, k)
    ensures Call(s, responses, jitters) == Run(StopOutcome(s, responses[k]), k + 1, Schedule(s, jitters, k))
  {
    var run := Call(s, responses, jitters);
    CallShape(s, responses, jitters);
    RunFromShape(s, responses, jitters, 1);
    StopIsUnique(responses, run.requests - 1, k);
    assert run.delays == Schedule(s, jitters, k);
  }

  /** The number of requests is the first stopping point, and there is only one. */
  lemma StopIsUnique(responses: seq<Response>, j: nat, k: nat)
    requires j < |responses| && k < |responses|
    requires j < MaxAttempts && k < MaxAttempts
    requires StopsAt(responses, j) && StopsAt(responses, k)
    ensures j == k
  {
  }

  /**
   * The first OK response ends the call: its success field is returned and
   * no further request is made.
   */
  lemma FirstOkReturns(s: Service, responses: seq<Response>, jitters: seq<Jitter>, k: nat)
    requires |responses| >= MaxAttempts && |jitters| >= MaxAttempts - 1
    requires k < MaxAttempts && IsOk(responses[k])
    requires forall i :: 0 <= i < k ==> IsRateLimited(responses[i])
    ensures Call(s, responses, jitters).requests == k + 1
    ensures Call(s, responses, jitters).outcome == OkOutcome(responses[k])
    ensures responses[k].body.Json? ==> Call(s, responses, jitters).outcome == Returned(responses[k].body.payload)
  {
    CallShape(s, responses, jitters);
    RunFromShape(s, responses, jitters, 1);
    StopIsUnique(responses, Call(s, responses, jitters).requests - 1, k);
  }

  /**
   * A call returns a value only from an OK response with a JSON body, throws
   * an HTTP error exactly when the last answer is a response that is not OK,
   * and passes a rejected `fetch` on exactly when the last answer is one.
   */
  lemma OutcomeFromLastResponse(s: Service, responses: seq<Response>, jitters: seq<Jitter>)
    requires |responses| >= MaxAttempts && |jitters| >= MaxAttempts - 1
    ensures var run := Call(s, responses, jitters);
      var last := responses[run.requests - 1];
      && (run.outcome.Returned? <==> IsOk(last) && last.body.Json?)
      && (run.outcome.Returned? ==> run.outcome.value == last.body.payload)
      && (run.outcome.Threw? && run.outcome.failure.HttpError? <==> last.Response? && !IsOk(last))
      && (run.outcome == Threw(FetchRejected) <==> last.Rejected?)
      && (last.Response? && !IsOk(last) ==> run.outcome.failure.message == ParseErrorMessage(last))
  {
    RunFromShape(s, responses, jitters, 1);
  }

  /**
   * A translation error carries the status of the last response — 429 too,
   * when the third response is still rate-limited; a transcription error
   * carries none.
   */
  lemma ErrorStatusIsLastStatus(s: Service, responses: seq<Response>, jitters: seq<Jitter>)
    requires |responses| >= MaxAttempts && |jitters| >= MaxAttempts - 1
    ensures var run := Call(s, responses, jitters);
      run.outcome.Threw? && run.outcome.failure.HttpError? ==>
        run.outcome.failure.status ==
          (if s == Translate then Some(responses[run.requests - 1].status) else None)
  {
    RunFromShape(s, responses, jitters, 1);
  }

  /**
   * A rejected `fetch` is never retried: after k 429s it ends the call at
   * request k+1, after k waits, with the rejection.
   */
  lemma RejectedFetchPropagates(s: Service, responses: seq<Response>, jitters: seq<Jitter>, k: nat)
    requires |responses| >= MaxAttempts && |jitters| >= MaxAttempts - 1
    requires k < MaxAttempts && responses[k].Rejected?
    requires forall i :: 0 <= i < k ==> IsRateLimited(responses[i])
    ensures var run := Call(s, responses, jitters);
      run.requests == k + 1 && |run.delays| == k && run.outcome == Threw(FetchRejected)
  {
    CallShape(s, responses, jitters);
    RunFromShape(s, responses, jitters, 1);
    StopIsUnique(responses, Call(s, responses, jitters).requests - 1, k);
  }

  /** Three 429s in a row: three requests, two waits, and an error with status 429. */
  lemma ThreeRateLimitsGiveUp(responses: seq<Response>, jitters: seq<Jitter>)
    requires |responses| >= MaxAttempts && |jitters| >= MaxAttempts - 1
    requires forall i :: 0 <= i < MaxAttempts ==> IsRateLimited(responses[i])
    ensures var run := Call(Translate, responses, jitters);
      && run.requests == MaxAttempts
      && |run.delays| == 2
      && responses[2].Response?
      && run.outcome == Threw(HttpError(ParseErrorMessage(responses[2]), Some(RateLimited)))
  {
    RunFromShape(Translate, responses, jitters, 1);
  }

  /**
   * The waits are the backoff schedule: `min(8000, base * 2^i) + jitter_i`
   * before retry i+1; each is at most 8249 ms and the second is longer than
   * the first.
   */
  lemma DelaysFollowBackoff(s: Service, responses: seq<Response>, jitters: seq<Jitter>)
    requires |responses| >= MaxAttempts && |jitters| >= MaxAttempts - 1
    ensures var d := Call(s, responses, jitters).delays;
      && (forall i :: 0 <= i < |d| ==> d[i] == BackoffDelay(BaseDelayMs(s), i + 1, jitters[i]))
      && (forall i :: 0 <= i < |d| ==> BaseDelayMs(s) <= d[i] <= MaxBackoffMs + 249)
      && (|d| == 2 ==> d[1] > d[0])
  {
    RunFromShape(s, responses, jitters, 1);
    var d := Call(s, responses, jitters).delays;
    forall i | 0 <= i < |d|
      ensures BaseDelayMs(s) <= d[i] <= MaxBackoffMs + 249
    {
      assert i == 0 || i == 1;
      assert Pow2(1) == 2;
    }
    if |d| == 2 {
      SecondBackoffLonger(BaseDelayMs(s), jitters[0], jitters[1]);
    }
  }

  /**
   * The loop of `transcribeAudio` / `translateText`: one request per
   * attempt; a rejection propagates, an OK response returns, a 429 before the
   * last attempt waits and continues, any other response throws. The throw
   * after the loop can never be reached.
   */
  method RequestWithRetry(s: Service, responses: seq<Response>, jitters: seq<Jitter>)
    returns (outcome: Outcome, requests: nat, delays: seq<nat>)
    requires |responses| >= MaxAttempts && |jitters| >= MaxAttempts - 1
    ensures Run(outcome, requests, delays) == Call(s, responses, jitters)
  {
    outcome, requests, delays := Threw(BodyParseError), 0, [];
    var attempt: nat := 1;
    while attempt <= MaxAttempts
      invariant 1 <= attempt <= MaxAttempts
      invariant requests == attempt - 1
      invariant forall i :: 0 <= i < attempt - 1 ==> IsRateLimited(responses[i])
      invariant delays == Schedule(s, jitters, attempt - 1)
      decreases MaxAttempts - attempt
    {
      var response := responses[attempt - 1];
      requests := requests + 1;
      if response.Rejected? {
        outcome := Threw(FetchRejected);
        CallStopsAt(s, responses, jitters, attempt - 1);
        return;
      }
      if IsOk(response) {
        outcome := OkOutcome(response);
        CallStopsAt(s, responses, jitters, attempt - 1);
        return;
      }
      if response.status == RateLimited && attempt < MaxAttempts {
        var delayMs := BackoffDelay(BaseDelayMs(s), attempt, jitters[attempt - 1]);
        delays := delays + [delayMs];
        attempt := attempt + 1;
        continue;
      }
      outcome := Threw(FailureFor(s, response));
      CallStopsAt(s, responses, jitters, attempt - 1);
      return;
    }
    assert false;
  }

  /** `transcribeAudio`: errors carry the server's message and no status. */
  method TranscribeAudio(responses: seq<Response>, jitters: seq<Jitter>)
    returns (outcome: Outcome, requests: nat, delays: seq<nat>)
    requires |responses| >= MaxAttempts && |jitters| >= MaxAttempts - 1
    ensures Run(outcome, requests, delays) == Call(Transcribe, responses, jitters)
    ensures 1 <= requests <= MaxAttempts && |delays| == requests - 1
    ensures outcome.Threw? && outcome.failure.HttpError? ==>
      && responses[requests - 1].Response?
      && outcome.failure.status.None? && outcome.failure.message == ParseErrorMessage(responses[requests - 1])
    ensures outcome == Threw(FetchRejected) <==> responses[requests - 1].Rejected?
  {
    outcome, requests, delays := RequestWithRetry(Transcribe, responses, jitters);
    CallShape(Transcribe, responses, jitters);
    OutcomeFromLastResponse(Transcribe, responses, jitters);
    ErrorStatusIsLastStatus(Transcribe, responses, jitters);
  }

  /** `translateText`: errors carry the server's message and the last status. */
  method TranslateText(responses: seq<Response>, jitters: seq<Jitter>)
    returns (outcome: Outcome, requests: nat, delays: seq<nat>)
    requires |responses| >= MaxAttempts && |jitters| >= MaxAttempts - 1
    ensures Run(outcome, requests, delays) == Call(Translate, responses, jitters)
    ensures 1 <= requests <= MaxAttempts && |delays| == requests - 1
    ensures outcome.Threw? && outcome.failure.HttpError? ==>
      && responses[requests - 1].Response?
      && outcome.failure.status == Some(responses[requests - 1].status)
      && outcome.failure.message == ParseErrorMessage(responses[requests - 1])
    ensures outcome == Threw(FetchRejected) <==> responses[requests - 1].Rejected?
  {
    outcome, requests, delays := RequestWithRetry(Translate, responses, jitters);
    CallShape(Translate, responses, jitters);
    OutcomeFromLastResponse(Translate, responses, jitters);
    ErrorStatusIsLastStatus(Translate, responses, jitters);
  }

  /** What `sleep(ms, signal)` does when called. */
  datatype SleepStart = ResolvedImmediately | RejectedAborted | TimerSet(ms: nat)

  /**
   * `sleep`: a non-positive wait resolves at once, before the signal is even
   * looked at; otherwise an already-aborted signal rejects, else a timer is set.
   */
  function Sleep(ms: int, aborted: bool): (r: SleepStart)
    ensures ms <= 0 <==> r == ResolvedImmediately
    ensures r.TimerSet? <==> ms > 0 && !aborted
    ensures r.TimerSet? ==> r.ms == ms
  {
    if ms <= 0 then ResolvedImmediately
    else if aborted then RejectedAborted
    else TimerSet(ms)
  }

  /** Every backoff wait of a call is a real timer of that length (never zero). */
  lemma RetryWaitsSetTimers(s: Service, responses: seq<Response>, jitters: seq<Jitter>)
    requires |responses| >= MaxAttempts && |jitters| >= MaxAttempts - 1
    ensures var d := Call(s, responses, jitters).delays;
      forall i :: 0 <= i < |d| ==> Sleep(d[i], false) == TimerSet(d[i])
  {
    DelaysFollowBackoff(s, responses, jitters);
  }
}
