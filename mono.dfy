/** The statement fetcher of src/mono.ts. `getStatement` issues up to three
    requests for an account statement, backing off after rate limiting and
    server errors. Each request's outcome is an input here: the response the
    bank sent (status, body text, and what decoding the body as JSON gives)
    or the reason `fetch` rejected. The waits are returned as the list of
    delays, in milliseconds, instead of being slept. */
module Mono {
  import opened Common

  /** `MonobankTransaction`: one statement line, amounts in minor units. */
  datatype Transaction = Transaction(
    id: string,
    time: int,
    description: string,
    mcc: nat,
    originalMcc: Option<nat>,
    amount: int,
    operationAmount: int,
    currencyCode: int,
    commissionRate: int,
    cashbackAmount: Option<int>,
    balance: int,
    hold: Option<bool>)

  const RetryDelays: seq<nat> := [5000, 15000, 30000]

  const MaxAttempts: nat := 3

  /** A response: its status, `response.text()`, and `response.json()`,
      which either decodes to transactions or rejects with a reason. */
  datatype Response = Response(status: nat, text: string, json: Result<seq<Transaction>, string>)

  /** What one `fetch` call gives: a response, or a rejection (network failure). */
  datatype FetchOutcome = Responded(response: Response) | Rejected(reason: string)

  /** Which `throw` an error comes from. The source only has messages; the tag
      is kept alongside so that the origin of a reported error can be stated. */
  datatype ErrorKind = Unauthorized | RateLimitExceeded | ServerFailure | HttpFailure | Thrown | Unknown

  datatype MonoError = MonoError(kind: ErrorKind, message: string)

  /** The whole run: what `getStatement` returns or throws, the delays it
      waited, and how many requests it issued. */
  datatype Statement = Statement(result: Result<seq<Transaction>, MonoError>, delays: seq<nat>, requests: nat)

  function UnauthorizedError(status: nat): MonoError {
    MonoError(Unauthorized, "Monobank API: " + "Unauthorized" + " (" + NatToString(status) + "). Перевірте правильність MONO_TOKEN.")
  }

  const RateLimitError := MonoError(RateLimitExceeded, "Monobank API: Rate limit exceeded. Спробуйте пізніше.")

  function ServerError(status: nat): MonoError {
    MonoError(ServerFailure, "Monobank API: Server error (" + NatToString(status) + ")")
  }

  function HttpError(status: nat, text: string): MonoError {
    MonoError(HttpFailure, "Monobank API: " + NatToString(status) + " - " + text)
  }

  const UnknownError := MonoError(Unknown, "Monobank API: Невідома помилка")

  /** How the `try` block of one attempt ends: `continue` after a delay,
      `return` of the decoded body, or a `throw`. */
  datatype Step = Retry(delay: nat) | Return(transactions: seq<Transaction>) | Throw(error: MonoError)

  /** The `try` block of attempt number `attempt` (counting from 0). */
  function TryAttempt(outcome: FetchOutcome, attempt: nat): Step {
    match outcome
    case Rejected(reason) => Throw(MonoError(Thrown, reason))
    case Responded(r) =>
      if r.status == 401 || r.status == 403 then Throw(UnauthorizedError(r.status))
      else if r.status == 429 then
        if attempt < |RetryDelays| then Retry(RetryDelays[attempt]) else Throw(RateLimitError)
      else if r.status >= 500 then
        if attempt < 2 then
          Retry(if attempt < |RetryDelays| && RetryDelays[attempt] != 0 then RetryDelays[attempt] else 5000)
        else Throw(ServerError(r.status))
      else if !IsOk(r.status) then Throw(HttpError(r.status, r.text))
      else
        match r.json
        case Ok(transactions) => Return(transactions)
        case Err(reason) => Throw(MonoError(Thrown, reason))
  }

  /** The `catch` block rethrows on a credential problem or on the last attempt. */
  predicate Rethrows(error: MonoError, attempt: nat) {
    Contains(error.message, "Unauthorized") || Contains(error.message, "403") || attempt == 2
  }

  /** The run from attempt `attempt` on, with the error last caught and the
      delays waited so far. */
  function Run(outcomes: seq<FetchOutcome>, attempt: nat, lastError: Option<MonoError>, delays: seq<nat>): Statement
    requires |outcomes| >= MaxAttempts && attempt <= MaxAttempts
    decreases MaxAttempts - attempt
  {
    if attempt == MaxAttempts then
      Statement(Err(if lastError.Some? then lastError.value else UnknownError), delays, MaxAttempts)
    else
      match TryAttempt(outcomes[attempt], attempt)
      case Retry(delay) => Run(outcomes, attempt + 1, lastError, delays + [delay])
      case Return(transactions) => Statement(Ok(transactions), delays, attempt + 1)
      case Throw(error) =>
        if Rethrows(error, attempt) then Statement(Err(error), delays, attempt + 1)
        else Run(outcomes, attempt + 1, Some(error), delays)
  }

  /** `getStatement`: request `outcomes[attempt]` on each attempt. */
  method GetStatement(outcomes: seq<FetchOutcome>) returns (result: Result<seq<Transaction>, MonoError>, delays: seq<nat>, requests: nat)
    requires |outcomes| >= MaxAttempts
    ensures Statement(result, delays, requests) == Run(outcomes, 0, None, [])
    ensures 1 <= requests <= MaxAttempts
  {
    var lastError: Option<MonoError> := None;
    delays, requests := [], 0;
    for attempt := 0 to MaxAttempts
      invariant requests == attempt
      invariant Run(outcomes, 0, None, []) == Run(outcomes, attempt, lastError, delays)
    {
      var outcome := outcomes[attempt];
      requests := requests + 1;
      var thrown: MonoError;
      match outcome {
        case Rejected(reason) =>
          thrown := MonoError(Thrown, reason);
        case Responded(response) =>
          if response.status == 401 || response.status == 403 {
            thrown := UnauthorizedError(response.status);
          } else if response.status == 429 {
            if attempt < |RetryDelays| {
              delays := delays + [RetryDelays[attempt]];
              continue;
            } else {
              thrown := RateLimitError;
            }
          } else if response.status >= 500 {
            if attempt < 2 {
              var delay := RetryDelays[attempt];
              delays := delays + [if delay != 0 then delay else 5000];
              continue;
            } else {
              thrown := ServerError(response.status);
            }
          } else if !IsOk(response.status) {
            thrown := HttpError(response.status, response.text);
          } else {
            match response.json {
              case Ok(transactions) =>
                result := Ok(transactions);
                return;
              case Err(reason) =>
                thrown := MonoError(Thrown, reason);
            }
          }
      }
      lastError := Some(thrown);
      if Contains(thrown.message, "Unauthorized") || Contains(thrown.message, "403") {
        result := Err(thrown);
        return;
      }
      if attempt == 2 {
        result := Err(thrown);
        return;
      }
    }
    result := Err(if lastError.Some? then lastError.value else UnknownError);
  }

  /** From any attempt on: the run issues at most three requests, at least one
      more if any attempt is left, only ever appends to the delays, and waits
      at most once per request. */
  lemma {:induction false} RunBounds(outcomes: seq<FetchOutcome>, attempt: nat, lastError: Option<MonoError>, delays: seq<nat>)
    requires |outcomes| >= MaxAttempts && attempt <= MaxAttempts
    ensures var s := Run(outcomes, attempt, lastError, delays);
      && attempt <= s.requests <= MaxAttempts
      && (attempt < MaxAttempts ==> attempt < s.requests)
      && delays <= s.delays
      && |s.delays| - |delays| <= s.requests - attempt
    decreases MaxAttempts - attempt
  {
    if attempt < MaxAttempts {
      match TryAttempt(outcomes[attempt], attempt)
      case Retry(delay) => RunBounds(outcomes, attempt + 1, lastError, delays + [delay]);
      case Return(_) =>
      case Throw(error) =>
        if !Rethrows(error, attempt) {
          RunBounds(outcomes, attempt + 1, Some(error), delays);
        }
    }
  }

  /** Within the three attempts the 429 branch always finds a delay, so the
      "Rate limit exceeded" error is never thrown. */
  lemma TryAttemptNeverRateLimitError(outcome: FetchOutcome, attempt: nat)
    requires attempt < MaxAttempts
    ensures TryAttempt(outcome, attempt).Throw? ==> TryAttempt(outcome, attempt).error.kind != RateLimitExceeded
  {
  }

  /** No run ends with the "Rate limit exceeded" error. */
  lemma {:induction false} RateLimitErrorUnreachable(outcomes: seq<FetchOutcome>, attempt: nat, lastError: Option<MonoError>, delays: seq<nat>)
    requires |outcomes| >= MaxAttempts && attempt <= MaxAttempts
    requires lastError.Some? ==> lastError.value.kind != RateLimitExceeded
    ensures var s := Run(outcomes, attempt, lastError, delays);
      s.result.Err? ==> s.result.error.kind != RateLimitExceeded
    decreases MaxAttempts - attempt
  {
    if attempt < MaxAttempts {
      TryAttemptNeverRateLimitError(outcomes[attempt], attempt);
      match TryAttempt(outcomes[attempt], attempt)
      case Retry(delay) => RateLimitErrorUnreachable(outcomes, attempt + 1, lastError, delays + [delay]);
      case Return(_) =>
      case Throw(error) =>
        if !Rethrows(error, attempt) {
          RateLimitErrorUnreachable(outcomes, attempt + 1, Some(error), delays);
        }
    }
  }

  /** A successful run returns, unchanged, the decoded body of its last
      request, which had an OK status. */
  lemma {:induction false} SuccessIsLastResponseBody(outcomes: seq<FetchOutcome>, attempt: nat, lastError: Option<MonoError>, delays: seq<nat>)
    requires |outcomes| >= MaxAttempts && attempt <= MaxAttempts
    ensures var s := Run(outcomes, attempt, lastError, delays);
      s.result.Ok? ==>
        && 1 <= s.requests <= MaxAttempts
        && outcomes[s.requests - 1].Responded?
        && IsOk(outcomes[s.requests - 1].response.status)
        && outcomes[s.requests - 1].response.json == Ok(s.result.value)
    decreases MaxAttempts - attempt
  {
    if attempt < MaxAttempts {
      match TryAttempt(outcomes[attempt], attempt)
      case Retry(delay) => SuccessIsLastResponseBody(outcomes, attempt + 1, lastError, delays + [delay]);
      case Return(_) =>
      case Throw(error) =>
        if !Rethrows(error, attempt) {
          SuccessIsLastResponseBody(outcomes, attempt + 1, Some(error), delays);
        }
    }
  }

  /** 401 or 403: the run ends after this request, with no further delay and
      an error whose message contains "Unauthorized". */
  lemma UnauthorizedEndsRun(outcomes: seq<FetchOutcome>, attempt: nat, lastError: Option<MonoError>, delays: seq<nat>)
    requires |outcomes| >= MaxAttempts && attempt < MaxAttempts
    requires outcomes[attempt].Responded? && (outcomes[attempt].response.status == 401 || outcomes[attempt].response.status == 403)
    ensures var s := Run(outcomes, attempt, lastError, delays);
      && s == Statement(Err(UnauthorizedError(outcomes[attempt].response.status)), delays, attempt + 1)
      && Contains(s.result.error.message, "Unauthorized")
  {
    var status := outcomes[attempt].response.status;
    var a := "Monobank API: " + "Unauthorized";
    ContainsSuffix("Monobank API: ", "Unauthorized");
    ContainsExtend(a, " (", "Unauthorized");
    ContainsExtend(a + " (", NatToString(status), "Unauthorized");
    ContainsExtend(a + " (" + NatToString(status), "). Перевірте правильність MONO_TOKEN.", "Unauthorized");
  }

  /** 429: wait `RetryDelays[attempt]` and try again; the error last caught is kept. */
  lemma RateLimitedRetries(outcomes: seq<FetchOutcome>, attempt: nat, lastError: Option<MonoError>, delays: seq<nat>)
    requires |outcomes| >= MaxAttempts && attempt < MaxAttempts
    requires outcomes[attempt].Responded? && outcomes[attempt].response.status == 429
    ensures Run(outcomes, attempt, lastError, delays) == Run(outcomes, attempt + 1, lastError, delays + [RetryDelays[attempt]])
  {
  }

  /** A status of 500 or more: on the first two attempts wait 5000 or 15000
      and try again; on the last, fail at once with "Server error (status)". */
  lemma ServerErrorRetries(outcomes: seq<FetchOutcome>, attempt: nat, lastError: Option<MonoError>, delays: seq<nat>)
    requires |outcomes| >= MaxAttempts && attempt < MaxAttempts
    requires outcomes[attempt].Responded? && outcomes[attempt].response.status >= 500
    ensures attempt < 2 ==>
      Run(outcomes, attempt, lastError, delays) == Run(outcomes, attempt + 1, lastError, delays + [if attempt == 0 then 5000 else 15000])
    ensures attempt == 2 ==>
      Run(outcomes, attempt, lastError, delays) == Statement(Err(ServerError(outcomes[attempt].response.status)), delays, MaxAttempts)
  {
  }

  /** Any other status that is not OK throws "status - body", which the catch
      block retries at once, without a delay, unless the message mentions
      "Unauthorized" or "403" or this was the last attempt. */
  lemma OtherStatusRetriedWithoutDelay(outcomes: seq<FetchOutcome>, attempt: nat, lastError: Option<MonoError>, delays: seq<nat>)
    requires |outcomes| >= MaxAttempts && attempt < MaxAttempts
    requires outcomes[attempt].Responded?
    requires var status := outcomes[attempt].response.status;
      !IsOk(status) && status < 500 && status != 401 && status != 403 && status != 429
    ensures var r := outcomes[attempt].response;
      var error := HttpError(r.status, r.text);
      Run(outcomes, attempt, lastError, delays) ==
        if Rethrows(error, attempt) then Statement(Err(error), delays, attempt + 1)
        else Run(outcomes, attempt + 1, Some(error), delays)
  {
  }

  /** A rejected `fetch` or a body that is not valid JSON takes the same catch
      path: an immediate retry without delay, rethrown on the last attempt. */
  lemma ThrownRetriedWithoutDelay(outcomes: seq<FetchOutcome>, attempt: nat, lastError: Option<MonoError>, delays: seq<nat>, reason: string)
    requires |outcomes| >= MaxAttempts && attempt < MaxAttempts
    requires outcomes[attempt] == Rejected(reason)
      || (outcomes[attempt].Responded? && IsOk(outcomes[attempt].response.status) && outcomes[attempt].response.json == Err(reason))
    ensures var error := MonoError(Thrown, reason);
      Run(outcomes, attempt, lastError, delays) ==
        if Rethrows(error, attempt) then Statement(Err(error), delays, attempt + 1)
        else Run(outcomes, attempt + 1, Some(error), delays)
  {
  }

  /** An OK status whose body decodes returns that body unchanged. */
  lemma OkReturnsBody(outcomes: seq<FetchOutcome>, attempt: nat, lastError: Option<MonoError>, delays: seq<nat>)
    requires |outcomes| >= MaxAttempts && attempt < MaxAttempts
    requires outcomes[attempt].Responded? && IsOk(outcomes[attempt].response.status)
    requires outcomes[attempt].response.json.Ok?
    ensures Run(outcomes, attempt, lastError, delays) ==
      Statement(Ok(outcomes[attempt].response.json.value), delays, attempt + 1)
  {
  }

  /** 401 on the first request: one request, no delay, the retry budget unused. */
  lemma UnauthorizedFirstAttempt(outcomes: seq<FetchOutcome>)
    requires |outcomes| >= MaxAttempts
    requires outcomes[0].Responded? && outcomes[0].response.status == 401
    ensures Run(outcomes, 0, None, []) == Statement(Err(UnauthorizedError(401)), [], 1)
  {
    UnauthorizedEndsRun(outcomes, 0, None, []);
  }

  /** Responses 429, 429, 200: two delayed retries, 5000 then 15000, and the
      body of the third response. */
  lemma RateLimitThenSuccess(outcomes: seq<FetchOutcome>, body: seq<Transaction>)
    requires |outcomes| == MaxAttempts
    requires outcomes[0].Responded? && outcomes[0].response.status == 429
    requires outcomes[1].Responded? && outcomes[1].response.status == 429
    requires outcomes[2].Responded? && outcomes[2].response.status == 200 && outcomes[2].response.json == Ok(body)
    ensures Run(outcomes, 0, None, []) == Statement(Ok(body), [5000, 15000], 3)
  {
  }

  /** Three 429s: all three delays are waited, the last one for nothing, and
      the run fails with the "unknown error", not with a rate-limit error. */
  lemma RateLimitedThrice(outcomes: seq<FetchOutcome>)
    requires |outcomes| == MaxAttempts
    requires forall k :: 0 <= k < MaxAttempts ==> outcomes[k].Responded? && outcomes[k].response.status == 429
    ensures Run(outcomes, 0, None, []) == Statement(Err(UnknownError), [5000, 15000, 30000], 3)
  {
    assert outcomes[0].response.status == 429;
    assert outcomes[1].response.status == 429;
    assert outcomes[2].response.status == 429;
  }

  /** A network failure followed by two 429s: the failure is retried at once,
      the 429s wait 15000 and 30000, and the run fails with the network error. */
  lemma NetworkFailureThenRateLimited(outcomes: seq<FetchOutcome>, reason: string)
    requires |outcomes| == MaxAttempts
    requires outcomes[0] == Rejected(reason)
    requires !Contains(reason, "Unauthorized") && !Contains(reason, "403")
    requires outcomes[1].Responded? && outcomes[1].response.status == 429
    requires outcomes[2].Responded? && outcomes[2].response.status == 429
    ensures Run(outcomes, 0, None, []) == Statement(Err(MonoError(Thrown, reason)), [15000, 30000], 3)
  {
  }
}
