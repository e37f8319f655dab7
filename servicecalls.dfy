/** The three entry points of the API client — `analyzeSymptoms`, `askAI` and
    `testApiConnection` — as functions of the client state (the request gate and the cache),
    the clock reading at the call, and what the network returns. The class
    `AiService.Service` runs the same steps on its fields and is proved to agree with these
    functions. */
module ServiceCalls {
  import opened Wrappers
  import opened JsText
  import opened JsNumber
  import opened ServiceTypes
  import opened Vitals
  import opened RateLimit
  import opened ResponseCache
  import opened ResponseParser

  const MAX_RETRIES: nat := 3
  const RETRY_DELAY: int := 1000

  const NO_SYMPTOM: string := "請選擇至少一個症狀"
  const FORBIDDEN: string := "API 訪問被拒絕，請檢查 API 金鑰和請求設置"
  const RATE_LIMITED: string := "請求過於頻繁，請稍後再試"
  const AUTH_FAILED: string := "API 驗證失敗，請檢查設置"
  const TIMED_OUT: string := "請求超時，請檢查網絡連接"
  const BAD_JSON: string := "AI 回應格式錯誤，請重試"
  const ANALYSIS_FAILED: string := "AI分析失敗，請稍後重試"

  const NO_KEY: string := "API 金鑰未設置，請檢查環境變量"
  const EMPTY_REPLY: string := "API 返回格式異常"
  const ASK_AUTH_FAILED: string := "API 驗證失敗，請檢查 API 金鑰"
  const ASK_FAILED: string := "無法獲取回答，請稍後重試"

  const NO_BALANCE: string := "API 帳戶餘額不足，請充值後重試"
  const KEY_INVALID: string := "API 金鑰無效或已過期"
  const TEST_RATE_LIMITED: string := "請求過於頻繁，請稍後重試"
  const CONNECTION_FAILED: string := "API 連接失敗: "
  const TEST_NO_KEY: string := "API 金鑰未設置"

  /** The module-level mutable state of the client. */
  datatype ServiceState = ServiceState(limiter: Limiter, cache: Cache)

  /** The state right after the module is loaded. */
  function Loaded(loadTime: int): (st: ServiceState)
    ensures st.limiter == Initial(loadTime) && st.cache == map[]
    ensures WellTyped(st.cache) && Invariant(st.limiter)
  {
    ServiceState(Initial(loadTime), map[])
  }

  // ---------------------------------------------------------------------------------------
  // Input checks of analyzeSymptoms
  // ---------------------------------------------------------------------------------------

  /** `parseFloat(temperature)`: a number goes through its decimal text; `None` is `NaN`. */
  function ParsedTemperature(t: Temperature): (r: Option<real>)
    ensures t.Num? ==> r == Some(Value(t.value))
    ensures t.Text? ==> (r.Some? <==> ParseFloat(t.text).Some?)
  {
    match t
    case Num(d) => Some(Value(d))
    case Text(s) =>
      var p := ParseFloat(s);
      if p.Some? then Some(Value(p.value)) else None
  }

  /** The sentinel `'unknown'` skips the temperature check; anything else is parsed and checked. */
  predicate TemperatureAccepted(t: Temperature) {
    t == Text("unknown") || ValidateTemperature(ParsedTemperature(t))
  }

  /** A numeric temperature is accepted exactly inside 35..42.5; a text that does not start with
      a number parses to `NaN`, which the check lets through. */
  lemma {:induction false} TemperatureAcceptance(t: Temperature)
    ensures t.Num? ==>
      (TemperatureAccepted(t) <==> TEMPERATURE_MIN <= Value(t.value) <= TEMPERATURE_MAX)
    ensures t.Text? && ParseFloat(t.text).None? ==> TemperatureAccepted(t)
  {
  }

  /** Both checks `analyzeSymptoms` runs before the cache and the gate. */
  predicate InputAccepted(data: Intake) {
    |data.symptoms| > 0 && TemperatureAccepted(data.vitalSigns.temperature)
  }

  // ---------------------------------------------------------------------------------------
  // analyzeSymptoms
  // ---------------------------------------------------------------------------------------

  /** One pass through the `try` block: what it returned or threw, the state after it, and the
      clock reading when it finished. */
  datatype Attempt = Attempt(outcome: Result<Assessment, JsError>, state: ServiceState, finished: int)

  /** The `try` block of `analyzeSymptoms`, at clock reading `now`, with `ex` as the answer
      the request would get. */
  function TryAnalyze(st: ServiceState, data: Intake, now: int, ex: Exchange, parse: JsonParser): (a: Attempt)
    requires WellTyped(st.cache)
    ensures WellTyped(a.state.cache) && a.finished >= now
    ensures Invariant(st.limiter) ==> Invariant(a.state.limiter)
    ensures !InputAccepted(data) ==> a.outcome.Failure? && a.state == st && a.finished == now
    ensures |data.symptoms| == 0 ==> a.outcome == Failure(Thrown(NO_SYMPTOM))
    ensures |data.symptoms| > 0 && !TemperatureAccepted(data.vitalSigns.temperature) ==>
      a.outcome == Failure(Thrown(TEMPERATURE_ERROR))
    ensures a.outcome.Success? ==>
      InputAccepted(data) && RequestKey(data) in a.state.cache
      && a.state.cache[RequestKey(data)].data == Assessed(a.outcome.value)
  {
    if |data.symptoms| == 0 then
      Attempt(Failure(Thrown(NO_SYMPTOM)), st, now)
    else if !TemperatureAccepted(data.vitalSigns.temperature) then
      Attempt(Failure(Thrown(TEMPERATURE_ERROR)), st, now)
    else
      var hit := CheckCache(st.cache, RequestKey(data), now);
      if hit.Some? then
        assert hit.value.Assessed?;
        Attempt(Success(hit.value.assessment), st, now)
      else
        var (admission, limiter) := CheckRequestLimit(st.limiter, now);
        if !admission.Admitted? then
          Attempt(Failure(Thrown(RejectionMessage(admission))), ServiceState(limiter, st.cache), now)
        else
          SendAnalysis(ServiceState(limiter, st.cache), data, now, ex, parse)
  }

  /** The admitted part of the `try` block: send the request, parse the reply and store the
      assessment, stamped when the reply arrived. */
  function SendAnalysis(st: ServiceState, data: Intake, now: int, ex: Exchange, parse: JsonParser): (a: Attempt)
    requires WellTyped(st.cache)
    ensures WellTyped(a.state.cache) && a.finished == now + ex.latency
    ensures a.state.limiter == st.limiter
    ensures a.outcome.Failure? ==> a.state == st
    ensures ex.reply.Failed? ==> a.outcome == Failure(ReplyError(ex.reply))
    ensures ex.reply.Delivered? && ParseReply(ex.reply.content, parse).Failure? ==>
      a.outcome == ParseReply(ex.reply.content, parse)
    ensures a.outcome.Success? ==>
      && ex.reply.Delivered? && a.outcome == ParseReply(ex.reply.content, parse)
      && a.state.cache == SetCache(st.cache, RequestKey(data), Assessed(a.outcome.value), now + ex.latency)
  {
    var done := now + ex.latency;
    match ex.reply
    case Failed(_, _, _, _) => Attempt(Failure(ReplyError(ex.reply)), st, done)
    case Delivered(content) =>
      match ParseReply(content, parse)
      case Failure(e) => Attempt(Failure(e), st, done)
      case Success(result) =>
        StoreKeepsWellTyped(st.cache, RequestKey(data), Assessed(result), done);
        Attempt(Success(result),
                ServiceState(st.limiter, SetCache(st.cache, RequestKey(data), Assessed(result), done)),
                done)
  }

  /** The condition under which the `catch` block retries (before looking at the count). */
  predicate Retryable(e: JsError) {
    e.code == Some(TIMEOUT_CODE) || (e.status.Some? && e.status.value >= 500)
  }

  /** The last part of the `catch` block: the message `analyzeSymptoms` finally throws. An error
      of the client's own checks (no status, no code, no `JSON` in its text) is rethrown with its
      own message. */
  function AnalysisMessage(e: JsError): (m: string)
    ensures m != ""
    ensures e.status == Some(429) ==> m == RATE_LIMITED
    ensures e.status == Some(401) ==> m == AUTH_FAILED
    ensures e.status != Some(429) && e.status != Some(401) && e.code == Some(TIMEOUT_CODE) ==>
      m == TIMED_OUT
    ensures e.status != Some(429) && e.status != Some(401) && e.code != Some(TIMEOUT_CODE) ==>
      && (Contains(e.message, "JSON") ==> m == BAD_JSON)
      && (!Contains(e.message, "JSON") && e.message != "" ==> m == e.message)
      && (e.message == "" ==> m == ANALYSIS_FAILED)
  {
    if e.status == Some(429) then RATE_LIMITED
    else if e.status == Some(401) then AUTH_FAILED
    else if e.code == Some(TIMEOUT_CODE) then TIMED_OUT
    else if Contains(e.message, "JSON") then BAD_JSON
    else if e.message != "" then e.message
    else ANALYSIS_FAILED
  }
  /** A timeout on the last permitted retry is not retried again: it reaches the caller as the
      timeout message. */
  lemma {:induction false} TimeoutOutlivesRetries(st: ServiceState, data: Intake, now: int, net: Network, parse: JsonParser)
    requires WellTyped(st.cache)
    requires TryAnalyze(st, data, now, net(MAX_RETRIES), parse).outcome.Failure?
    requires var e := TryAnalyze(st, data, now, net(MAX_RETRIES), parse).outcome.error;
      e.code == Some(TIMEOUT_CODE) && e.status.None?
    ensures var r := Analyze(st, data, MAX_RETRIES, now, net, parse);
      r.result == Failure(TIMED_OUT) && r.retries == 0
  {
  }

  /** An error of the client's own checks (no status, no code, no `JSON` in its non-empty text)
      is rethrown with its own message. */
  lemma OwnMessageKept(e: JsError)
    requires e.status.None? && e.code.None? && 'J' !in e.message && e.message != ""
    ensures AnalysisMessage(e) == e.message
  {
    if Contains(e.message, "JSON") {
      JsonNeedsJ(e.message);
    }
  }


  /** What one call of `analyzeSymptoms` amounts to: the result or the message it throws, the
      state afterwards and how many retries it made (their waits are `Backoff`). */
  datatype Analysis = Analysis(result: Result<Assessment, string>, state: ServiceState, retries: nat)

  /** `analyzeSymptoms(data, retryCount)` at clock reading `now`. The n-th request sent gets
      `net(n)`. A retry starts after the failed request finished plus the back-off delay. */
  function Analyze(st: ServiceState, data: Intake, retryCount: nat, now: int, net: Network, parse: JsonParser)
    : (r: Analysis)
    requires retryCount <= MAX_RETRIES && WellTyped(st.cache)
    ensures WellTyped(r.state.cache)
    ensures Invariant(st.limiter) ==> Invariant(r.state.limiter)
    ensures r.retries <= MAX_RETRIES - retryCount
    ensures r.result.Failure? ==> r.result.error != ""
    ensures r.result.Success? ==>
      InputAccepted(data) && RequestKey(data) in r.state.cache
      && r.state.cache[RequestKey(data)].data == Assessed(r.result.value)
    decreases MAX_RETRIES - retryCount, 2
  {
    AfterTry(TryAnalyze(st, data, now, net(retryCount), parse), data, retryCount, net, parse)
  }

  /** Whether the `catch` block retries: a timeout or a server error, other than a rejection
      (HTTP 403), while retries are left. */
  predicate RetriesAfter(outcome: Result<Assessment, JsError>, retryCount: nat) {
    && outcome.Failure? && outcome.error.status != Some(403) && Retryable(outcome.error)
    && retryCount < MAX_RETRIES
  }

  /** What the call returns or throws when it does not retry: the assessment, the rejection
      message for HTTP 403, or the message for the error. */
  function Settled(outcome: Result<Assessment, JsError>): (r: Result<Assessment, string>)
    ensures r.Success? <==> outcome.Success?
    ensures r.Success? ==> r.value == outcome.value
    ensures r.Failure? ==> r.error != ""
    ensures outcome.Failure? && outcome.error.status == Some(403) ==> r == Failure(FORBIDDEN)
  {
    match outcome
    case Success(result) => Success(result)
    case Failure(e) => if e.status == Some(403) then Failure(FORBIDDEN) else Failure(AnalysisMessage(e))
  }

  /** What `analyzeSymptoms` does once its `try` block has returned or thrown `a.outcome`:
      retry, or return or throw what the outcome settles to. */
  function AfterTry(a: Attempt, data: Intake, retryCount: nat, net: Network, parse: JsonParser): (r: Analysis)
    requires retryCount <= MAX_RETRIES && WellTyped(a.state.cache)
    requires a.outcome.Success? ==>
      InputAccepted(data) && RequestKey(data) in a.state.cache
      && a.state.cache[RequestKey(data)].data == Assessed(a.outcome.value)
    ensures WellTyped(r.state.cache)
    ensures Invariant(a.state.limiter) ==> Invariant(r.state.limiter)
    ensures r.retries <= MAX_RETRIES - retryCount
    ensures r.result.Failure? ==> r.result.error != ""
    ensures r.result.Success? ==>
      InputAccepted(data) && RequestKey(data) in r.state.cache
      && r.state.cache[RequestKey(data)].data == Assessed(r.result.value)
    decreases MAX_RETRIES - retryCount, 1
  {
    if RetriesAfter(a.outcome, retryCount) then Retry(a.state, data, retryCount, a.finished, net, parse)
    else Analysis(Settled(a.outcome), a.state, 0)
  }

  /** A retry: the next call, with the retry count one higher and the clock moved on by the
      back-off delay, counted as one more retry. */
  function Retry(st: ServiceState, data: Intake, retryCount: nat, finished: int, net: Network, parse: JsonParser): (r: Analysis)
    requires retryCount < MAX_RETRIES && WellTyped(st.cache)
    ensures WellTyped(r.state.cache)
    ensures Invariant(st.limiter) ==> Invariant(r.state.limiter)
    ensures 0 < r.retries <= MAX_RETRIES - retryCount
    ensures r.result.Failure? ==> r.result.error != ""
    ensures r.result.Success? ==>
      InputAccepted(data) && RequestKey(data) in r.state.cache
      && r.state.cache[RequestKey(data)].data == Assessed(r.result.value)
    decreases MAX_RETRIES - retryCount, 0
  {
    var wait := RETRY_DELAY * (retryCount + 1);
    var rest := Analyze(st, data, retryCount + 1, finished + wait, net, parse);
    Analysis(rest.result, rest.state, rest.retries + 1)
  }

  /** The waits of `n` consecutive retries from retry number `retryCount` on: the k-th waits
      `RETRY_DELAY * (retryCount + k + 1)`. */
  function Backoff(retryCount: nat, n: nat): (ds: seq<int>)
    ensures |ds| == n
    decreases n
  {
    if n == 0 then [] else [RETRY_DELAY * (retryCount + 1)] + Backoff(retryCount + 1, n - 1)
  }

  /** The first wait, then the waits of the retries after it. */
  lemma BackoffStep(retryCount: nat, n: nat)
    ensures Backoff(retryCount, n + 1) == [RETRY_DELAY * (retryCount + 1)] + Backoff(retryCount + 1, n)
  {
  }

  function Sum(xs: seq<int>): int
  {
    if |xs| == 0 then 0 else xs[0] + Sum(xs[1..])
  }

  /** The first one, two or three waits of a call from the outside. */
  lemma BackoffFromStart(n: nat)
    requires n <= MAX_RETRIES
    ensures Backoff(0, n) == [1000, 2000, 3000][..n] && Sum(Backoff(0, n)) <= 6000
  {
    var all := [1000, 2000, 3000];
    assert Backoff(3, 0) == [];
    assert Backoff(2, 1) == [3000] + Backoff(3, 0);
    assert Backoff(1, 2) == [2000] + Backoff(2, 1);
    assert Backoff(0, 3) == all;
    assert Backoff(1, 1) == [2000] + Backoff(2, 0);
    assert Backoff(0, 2) == all[..2];
    assert Backoff(0, 1) == all[..1];
    assert Sum([3000]) == 3000 && Sum([2000, 3000]) == 5000 && Sum(all) == 6000;
    assert Sum([1000, 2000]) == 3000 && Sum([1000]) == 1000;
  }

  /** A call from the outside makes at most three retries, waiting 1 s, 2 s and 3 s: at most
      6 s of back-off in total. */
  lemma {:induction false} TotalBackoff(st: ServiceState, data: Intake, now: int, net: Network, parse: JsonParser)
    requires WellTyped(st.cache)
    ensures var r := Analyze(st, data, 0, now, net, parse);
      var waits := Backoff(0, r.retries);
      r.retries <= 3 && waits == [1000, 2000, 3000][..r.retries] && Sum(waits) <= 6000
  {
    var r := Analyze(st, data, 0, now, net, parse);
    BackoffFromStart(r.retries);
  }

  /** A rejected request (HTTP 403) is reported at once, without a retry. */
  lemma {:induction false} ForbiddenNotRetried(st: ServiceState, data: Intake, retryCount: nat, now: int, net: Network, parse: JsonParser)
    requires retryCount <= MAX_RETRIES && WellTyped(st.cache)
    requires TryAnalyze(st, data, now, net(retryCount), parse).outcome.Failure?
    requires TryAnalyze(st, data, now, net(retryCount), parse).outcome.error.status == Some(403)
    ensures var r := Analyze(st, data, retryCount, now, net, parse);
      r.result == Failure(FORBIDDEN) && r.retries == 0
  {
  }

  /** An error thrown by the client's own checks ends the call with its own message. */
  lemma {:induction false} OwnErrorSurfaces(st: ServiceState, data: Intake, retryCount: nat, now: int,
                                            net: Network, parse: JsonParser, message: string)
    requires retryCount <= MAX_RETRIES && WellTyped(st.cache)
    requires TryAnalyze(st, data, now, net(retryCount), parse).outcome == Failure(Thrown(message))
    requires message != "" && 'J' !in message
    ensures Analyze(st, data, retryCount, now, net, parse)
         == Analysis(Failure(message), TryAnalyze(st, data, now, net(retryCount), parse).state, 0)
  {
    var e := Thrown(message);
    assert !Retryable(e) && e.status != Some(403);
    OwnMessageKept(e);
  }

  /** Input that fails a check is reported with the check's own message, before the cache, the
      gate or the network are touched: the state is unchanged. */
  lemma {:induction false} InvalidInputRejectedFirst(st: ServiceState, data: Intake, retryCount: nat, now: int, net: Network, parse: JsonParser)
    requires retryCount <= MAX_RETRIES && WellTyped(st.cache)
    requires !InputAccepted(data)
    ensures var r := Analyze(st, data, retryCount, now, net, parse);
      && r.state == st && r.retries == 0
      && r.result == Failure(if |data.symptoms| == 0 then NO_SYMPTOM else TEMPERATURE_ERROR)
  {
    CheckMessagesLackJ();
    if |data.symptoms| == 0 {
      OwnErrorSurfaces(st, data, retryCount, now, net, parse, NO_SYMPTOM);
    } else {
      OwnErrorSurfaces(st, data, retryCount, now, net, parse, TEMPERATURE_ERROR);
    }
  }

  lemma CheckMessagesLackJ()
    ensures NO_SYMPTOM != "" && 'J' !in NO_SYMPTOM
    ensures TEMPERATURE_ERROR != "" && 'J' !in TEMPERATURE_ERROR
  {
  }

  /** A fresh cached assessment is returned as it is; the gate is not consulted and no request is
      sent, so the state is unchanged. */
  lemma {:induction false} CacheHitServed(st: ServiceState, data: Intake, retryCount: nat, now: int, net: Network, parse: JsonParser)
    requires retryCount <= MAX_RETRIES && WellTyped(st.cache)
    requires InputAccepted(data)
    requires CheckCache(st.cache, RequestKey(data), now).Some?
    ensures var r := Analyze(st, data, retryCount, now, net, parse);
      && r.state == st && r.retries == 0
      && r.result == Success(st.cache[RequestKey(data)].data.assessment)
  {
  }

  /** Asking again for the same request while its stored assessment is fresh returns the same
      assessment, whatever the network would have answered. */
  lemma {:induction false} RepeatServedFromCache(st: ServiceState, data: Intake, now: int, net: Network, parse: JsonParser,
                              retryCount: nat, later: int, net2: Network, parse2: JsonParser)
    requires WellTyped(st.cache) && retryCount <= MAX_RETRIES
    requires Analyze(st, data, 0, now, net, parse).result.Success?
    requires var s := Analyze(st, data, 0, now, net, parse).state;
      later - s.cache[RequestKey(data)].timestamp < CACHE_DURATION
    ensures var first := Analyze(st, data, 0, now, net, parse);
      Analyze(first.state, data, retryCount, later, net2, parse2)
        == Analysis(first.result, first.state, 0)
  {
    var first := Analyze(st, data, 0, now, net, parse);
    CacheHitServed(first.state, data, retryCount, later, net2, parse2);
  }

  /** A timeout or a server error other than a rejection, while retries are left, is retried
      after the back-off, from the state and the clock reading the failed attempt left. */
  lemma {:induction false} RetriedAfterBackoff(st: ServiceState, data: Intake, retryCount: nat, now: int, net: Network, parse: JsonParser)
    requires retryCount < MAX_RETRIES && WellTyped(st.cache)
    requires var a := TryAnalyze(st, data, now, net(retryCount), parse);
      a.outcome.Failure? && Retryable(a.outcome.error) && a.outcome.error.status != Some(403)
    ensures var a := TryAnalyze(st, data, now, net(retryCount), parse);
      Analyze(st, data, retryCount, now, net, parse) == Retry(a.state, data, retryCount, a.finished, net, parse)
  {
  }

  /** A retry is the next call, with the retry count one higher and the clock moved on by the
      back-off delay, counted as one more retry. */
  lemma RetryIs(st: ServiceState, data: Intake, retryCount: nat, finished: int, net: Network, parse: JsonParser)
    requires retryCount < MAX_RETRIES && WellTyped(st.cache)
    ensures var r := Analyze(st, data, retryCount + 1, finished + RETRY_DELAY * (retryCount + 1), net, parse);
      Retry(st, data, retryCount, finished, net, parse) == Analysis(r.result, r.state, r.retries + 1)
  {
  }

  /** An attempt that succeeds ends the call with its assessment, without a retry. */
  lemma {:induction false} AttemptSucceeds(st: ServiceState, data: Intake, retryCount: nat, now: int, net: Network, parse: JsonParser)
    requires retryCount <= MAX_RETRIES && WellTyped(st.cache)
    requires TryAnalyze(st, data, now, net(retryCount), parse).outcome.Success?
    ensures var a := TryAnalyze(st, data, now, net(retryCount), parse);
      Analyze(st, data, retryCount, now, net, parse) == Analysis(Success(a.outcome.value), a.state, 0)
  {
  }

  /** An admitted request on a cache miss whose reply is an error: the error is thrown, the
      gate has counted the request, and the clock has moved by the latency. */
  lemma {:induction false} AdmittedFailure(st: ServiceState, data: Intake, now: int, ex: Exchange, parse: JsonParser)
    requires WellTyped(st.cache) && InputAccepted(data)
    requires CheckCache(st.cache, RequestKey(data), now).None?
    requires CheckRequestLimit(st.limiter, now).0.Admitted?
    requires ex.reply.Failed?
    ensures var a := TryAnalyze(st, data, now, ex, parse);
      && a.outcome == Failure(ReplyError(ex.reply))
      && a.state == ServiceState(CheckRequestLimit(st.limiter, now).1, st.cache)
      && a.finished == now + ex.latency
  {
  }

  /** An attempt on a cache miss less than 30 s after the last admitted request is rejected by
      the spacing rule, with the seconds still to wait in its message. */
  lemma {:induction false} ThrottledAttempt(st: ServiceState, data: Intake, elapsed: int, now: int, ex: Exchange, parse: JsonParser)
    requires WellTyped(st.cache) && InputAccepted(data)
    requires CheckCache(st.cache, RequestKey(data), now).None?
    requires now - st.limiter.lastRequestTime == elapsed < REQUEST_INTERVAL
    ensures TryAnalyze(st, data, now, ex, parse).outcome
         == Failure(Thrown(RejectionMessage(WaitSeconds(CeilDiv(REQUEST_INTERVAL - elapsed, 1000)))))
  {
  }

  /** An admitted request on a cache miss whose reply parses returns the parsed assessment. */
  lemma {:induction false} AdmittedDelivery(st: ServiceState, data: Intake, now: int, ex: Exchange, parse: JsonParser)
    requires WellTyped(st.cache) && InputAccepted(data)
    requires CheckCache(st.cache, RequestKey(data), now).None?
    requires CheckRequestLimit(st.limiter, now).0.Admitted?
    requires ex.reply.Delivered? && ParseReply(ex.reply.content, parse).Success?
    ensures TryAnalyze(st, data, now, ex, parse).outcome == ParseReply(ex.reply.content, parse)
  {
  }

  /** A call on a cache miss less than 30 s after the last admitted request throws the gate's
      message at once. */
  lemma {:induction false} ThrottledCall(st: ServiceState, data: Intake, retryCount: nat, elapsed: int, now: int,
                                         net: Network, parse: JsonParser)
    requires retryCount <= MAX_RETRIES && WellTyped(st.cache) && InputAccepted(data)
    requires CheckCache(st.cache, RequestKey(data), now).None?
    requires now - st.limiter.lastRequestTime == elapsed < REQUEST_INTERVAL
    ensures var r := Analyze(st, data, retryCount, now, net, parse);
      && r.retries == 0
      && r.result == Failure(RejectionMessage(WaitSeconds(CeilDiv(REQUEST_INTERVAL - elapsed, 1000))))
  {
    ThrottledAttempt(st, data, elapsed, now, net(retryCount), parse);
    var message := RejectionMessage(WaitSeconds(CeilDiv(REQUEST_INTERVAL - elapsed, 1000)));
    RejectionLacksJ(WaitSeconds(CeilDiv(REQUEST_INTERVAL - elapsed, 1000)));
    OwnErrorSurfaces(st, data, retryCount, now, net, parse, message);
  }

  /** A call on a cache miss that the gate admits and whose reply parses returns the parsed
      assessment, without a retry. */
  lemma {:induction false} DeliveredCall(st: ServiceState, data: Intake, retryCount: nat, now: int, net: Network, parse: JsonParser)
    requires retryCount <= MAX_RETRIES && WellTyped(st.cache) && InputAccepted(data)
    requires CheckCache(st.cache, RequestKey(data), now).None?
    requires CheckRequestLimit(st.limiter, now).0.Admitted?
    requires net(retryCount).reply.Delivered? && ParseReply(net(retryCount).reply.content, parse).Success?
    ensures var r := Analyze(st, data, retryCount, now, net, parse);
      r.retries == 0 && r.result == Success(ParseReply(net(retryCount).reply.content, parse).value)
  {
    AdmittedDelivery(st, data, now, net(retryCount), parse);
    AttemptSucceeds(st, data, retryCount, now, net, parse);
  }

  /** A retry whose request falls less than 30 s after the last admitted one is refused by the
      gate: it sends nothing and the gate's message is the result. */
  lemma {:induction false} ThrottledRetry(st: ServiceState, data: Intake, retryCount: nat, elapsed: int, finished: int,
                                          net: Network, parse: JsonParser)
    requires retryCount < MAX_RETRIES && WellTyped(st.cache) && InputAccepted(data)
    requires var later := finished + RETRY_DELAY * (retryCount + 1);
      && CheckCache(st.cache, RequestKey(data), later).None?
      && later - st.limiter.lastRequestTime == elapsed < REQUEST_INTERVAL
    ensures var r := Retry(st, data, retryCount, finished, net, parse);
      r.retries == 1 && r.result == Failure(RejectionMessage(WaitSeconds(CeilDiv(REQUEST_INTERVAL - elapsed, 1000))))
  {
    RetryIs(st, data, retryCount, finished, net, parse);
    ThrottledCall(st, data, retryCount + 1, elapsed, finished + RETRY_DELAY * (retryCount + 1), net, parse);
  }

  /** A retry the gate admits, on a cache miss, whose reply parses returns the parsed
      assessment as the only retry. */
  lemma {:induction false} DeliveredRetry(st: ServiceState, data: Intake, retryCount: nat, finished: int,
                                          net: Network, parse: JsonParser)
    requires retryCount < MAX_RETRIES && WellTyped(st.cache) && InputAccepted(data)
    requires var later := finished + RETRY_DELAY * (retryCount + 1);
      && CheckCache(st.cache, RequestKey(data), later).None?
      && CheckRequestLimit(st.limiter, later).0.Admitted?
    requires net(retryCount + 1).reply.Delivered? && ParseReply(net(retryCount + 1).reply.content, parse).Success?
    ensures var r := Retry(st, data, retryCount, finished, net, parse);
      r.retries == 1 && r.result == Success(ParseReply(net(retryCount + 1).reply.content, parse).value)
  {
    RetryIs(st, data, retryCount, finished, net, parse);
    DeliveredCall(st, data, retryCount + 1, finished + RETRY_DELAY * (retryCount + 1), net, parse);
  }

  /** The retry re-enters the gate. When a server error (5xx) or a timeout comes back fast
      (latency plus back-off under 30 s) on an admitted request, the retry is rejected by the
      spacing rule and its message is what the caller gets: no second request is sent. */
  lemma {:induction false} FastServerErrorThrottled(st: ServiceState, data: Intake, retryCount: nat, now: int, net: Network, parse: JsonParser)
    requires retryCount < MAX_RETRIES && WellTyped(st.cache)
    requires InputAccepted(data)
    requires CheckCache(st.cache, RequestKey(data), now).None?
    requires CheckRequestLimit(st.limiter, now).0.Admitted?
    requires net(retryCount).reply.Failed?
    requires var e := ReplyError(net(retryCount).reply); Retryable(e) && e.status != Some(403)
    requires net(retryCount).latency + RETRY_DELAY * (retryCount + 1) < REQUEST_INTERVAL
    ensures var r := Analyze(st, data, retryCount, now, net, parse);
      var elapsed := net(retryCount).latency + RETRY_DELAY * (retryCount + 1);
      && r.retries == 1
      && r.result == Failure(RejectionMessage(WaitSeconds(CeilDiv(REQUEST_INTERVAL - elapsed, 1000))))
  {
    var a := TryAnalyze(st, data, now, net(retryCount), parse);
    var later := a.finished + RETRY_DELAY * (retryCount + 1);
    var elapsed := net(retryCount).latency + RETRY_DELAY * (retryCount + 1);
    assert a.outcome == Failure(ReplyError(net(retryCount).reply))
        && a.state == ServiceState(CheckRequestLimit(st.limiter, now).1, st.cache)
        && a.finished == now + net(retryCount).latency by {
      AdmittedFailure(st, data, now, net(retryCount), parse);
    }
    RetriedAfterBackoff(st, data, retryCount, now, net, parse);
    MissPersists(st.cache, RequestKey(data), now, later);
    ThrottledRetry(a.state, data, retryCount, elapsed, a.finished, net, parse);
  }

  /** When the server error takes long enough to arrive (latency plus back-off at least 30 s)
      and the quota has room, the retry is admitted and its reply is what the caller gets. */
  lemma {:induction false} SlowServerErrorRecovers(st: ServiceState, data: Intake, retryCount: nat, now: int, net: Network, parse: JsonParser)
    requires retryCount < MAX_RETRIES && WellTyped(st.cache)
    requires InputAccepted(data) && st.limiter.requestCount == 0
    requires CheckCache(st.cache, RequestKey(data), now).None?
    requires CheckRequestLimit(st.limiter, now).0.Admitted?
    requires net(retryCount).reply.Failed?
    requires var e := ReplyError(net(retryCount).reply); Retryable(e) && e.status != Some(403)
    requires net(retryCount).latency + RETRY_DELAY * (retryCount + 1) >= REQUEST_INTERVAL
    requires net(retryCount + 1).reply.Delivered?
    requires ParseReply(net(retryCount + 1).reply.content, parse).Success?
    ensures var r := Analyze(st, data, retryCount, now, net, parse);
      && r.retries == 1
      && r.result == Success(ParseReply(net(retryCount + 1).reply.content, parse).value)
  {
    var a := TryAnalyze(st, data, now, net(retryCount), parse);
    var later := a.finished + RETRY_DELAY * (retryCount + 1);
    assert a.outcome == Failure(ReplyError(net(retryCount).reply))
        && a.state == ServiceState(Limiter(1, now), st.cache)
        && a.finished == now + net(retryCount).latency by {
      AdmittedFailure(st, data, now, net(retryCount), parse);
    }
    RetriedAfterBackoff(st, data, retryCount, now, net, parse);
    MissPersists(st.cache, RequestKey(data), now, later);
    assert CheckRequestLimit(a.state.limiter, later).0.Admitted?;
    DeliveredRetry(a.state, data, retryCount, a.finished, net, parse);
  }

  /** A reply the parser refuses surfaces with the parser's own message, and is not retried. */
  lemma {:induction false} ParseFailureSurfaces(st: ServiceState, data: Intake, retryCount: nat, now: int, net: Network, parse: JsonParser)
    requires retryCount <= MAX_RETRIES && WellTyped(st.cache)
    requires InputAccepted(data)
    requires CheckCache(st.cache, RequestKey(data), now).None?
    requires CheckRequestLimit(st.limiter, now).0.Admitted?
    requires net(retryCount).reply.Delivered?
    requires ParseReply(net(retryCount).reply.content, parse).Failure?
    ensures var r := Analyze(st, data, retryCount, now, net, parse);
      && r.retries == 0
      && r.result == Failure(ParseReply(net(retryCount).reply.content, parse).error.message)
  {
    var e := ParseReply(net(retryCount).reply.content, parse).error;
    ParseFailureLacksJ(net(retryCount).reply.content, parse);
    assert e == Thrown(e.message);
    assert TryAnalyze(st, data, now, net(retryCount), parse).outcome == Failure(Thrown(e.message));
    OwnErrorSurfaces(st, data, retryCount, now, net, parse, e.message);
  }

  // ---------------------------------------------------------------------------------------
  // askAI
  // ---------------------------------------------------------------------------------------

  /** `Math.floor(Math.random() * 10) + 5` for a random draw `roll` in [0, 1). */
  function WaitTime(roll: real): (w: int)
    requires 0.0 <= roll < 1.0
    ensures 5 <= w <= 14
  {
    (roll * 10.0).Floor + 5
  }

  /** The `try` block of `askAI`: the answer or the error it throws, and the state after it. */
  function TryAsk(st: ServiceState, hasKey: bool, question: string, now: int, ex: Exchange)
    : (r: (Result<string, JsError>, ServiceState))
    requires WellTyped(st.cache)
    ensures WellTyped(r.1.cache)
    ensures Invariant(st.limiter) ==> Invariant(r.1.limiter)
    ensures r.0.Success? ==>
      hasKey && r.0.value != "" && QuestionKey(question) in r.1.cache
      && r.1.cache[QuestionKey(question)].data == Answer(r.0.value)
  {
    if !hasKey then (Failure(Thrown(NO_KEY)), st)
    else
      var hit := CheckCache(st.cache, QuestionKey(question), now);
      if hit.Some? && ResponseCache.IsTruthy(hit.value) then
        assert hit.value.Answer?;
        (Success(hit.value.text), st)
      else
        var (admission, limiter) := CheckRequestLimit(st.limiter, now);
        if !admission.Admitted? then
          (Failure(Thrown(RejectionMessage(admission))), ServiceState(limiter, st.cache))
        else
          match ex.reply
          case Failed(_, _, _, _) => (Failure(ReplyError(ex.reply)), ServiceState(limiter, st.cache))
          case Delivered(content) =>
            if content == "" then (Failure(Thrown(EMPTY_REPLY)), ServiceState(limiter, st.cache))
            else
              var done := now + ex.latency;
              StoreKeepsWellTyped(st.cache, QuestionKey(question), Answer(content), done);
              (Success(content), ServiceState(limiter, SetCache(st.cache, QuestionKey(question), Answer(content), done)))
  }

  /** The message the `catch` block of `askAI` throws: only 401 and 429 are told apart. */
  function AskMessage(e: JsError, roll: real): (m: string)
    requires 0.0 <= roll < 1.0
    ensures e.status == Some(401) ==> m == ASK_AUTH_FAILED
    ensures e.status == Some(429) ==>
      exists w :: 5 <= w <= 14 && m == "請求過於頻繁，請等待 " + IntText(w) + " 秒後重試..."
    ensures e.status != Some(401) && e.status != Some(429) ==> m == ASK_FAILED
  {
    if e.status == Some(401) then ASK_AUTH_FAILED
    else if e.status == Some(429) then "請求過於頻繁，請等待 " + IntText(WaitTime(roll)) + " 秒後重試..."
    else ASK_FAILED
  }

  /** `askAI(question)` at clock reading `now`; `ex` is what the request would get and `roll`
      the random draw of the 429 message. */
  function AskAI(st: ServiceState, hasKey: bool, question: string, now: int, ex: Exchange, roll: real)
    : (r: (Result<string, string>, ServiceState))
    requires WellTyped(st.cache) && 0.0 <= roll < 1.0
    ensures WellTyped(r.1.cache)
    ensures Invariant(st.limiter) ==> Invariant(r.1.limiter)
    ensures r.0.Success? ==>
      hasKey && r.0.value != "" && QuestionKey(question) in r.1.cache
      && r.1.cache[QuestionKey(question)].data == Answer(r.0.value)
  {
    var (outcome, st1) := TryAsk(st, hasKey, question, now, ex);
    match outcome
    case Success(answer) => (Success(answer), st1)
    case Failure(e) => (Failure(AskMessage(e, roll)), st1)
  }

  /** Every failure of the client's own (missing key, rejection by the gate, empty reply)
      reaches the caller as the same generic message. */
  lemma {:induction false} AskInternalErrorsGeneric(st: ServiceState, hasKey: bool, question: string, now: int, ex: Exchange, roll: real)
    requires WellTyped(st.cache) && 0.0 <= roll < 1.0
    requires TryAsk(st, hasKey, question, now, ex).0.Failure?
    requires TryAsk(st, hasKey, question, now, ex).0.error.status.None?
    ensures AskAI(st, hasKey, question, now, ex, roll).0 == Failure(ASK_FAILED)
  {
  }

  /** Without a key nothing is read or changed. */
  lemma {:induction false} AskWithoutKey(st: ServiceState, question: string, now: int, ex: Exchange, roll: real)
    requires WellTyped(st.cache) && 0.0 <= roll < 1.0
    ensures AskAI(st, false, question, now, ex, roll) == (Failure(ASK_FAILED), st)
  {
  }

  /** A question asked again within two hours of its answer gets that answer without a request. */
  lemma {:induction false} AskRepeatServedFromCache(st: ServiceState, question: string, now: int, ex: Exchange, roll: real,
                                 later: int, ex2: Exchange, roll2: real)
    requires WellTyped(st.cache) && 0.0 <= roll < 1.0 && 0.0 <= roll2 < 1.0
    requires AskAI(st, true, question, now, ex, roll).0.Success?
    requires var s := AskAI(st, true, question, now, ex, roll).1;
      later - s.cache[QuestionKey(question)].timestamp < CACHE_DURATION
    ensures var first := AskAI(st, true, question, now, ex, roll);
      AskAI(first.1, true, question, later, ex2, roll2) == first
  {
  }

  // ---------------------------------------------------------------------------------------
  // testApiConnection
  // ---------------------------------------------------------------------------------------

  /** `testApiConnection()`: `true` when a request gets any successful response; otherwise the
      message for the status, falling back to the server's own error text, then to the error's
      message. The gate and the cache are not involved. */
  function TestApiConnection(hasKey: bool, ex: Exchange): (r: Result<bool, string>)
    ensures r.Success? <==> hasKey && ex.reply.Delivered?
    ensures r.Success? ==> r.value
    ensures !hasKey ==> r == Failure(CONNECTION_FAILED + TEST_NO_KEY)
    ensures hasKey && ex.reply.Failed? ==>
      var status := ex.reply.status;
      && (status == Some(403) ==> r.error == FORBIDDEN)
      && (status == Some(402) ==> r.error == NO_BALANCE)
      && (status == Some(401) ==> r.error == KEY_INVALID)
      && (status == Some(429) ==> r.error == TEST_RATE_LIMITED)
      && (status !in {Some(401), Some(402), Some(403), Some(429)} ==>
            r.error == CONNECTION_FAILED
                     + (if ex.reply.detail != "" then ex.reply.detail else ex.reply.message))
  {
    if !hasKey then Failure(CONNECTION_FAILED + TEST_NO_KEY)
    else match ex.reply
      case Delivered(_) => Success(true)
      case Failed(status, _, message, detail) =>
        if status == Some(403) then Failure(FORBIDDEN)
        else if status == Some(402) then Failure(NO_BALANCE)
        else if status == Some(401) then Failure(KEY_INVALID)
        else if status == Some(429) then Failure(TEST_RATE_LIMITED)
        else Failure(CONNECTION_FAILED + (if detail != "" then detail else message))
  }
}
