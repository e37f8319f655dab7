/** The API client as the object it is at run time: the module-level variables
    `requestCount`, `lastRequestTime` and `responseCache` become the fields of one `Service`,
    and the entry points update them step by step. Every method is proved to do exactly what
    the matching function of `RateLimit`, `ResponseCache` and `ServiceCalls` describes.
    `AnalyzeSymptoms` runs its first attempt here and takes the outcome of the retries, when
    there are any, from `ServiceCalls.Retry`. */
module AiService {
  import opened Wrappers
  import opened JsText
  import opened ServiceTypes
  import opened Vitals
  import RateLimit
  import opened ResponseCache
  import opened ResponseParser
  import opened ServiceCalls

  class Service {
    var requestCount: int
    var lastRequestTime: int
    var cache: Cache

    /** The fields as a value of the functional model. */
    function State(): ServiceState
      reads this
    {
      ServiceState(RateLimit.Limiter(requestCount, lastRequestTime), cache)
    }

    /** The counter stays within its bounds and the cache holds what its writers store. */
    predicate Valid()
      reads this
    {
      RateLimit.Invariant(State().limiter) && WellTyped(cache)
    }

    /** Module load at clock reading `loadTime`. */
    constructor(loadTime: int)
      ensures State() == Loaded(loadTime) && Valid()
    {
      requestCount := 0;
      lastRequestTime := loadTime;
      cache := map[];
    }

    /** `checkRequestLimit()` at clock reading `now`. */
    method CheckRequestLimit(now: int) returns (admission: RateLimit.Admission)
      modifies this
      ensures (admission, State().limiter) == RateLimit.CheckRequestLimit(old(State().limiter), now)
      ensures cache == old(cache)
    {
      var elapsed := now - lastRequestTime;
      if elapsed < RateLimit.REQUEST_INTERVAL {
        return RateLimit.WaitSeconds(RateLimit.CeilDiv(RateLimit.REQUEST_INTERVAL - elapsed, 1000));
      }
      if now - lastRequestTime > RateLimit.WINDOW {
        requestCount := 0;
        lastRequestTime := now;
      }
      if requestCount >= RateLimit.REQUEST_LIMIT {
        return RateLimit.WaitMinutes(RateLimit.CeilDiv(RateLimit.WINDOW - (now - lastRequestTime), RateLimit.WINDOW));
      }
      requestCount := requestCount + 1;
      lastRequestTime := now;
      return RateLimit.Admitted;
    }

    /** `checkCache(key)` at clock reading `now`: a fresh entry's data, or nothing. */
    method CheckCache(key: Key, now: int) returns (hit: Option<Cached>)
      ensures hit.Some? <==> key in cache && now - cache[key].timestamp < CACHE_DURATION
      ensures hit.Some? ==> hit.value == cache[key].data
    {
      if key in cache {
        var entry := cache[key];
        if now - entry.timestamp < CACHE_DURATION {
          return Some(entry.data);
        }
      }
      return None;
    }

    /** `setCache(key, data)` at clock reading `now`. */
    method SetCache(key: Key, data: Cached, now: int)
      modifies this
      ensures cache == ResponseCache.SetCache(old(cache), key, data, now)
      ensures requestCount == old(requestCount) && lastRequestTime == old(lastRequestTime)
    {
      cache := cache[key := Entry(data, now)];
    }

    /** The `try` block of `analyzeSymptoms`: what it returned or threw, and when it finished. */
    method TryAnalyze(data: Intake, now: int, ex: Exchange, parse: JsonParser)
      returns (outcome: Result<Assessment, JsError>, finished: int)
      requires WellTyped(cache)
      modifies this
      ensures Attempt(outcome, State(), finished) == ServiceCalls.TryAnalyze(old(State()), data, now, ex, parse)
    {
      if |data.symptoms| == 0 {
        return Failure(Thrown(NO_SYMPTOM)), now;
      }
      if !TemperatureAccepted(data.vitalSigns.temperature) {
        return Failure(Thrown(TEMPERATURE_ERROR)), now;
      }
      var hit := CheckCache(RequestKey(data), now);
      if hit.Some? {
        return Success(hit.value.assessment), now;
      }
      var admission := CheckRequestLimit(now);
      if !admission.Admitted? {
        return Failure(Thrown(RateLimit.RejectionMessage(admission))), now;
      }
      outcome, finished := SendAnalysis(data, now, ex, parse);
    }

    /** The admitted part of the `try` block: send, parse, and store a parsed assessment. */
    method SendAnalysis(data: Intake, now: int, ex: Exchange, parse: JsonParser)
      returns (outcome: Result<Assessment, JsError>, finished: int)
      requires WellTyped(cache)
      modifies this
      ensures Attempt(outcome, State(), finished) == ServiceCalls.SendAnalysis(old(State()), data, now, ex, parse)
    {
      finished := now + ex.latency;
      if ex.reply.Failed? {
        return Failure(ReplyError(ex.reply)), finished;
      }
      outcome := ParseReply(ex.reply.content, parse);
      if outcome.Success? {
        SetCache(RequestKey(data), Assessed(outcome.value), finished);
      }
    }

    /** `analyzeSymptoms(data, retryCount)` at clock reading `now`: the assessment or the
        message thrown, and the back-off delays waited before each retry. */
    method AnalyzeSymptoms(data: Intake, retryCount: nat, now: int, net: Network, parse: JsonParser)
      returns (result: Result<Assessment, string>, delays: seq<int>)
      requires Valid() && retryCount <= MAX_RETRIES
      modifies this
      ensures Valid()
      ensures var r := Analyze(old(State()), data, retryCount, now, net, parse);
        result == r.result && State() == r.state && delays == Backoff(retryCount, r.retries)
    {
      var outcome, finished := TryAnalyze(data, now, net(retryCount), parse);
      if RetriesAfter(outcome, retryCount) {
        var r := ServiceCalls.Retry(State(), data, retryCount, finished, net, parse);
        requestCount, lastRequestTime, cache := r.state.limiter.requestCount, r.state.limiter.lastRequestTime, r.state.cache;
        result, delays := r.result, Backoff(retryCount, r.retries);
      } else {
        result, delays := Settled(outcome), [];
      }
    }

    /** `askAI(question)` at clock reading `now`. */
    method AskAI(hasKey: bool, question: string, now: int, ex: Exchange, roll: real)
      returns (result: Result<string, string>)
      requires Valid() && 0.0 <= roll < 1.0
      modifies this
      ensures Valid()
      ensures (result, State()) == ServiceCalls.AskAI(old(State()), hasKey, question, now, ex, roll)
    {
      var outcome: Result<string, JsError>;
      if !hasKey {
        outcome := Failure(Thrown(NO_KEY));
      } else {
        var hit := CheckCache(QuestionKey(question), now);
        if hit.Some? && ResponseCache.IsTruthy(hit.value) {
          outcome := Success(hit.value.text);
        } else {
          var admission := CheckRequestLimit(now);
          if !admission.Admitted? {
            outcome := Failure(Thrown(RateLimit.RejectionMessage(admission)));
          } else if ex.reply.Failed? {
            outcome := Failure(ReplyError(ex.reply));
          } else if ex.reply.content == "" {
            outcome := Failure(Thrown(EMPTY_REPLY));
          } else {
            SetCache(QuestionKey(question), Answer(ex.reply.content), now + ex.latency);
            outcome := Success(ex.reply.content);
          }
        }
      }
      match outcome
      case Success(answer) => result := Success(answer);
      case Failure(e) => result := Failure(AskMessage(e, roll));
    }
  }
}
