/** The client-side request gate of the API client: a minimum spacing between admitted
    requests and a count quota whose window resets opportunistically. This module holds the
    gate as a function of its two state variables; the class `AiService.Service` keeps the
    variables as fields and is proved to follow these functions. */
module RateLimit {
  import opened JsText

  const REQUEST_LIMIT: int := 2
  const REQUEST_INTERVAL: int := 30000
  const WINDOW: int := 60000

  /** `requestCount` and `lastRequestTime` (milliseconds). */
  datatype Limiter = Limiter(requestCount: int, lastRequestTime: int)

  /** The outcome of one check: admitted, or rejected with a wait estimate. */
  datatype Admission = Admitted | WaitSeconds(seconds: int) | WaitMinutes(minutes: int)

  /** The state at module load: no requests, and the clock reading at load as the last request. */
  function Initial(loadTime: int): (g: Limiter)
    ensures g.requestCount == 0 && g.lastRequestTime == loadTime
  {
    Limiter(0, loadTime)
  }

  /** `Math.ceil(a / b)` for a positive divisor. */
  function CeilDiv(a: int, b: int): (q: int)
    requires b > 0
    ensures (q - 1) * b < a <= q * b
  {
    -((-a) / b)
  }

  /** The counter never leaves 0..REQUEST_LIMIT. */
  predicate Invariant(g: Limiter) {
    0 <= g.requestCount <= REQUEST_LIMIT
  }

  /** `checkRequestLimit` at clock reading `now`: the admission and the state afterwards. */
  function CheckRequestLimit(g: Limiter, now: int): (r: (Admission, Limiter))
    ensures var elapsed := now - g.lastRequestTime;
      && (r.0.WaitSeconds? <==> elapsed < REQUEST_INTERVAL)
      && (r.0.WaitSeconds? ==> r.0.seconds == CeilDiv(REQUEST_INTERVAL - elapsed, 1000))
      && (r.0.WaitMinutes? <==>
            REQUEST_INTERVAL <= elapsed <= WINDOW && g.requestCount >= REQUEST_LIMIT)
      && (r.0.WaitMinutes? ==> r.0.minutes == if elapsed == WINDOW then 0 else 1)
      && (r.0.Admitted? ==>
            r.1 == Limiter((if elapsed > WINDOW then 0 else g.requestCount) + 1, now))
      && (!r.0.Admitted? ==> r.1 == g)
  {
    var elapsed := now - g.lastRequestTime;
    if elapsed < REQUEST_INTERVAL then
      (WaitSeconds(CeilDiv(REQUEST_INTERVAL - elapsed, 1000)), g)
    else
      var g1 := if now - g.lastRequestTime > WINDOW then Limiter(0, now) else g;
      if g1.requestCount >= REQUEST_LIMIT then
        (WaitMinutes(CeilDiv(WINDOW - (now - g1.lastRequestTime), WINDOW)), g1)
      else
        (Admitted, Limiter(g1.requestCount + 1, now))
  }

  /** The text of the error a rejection throws. */
  function RejectionMessage(a: Admission): (m: string)
    requires !a.Admitted?
    ensures m != ""
  {
    match a
    case WaitSeconds(s) => "請稍等 " + IntText(s) + " 秒後再試"
    case WaitMinutes(k) => "已達到請求限制，請等待 " + IntText(k) + " 分鐘後再試"
  }

  /** A rejection's text never contains `JSON` (it has no letter `J`), so the caller's
      classification of errors passes it through unchanged. */
  lemma RejectionLacksJ(a: Admission)
    requires !a.Admitted?
    ensures 'J' !in RejectionMessage(a)
  {
    match a
    case WaitSeconds(s) => CharsOfInt(s, 'J');
    case WaitMinutes(k) => CharsOfInt(k, 'J');
  }

  lemma CharsOfInt(n: int, c: char)
    requires c != '-' && !IsDigit(c)
    ensures c !in IntText(n)
  {
    var s := IntText(n);
    forall i | 0 <= i < |s| ensures s[i] != c {
      if n < 0 && i > 0 { assert s[i] == NatText(-n)[i - 1]; }
    }
  }

  /** A spacing rejection for a non-negative elapsed time asks for 1 to 30 seconds. */
  lemma SpacingWaitBounds(g: Limiter, now: int)
    requires 0 <= now - g.lastRequestTime < REQUEST_INTERVAL
    ensures var r := CheckRequestLimit(g, now);
      r.0.WaitSeconds? && 1 <= r.0.seconds <= 30 && r.1 == g
  {
    var r := CheckRequestLimit(g, now);
    var s := r.0.seconds;
    var a := REQUEST_INTERVAL - (now - g.lastRequestTime);
    assert 0 < a <= 30000;
    assert (s - 1) * 1000 < a <= s * 1000;
    assert s * 1000 > 0 && (s - 1) * 1000 < 30000;
  }

  /** Every call within 30 s of module load is rejected. */
  lemma LoadGate(loadTime: int, now: int)
    requires now - loadTime < REQUEST_INTERVAL
    ensures CheckRequestLimit(Initial(loadTime), now).0.WaitSeconds?
  {
  }

  /** Every check keeps the counter within 0..REQUEST_LIMIT. */
  lemma InvariantPreserved(g: Limiter, now: int)
    requires Invariant(g)
    ensures Invariant(CheckRequestLimit(g, now).1)
  {
  }

  /** Two admissions at most 60 s apart, starting from an empty counter, fill the quota: a
      third call within 60 s of the second is rejected. */
  lemma {:induction false} ThirdCallWithinWindowRejected(g: Limiter, t1: int, t2: int, t3: int)
    requires g.requestCount == 0
    requires CheckRequestLimit(g, t1).0.Admitted?
    requires CheckRequestLimit(CheckRequestLimit(g, t1).1, t2).0.Admitted?
    requires t2 - t1 <= WINDOW && t3 - t2 <= WINDOW
    ensures var g2 := CheckRequestLimit(CheckRequestLimit(g, t1).1, t2).1;
      g2 == Limiter(2, t2) && !CheckRequestLimit(g2, t3).0.Admitted?
  {
    var g1 := CheckRequestLimit(g, t1).1;
    assert g1 == Limiter(1, t1);
  }

  /** Once more than 60 s have passed since the last admission, the next call is admitted
      and starts a fresh count. */
  lemma WindowRollover(g: Limiter, now: int)
    requires now - g.lastRequestTime > WINDOW
    ensures CheckRequestLimit(g, now) == (Admitted, Limiter(1, now))
  {
  }
}
