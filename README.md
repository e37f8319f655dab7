# Symptom triage client: the API client and the pages that drive it

This project models the part of the health-information web client that does real work:

- **The API client** (`src/utils/aiService.js`). It holds:
  - the client-side request gate: at least 30 s between admitted requests and at most two requests per 60 s window;
  - a two-hour response cache shared by questions and triage requests;
  - the plausibility check on the temperature;
  - the prompt's data lines with their fever note;
  - the extraction and validation of the JSON the model answers with;
  - the three entry points:
    - `analyzeSymptoms`, with its recursive retry of timeouts and server errors;
    - `askAI`;
    - `testApiConnection`.
- **The pages that call it:**
  - the symptom-check page, with its selection updaters, its vital-signs merge and the request it builds;
  - the body-part table and its toggle;
  - the symptom picker, with its category table, the categories offered for a selection, and the form for a symptom of the user's own;
  - the question page, with its blank-question guard and `formatAnswer`, which cuts an answer into paragraphs and numbered lists.

**How the model is organised:**

- Pure logic is written as functions with lemmas about them:
  - `RateLimit`, `ResponseCache` and `Vitals`;
  - `Prompt` and `ResponseParser`;
  - `ServiceCalls`, which holds the three entry points over an explicit client state;
  - `JsText` and `JsNumber`, which hold the JavaScript string and number operations the code relies on, such as `trim`, `join`, `includes`, `parseFloat` and `String(x)`.
- What the source keeps in mutable variables is written as classes whose methods are proved to follow those functions:
  - `AiService.Service` holds the module-level `requestCount`, `lastRequestTime` and `responseCache`;
  - `SymptomCheck.Page`, `SymptomSelector.OtherSymptomForm` and `AskAiPage.QuestionPage` hold the React state hooks.
- The `reduce` that builds the offered categories is a loop (`SymptomSelector.Collect`) with its invariant.

**What the model takes as parameters:**

| Source dependency | In the model |
|---|---|
| The clock (Date.now()) | a parameter `now` |
| The network | a function from the attempt number to an `Exchange`: the latency and either the reply text or an error with its status, code and messages |
| JSON.parse | a parameter from text to an optional `Json` value |
| Math.random() | a parameter `roll` in [0, 1) |
| Whether an API key is configured | a boolean |

Behaviour of the code worth noting:

- **A retry of `analyzeSymptoms` goes through the request gate again.** The call recurses through the whole `try` block (`src/utils/aiService.js:344`). A server error that comes back quickly is therefore retried into a spacing rejection: the gate admitted the failed request less than 30 s earlier. The caller gets the gate's "請稍等 N 秒後再試" message, not the retried request's answer (`ServiceCalls.FastServerErrorThrottled`). A 500 followed by a good reply only succeeds when latency plus back-off reaches 30 s (`ServiceCalls.SlowServerErrorRecovers`).
- **The random wait in the 429 message belongs to `askAI` alone.** It is `Math.floor(Math.random() * 10) + 5`, so it ranges from 5 to 14 s (`ServiceCalls.WaitTime`). `analyzeSymptoms` answers a 429 with a fixed message.
- **The HTTP-level retry configuration applies only to `askAI`.** It is installed on `axiosInstance`, which only `askAI` uses. `analyzeSymptoms` and `testApiConnection` call plain `axios`.

## Model

| member | source | states |
|---|---|---|
| `RateLimit.Initial` | src/utils/aiService.js:31-32 | At load the counter is 0 and the last request time is the load time. |
| `RateLimit.CeilDiv` | src/utils/aiService.js:66 | `Math.ceil(a / b)` for a positive divisor: the least q with a <= q*b. |
| `RateLimit.CheckRequestLimit` | src/utils/aiService.js:61-79 | Under 30 s since the last admission: rejected with ceil((30000-elapsed)/1000) seconds, state unchanged. Otherwise, with a full count within 60 s: rejected in minutes, 0 exactly at 60 s and 1 before. Otherwise admitted: the count becomes 1 after a window of more than 60 s and old+1 within it, and the time is stamped `now`. |
| `RateLimit.RejectionMessage` | src/utils/aiService.js:65-76 | Every rejection throws a non-empty message. |
| `RateLimit.RejectionLacksJ` | src/utils/aiService.js:66-75 | No rejection message contains `J`, so the `includes('JSON')` branch never rewrites it. |
| `RateLimit.SpacingWaitBounds` | src/utils/aiService.js:63-66 | A spacing rejection for an elapsed time in [0, 30 s) asks for 1 to 30 seconds and leaves the state alone. |
| `RateLimit.LoadGate` | src/utils/aiService.js:30-32 | Every call within 30 s of module load is rejected, because the load time counts as the last request. |
| `RateLimit.InvariantPreserved` | src/utils/aiService.js:69-78 | The counter stays within 0..2 across every check. |
| `RateLimit.ThirdCallWithinWindowRejected` | src/utils/aiService.js:73-78 | Two admissions at most 60 s apart fill the quota, and a third call within 60 s of the second is rejected. |
| `RateLimit.WindowRollover` | src/utils/aiService.js:69-72 | More than 60 s after the last admission the call is admitted with a fresh count of 1. |
| `ResponseCache.CheckCache` | src/utils/aiService.js:82-88 | A hit exactly when the key is stored and is less than two hours old; a hit returns the stored data. |
| `ResponseCache.SetCache` | src/utils/aiService.js:91-96 | The key is overwritten with the data stamped `now`; every other key is kept and no key is removed. |
| `ResponseCache.SerializedTemperature` | src/utils/aiService.js:235 | A text temperature serialises as it is; a number by a representative of its value. |
| `ResponseCache.RequestKey` | src/utils/aiService.js:235 | `JSON.stringify(data)` as a key for a triage request. |
| `ResponseCache.RequestKeyIff` | src/utils/aiService.js:235-236 | Two requests share a cache key exactly when symptoms, body parts and duration are equal and their temperatures are numbers of one value or one and the same text. |
| `ResponseCache.FreshnessWindow` | src/utils/aiService.js:28 | A stored value is served for exactly 7 200 000 ms after it was stored. |
| `ResponseCache.OtherKeysUntouched` | src/utils/aiService.js:91-96 | Storing one key never changes a lookup of another. |
| `ResponseCache.MissPersists` | src/utils/aiService.js:84 | A miss stays a miss as time advances while nothing is stored. |
| `ResponseCache.StoreKeepsWellTyped` | src/utils/aiService.js:201 | Storing an answer under a question key, or an assessment under a request key, keeps the cache well typed. |
| `Vitals.ValidateTemperature` | src/utils/aiService.js:48-55 | Passes exactly for NaN and for numbers in 35..42.5. |
| `Vitals.Band` | src/utils/aiService.js:104-118 | The first-match chain of thresholds puts each temperature in exactly one band, each band stated as its interval. |
| `Vitals.EmptyNoteOnlyInGaps` | src/utils/aiService.js:103-118 | The note is empty exactly for (35, 36.3) and (37.2, 37.5). |
| `Vitals.FeverNotesArePlausibleFevers` | src/utils/aiService.js:40-55 | A validated temperature with a fever note lies in 37.5..42.5. |
| `Prompt.TemperatureNote` | src/utils/aiService.js:103-119 | A number gets its band's note; a text gets none. |
| `Prompt.PartTexts` | src/utils/aiService.js:124 | `join` writes each `undefined` body part as an empty string and keeps the others. |
| `Prompt.DataLines` | src/utils/aiService.js:121-127 | Four lines: parts and symptoms joined with `、` in order; a numeric temperature as `String(x)` followed by `°C` and its band's note, a text temperature as it is with no unit or note; and the duration or `未知`. |
| `Prompt.ModerateFeverFixture` | src/pages/TestApi.jsx:35-41 | The connectivity page's first request renders as `- 體溫：38.5°C （中度發燒）`. |
| `Prompt.ThirtyEightFiveText` | src/utils/aiService.js:126 | The template literal writes 38.5 as `38.5`. |
| `Prompt.HighFeverWins` | src/utils/aiService.js:105-108 | 39.5 is annotated as a high fever, not a moderate one. |
| `ResponseParser.FirstIndex` | src/utils/aiService.js:275 | The index of the first occurrence, with none before it; none exactly when absent. |
| `ResponseParser.LastIndex` | src/utils/aiService.js:275 | The index of the last occurrence, with none after it; none exactly when absent. |
| `ResponseParser.ExtractJsonMatches` | src/utils/aiService.js:275 | The greedy `/\{[\s\S]*\}/` matches exactly when some `{` precedes some `}`, and a match is the span from the first `{` to the last `}`. |
| `ResponseParser.NoBracePair` | src/utils/aiService.js:275 | When the last `}` precedes the first `{`, no `{` precedes any `}`. |
| `ResponseParser.OutermostUnique` | src/utils/aiService.js:275 | The outermost brace pair is unique. |
| `ResponseParser.FirstIndexIs` | src/utils/aiService.js:275 | An occurrence with none before it is the first. |
| `ResponseParser.LastIndexIs` | src/utils/aiService.js:275 | An occurrence with none after it is the last. |
| `ResponseParser.ExtractSurrounded` | src/utils/aiService.js:275-277 | Prose before the first `{` and after the last `}` is cut away exactly. |
| `ResponseParser.Missing` | src/utils/aiService.js:294 | The filter never returns more fields than it was given. |
| `ResponseParser.MissingMembers` | src/utils/aiService.js:294 | A field is reported missing exactly when it is listed and absent or falsy. |
| `ResponseParser.MissingConcat` | src/utils/aiService.js:294 | The filter distributes over concatenation, so it keeps the list's order. |
| `ResponseParser.RequiredMissing` | src/utils/aiService.js:293-298 | The missing fields are the absent or falsy ones in the order diagnosis, level, advice, urgency; the list is empty exactly when all four are present. |
| `ResponseParser.MissingOfFour` | src/utils/aiService.js:293-294 | The filter of a four-field list, field by field. |
| `ResponseParser.MissingOne` | src/utils/aiService.js:294 | The filter of a one-field list. |
| `ResponseParser.MissingLacks` | src/utils/aiService.js:294 | The filter only returns names from its list. |
| `ResponseParser.MissingFieldsMessage` | src/utils/aiService.js:296-298 | The missing-field error has a non-empty message. |
| `ResponseParser.MissingFieldsLackJ` | src/utils/aiService.js:297 | The missing-field message has no `J`. |
| `ResponseParser.OnlyUrgencyMissing` | src/utils/aiService.js:293-298 | A reply lacking only `urgency` reports exactly `AI 回應缺少必要欄位: urgency`. |
| `ResponseParser.UrgencyOmittedReply` | src/utils/aiService.js:293-298 | A reply whose object has every required field but `urgency` fails with exactly `AI 回應缺少必要欄位: urgency`. |
| `ResponseParser.ArrayLacksEveryField` | src/utils/aiService.js:288-298 | An array passes the object test but lacks all four fields. |
| `ResponseParser.Precautions` | src/utils/aiService.js:301-303 | The precautions when they are an array, otherwise the empty list. |
| `ResponseParser.ParseReply` | src/utils/aiService.js:270-312 | Every parse failure is an error thrown by the client itself: no status, no code, a non-empty message. |
| `ResponseParser.ParseFailureLacksJ` | src/utils/aiService.js:279-297 | No parse-failure message contains `J`. |
| `ResponseParser.ParseReplyMeaning` | src/utils/aiService.js:273-312 | The format error occurs exactly when there is no brace span or the parser refuses it. A parsed value that is falsy or not an object fails with `AI 回應格式無效`. A truthy object or array lacking a required field fails with the missing-fields message for that value. A success comes from an object with all four fields truthy and keeps exactly those four plus the precautions. |
| `ResponseParser.CompleteObjectAccepted` | src/utils/aiService.js:287-312 | An object with all four fields truthy is always accepted. |
| `ResponseParser.FourFieldObject` | src/utils/aiService.js:293-303 | An object with four non-empty strings is complete and has no precautions. |
| `ResponseParser.ProseAroundObject` | src/utils/aiService.js:273-312 | A complete object wrapped in prose, without precautions, yields the four fields and an empty precaution list. |
| `ResponseParser.NoObjectIsFormatError` | src/utils/aiService.js:275-284 | A reply without `{` fails with `AI 回應格式錯誤`. |
| `ServiceCalls.Loaded` | src/utils/aiService.js:31-33 | The state at load satisfies the counter bound and the cache typing. |
| `ServiceCalls.ParsedTemperature` | src/utils/aiService.js:231 | `parseFloat` of a number gives its value; of a text, a number exactly when the text starts with one. |
| `ServiceCalls.TemperatureAcceptance` | src/utils/aiService.js:229-232 | A number passes exactly within 35..42.5; a text that is not a number parses to NaN and passes. |
| `ServiceCalls.TryAnalyze` | src/utils/aiService.js:223-317 | The `try` block in its order: invalid input fails with its check's message and changes nothing; a success has passed the checks and is stored under the request's key. The gate and cache invariants are kept. |
| `ServiceCalls.SendAnalysis` | src/utils/aiService.js:244-317 | A failed exchange throws its own error; a refused reply throws the parser's error; a success is the parsed assessment, stored stamped at arrival. The gate is untouched, and a failure changes nothing. |
| `ServiceCalls.AnalysisMessage` | src/utils/aiService.js:347-359 | First match wins: 429 and 401 map to their fixed messages; otherwise a timeout code gives `請求超時，請檢查網絡連接`; otherwise a message containing `JSON` gives `AI 回應格式錯誤，請重試`; otherwise a non-empty message is rethrown as it is and an empty one becomes `AI分析失敗，請稍後重試`. |
| `ServiceCalls.TimeoutOutlivesRetries` | src/utils/aiService.js:341-352 | A timeout on the third retry is not retried again and reaches the caller as `請求超時，請檢查網絡連接`. |
| `ServiceCalls.OwnMessageKept` | src/utils/aiService.js:354-359 | An error of the client's own without `J` is rethrown with its own message. |
| `ServiceCalls.Analyze` | src/utils/aiService.js:222-361 | The whole call: at most 3 retries, a non-empty message on failure, a cached assessment on success, and the gate and cache invariants kept. |
| `ServiceCalls.Settled` | src/utils/aiService.js:336-359 | Without a retry: a success is returned as is, a 403 gives the access-denied message, and any other failure gives a non-empty message. |
| `ServiceCalls.AfterTry` | src/utils/aiService.js:336-345 | After the `try` block the retry budget shrinks and the invariants are kept. |
| `ServiceCalls.Retry` | src/utils/aiService.js:340-345 | A retry counts at least one retry and at most the remaining budget. |
| `ServiceCalls.Backoff` | src/utils/aiService.js:343 | One wait per retry. |
| `ServiceCalls.BackoffStep` | src/utils/aiService.js:343 | Retry number k waits 1000*(k+1) ms before the rest. |
| `ServiceCalls.BackoffFromStart` | src/utils/aiService.js:36-37 | From retry count 0 the waits are 1000, 2000 and 3000 ms, at most 6000 ms in all. |
| `ServiceCalls.TotalBackoff` | src/utils/aiService.js:341-344 | A call from outside makes at most 3 retries, so at most 4 attempts, and waits at most 6000 ms. |
| `ServiceCalls.ForbiddenNotRetried` | src/utils/aiService.js:336-338 | A 403 is reported as access denied with no retry. |
| `ServiceCalls.OwnErrorSurfaces` | src/utils/aiService.js:319-359 | An error thrown by the client's own checks ends the call with its message, without a retry. |
| `ServiceCalls.InvalidInputRejectedFirst` | src/utils/aiService.js:224-232 | Invalid input fails with its check's message before the cache, the gate or the network: the state is unchanged. |
| `ServiceCalls.CheckMessagesLackJ` | src/utils/aiService.js:226 | The validation messages are non-empty and contain no `J`. |
| `ServiceCalls.CacheHitServed` | src/utils/aiService.js:234-239 | A fresh cached assessment is returned with no gate check and no request. |
| `ServiceCalls.RepeatServedFromCache` | src/utils/aiService.js:235-239 | Asking again within two hours returns the same assessment whatever the network says. |
| `ServiceCalls.RetriedAfterBackoff` | src/utils/aiService.js:340-345 | A timeout or server error other than 403, with budget left, is retried from the failed attempt's state and end time. |
| `ServiceCalls.RetryIs` | src/utils/aiService.js:343-344 | A retry is the call with the count one higher and the clock moved by the back-off. |
| `ServiceCalls.AttemptSucceeds` | src/utils/aiService.js:317 | A successful attempt is the result, with no retry. |
| `ServiceCalls.AdmittedFailure` | src/utils/aiService.js:241-268 | An admitted request that fails throws its error after the gate has counted it. |
| `ServiceCalls.ThrottledAttempt` | src/utils/aiService.js:242 | An attempt on a cache miss within 30 s of the last admission fails with the spacing message. |
| `ServiceCalls.AdmittedDelivery` | src/utils/aiService.js:244-317 | An admitted request whose reply parses returns the parsed assessment. |
| `ServiceCalls.ThrottledCall` | src/utils/aiService.js:242 | Such a call ends with the spacing message and no retry. |
| `ServiceCalls.DeliveredCall` | src/utils/aiService.js:241-317 | An admitted call whose reply parses returns it with no retry. |
| `ServiceCalls.ThrottledRetry` | src/utils/aiService.js:341-344 | A retry landing within 30 s of the last admission ends with the spacing message as its one retry. |
| `ServiceCalls.DeliveredRetry` | src/utils/aiService.js:341-344 | An admitted retry whose reply parses returns it as the one retry. |
| `ServiceCalls.FastServerErrorThrottled` | src/utils/aiService.js:341-344 | A 5xx or timeout arriving so that latency plus back-off is under 30 s is retried into the gate's spacing rejection, and that message is the result. |
| `ServiceCalls.SlowServerErrorRecovers` | src/utils/aiService.js:341-344 | With latency plus back-off of at least 30 s and an empty quota, the retry is admitted and its parsed reply is the result. |
| `ServiceCalls.ParseFailureSurfaces` | src/utils/aiService.js:273-298 | A refused reply surfaces with the parser's message and is not retried. |
| `ServiceCalls.WaitTime` | src/utils/aiService.js:215 | The suggested wait is between 5 and 14 s. |
| `ServiceCalls.TryAsk` | src/utils/aiService.js:156-203 | A success needs a key and is a non-empty answer stored under the question; the invariants are kept. |
| `ServiceCalls.AskMessage` | src/utils/aiService.js:204-219 | 401 maps to the key message, 429 to a wait of 5 to 14 s, and everything else to the generic message. |
| `ServiceCalls.AskAI` | src/utils/aiService.js:155-220 | `askAI`: a success is a non-empty cached answer, and the invariants are kept. |
| `ServiceCalls.AskInternalErrorsGeneric` | src/utils/aiService.js:204-218 | A missing key, a gate rejection or an empty reply all reach the caller as `無法獲取回答，請稍後重試`. |
| `ServiceCalls.AskWithoutKey` | src/utils/aiService.js:157-158 | Without a key the call fails generically and changes nothing. |
| `ServiceCalls.AskRepeatServedFromCache` | src/utils/aiService.js:161-166 | A question asked again within two hours gets the same answer and changes nothing. |
| `ServiceCalls.TestApiConnection` | src/utils/aiService.js:364-433 | `true` exactly when there is a key and a reply arrives. Otherwise: 403, 402, 401 and 429 map to their messages; any other failure gives `API 連接失敗: ` followed by the server's error text or else the error message, and a missing key gives that prefix followed by the key message. |
| `AiService.Service.constructor` | src/utils/aiService.js:31-33 | Fields as at module load, satisfying the invariant. |
| `AiService.Service.CheckRequestLimit` | src/utils/aiService.js:61-79 | Updates the fields exactly as `RateLimit.CheckRequestLimit` does; the cache is untouched. |
| `AiService.Service.CheckCache` | src/utils/aiService.js:82-88 | A hit exactly for a stored key less than two hours old, returning its data. |
| `AiService.Service.SetCache` | src/utils/aiService.js:91-96 | The cache becomes `ResponseCache.SetCache` of the old one; the gate fields are untouched. |
| `AiService.Service.TryAnalyze` | src/utils/aiService.js:223-317 | The `try` block on the fields agrees with `ServiceCalls.TryAnalyze`. |
| `AiService.Service.SendAnalysis` | src/utils/aiService.js:244-317 | The admitted part on the fields agrees with `ServiceCalls.SendAnalysis`. |
| `AiService.Service.AnalyzeSymptoms` | src/utils/aiService.js:222-361 | Result and new fields as `ServiceCalls.Analyze` gives them, with the back-off waits returned. |
| `AiService.Service.AskAI` | src/utils/aiService.js:155-220 | Result and new fields as `ServiceCalls.AskAI` gives them. |
| `JsText.LeadingSpace` | src/components/symptoms/SymptomSelector.jsx:43 | The length of the whitespace prefix. |
| `JsText.TrailingSpace` | src/components/symptoms/SymptomSelector.jsx:43 | The length of the whitespace suffix. |
| `JsText.Trim` | src/components/symptoms/SymptomSelector.jsx:43 | `trim` gives the infix between the whitespace prefix and suffix; it is empty exactly for all-whitespace text and otherwise neither starts nor ends with whitespace. |
| `JsText.TrimIdempotent` | src/components/symptoms/SymptomSelector.jsx:43-44 | Trimming twice is trimming once. |
| `JsText.TrimUnchanged` | src/pages/AskAI.jsx:24 | Text without surrounding whitespace is its own trim. |
| `JsText.JoinChars` | src/utils/aiService.js:297 | `join` only uses characters of the parts and the separator. |
| `JsText.JsonNeedsJ` | src/utils/aiService.js:354 | A text that includes `JSON` contains `J`. |
| `JsText.NatText` | src/utils/aiService.js:66 | A number's decimal text is a non-empty string of digits. |
| `JsText.IntText` | src/utils/aiService.js:66 | An integer's text is a `-` followed by digits for a negative number, and digits alone otherwise. |
| `JsText.NatTextRoundTrip` | src/utils/aiService.js:66 | Reading the digits back gives the number. |
| `JsText.DigitsValueAppend` | src/utils/aiService.js:231 | Digit strings concatenate positionally. |
| `JsNumber.DigitRun` | src/utils/aiService.js:231 | The length of the leading run of digits. |
| `JsNumber.ReadUnsigned` | src/utils/aiService.js:231 | An unsigned literal is read exactly when the text starts with a digit or with a point and a digit. |
| `JsNumber.ReadLiteral` | src/utils/aiService.js:231 | `parseFloat` yields a number exactly when a literal follows the whitespace and the optional sign, negative exactly after `-`. |
| `JsNumber.ParseFloatReadsLiteral` | src/utils/aiService.js:231 | Character-by-character `parseFloat` finds the longest literal that `ReadLiteral` describes. |
| `JsNumber.ReadBody` | src/utils/aiService.js:231 | Reading the unsigned part character by character finds what `ReadUnsigned` finds. |
| `JsNumber.Normalize` | src/utils/aiService.js:126 | Trailing fractional zeros are removed. |
| `JsNumber.NormalizeValue` | src/utils/aiService.js:126 | Removing them keeps the value. |
| `JsNumber.Canonical` | src/utils/aiService.js:235 | The representative `JSON.stringify` sees: same value, no trailing fractional zeros, and zero without a sign. |
| `JsNumber.CanonicalIff` | src/utils/aiService.js:235 | Two decimals have one representative exactly when they have the same value. |
| `JsNumber.NormalizedUnique` | src/utils/aiService.js:235 | Two non-zero decimals without trailing fractional zeros and of equal value are equal. |
| `JsNumber.PadDigits` | src/utils/aiService.js:126 | Fraction digits padded to their width. |
| `JsNumber.PadDigitsValue` | src/utils/aiService.js:126 | The padded digits read back as the number. |
| `JsNumber.NumberText` | src/utils/aiService.js:126 | `String(x)` in positional notation: no trailing fractional zeros, `0` for zero, at least one character. This is the form JavaScript uses for magnitudes from 1e-6 up to 1e21, which covers every temperature the range check lets through. |
| `JsNumber.NumberTextRoundTrip` | src/utils/aiService.js:230-231 | `parseFloat(String(x))` gives back x's value, which is what a numeric temperature goes through before validation. |
| `JsNumber.ZeroRoundTrip` | src/utils/aiService.js:230-231 | `0` is read back as zero. |
| `JsNumber.FractionRoundTrip` | src/utils/aiService.js:230-231 | The round trip for a number with a fraction. |
| `JsNumber.WholeRoundTrip` | src/utils/aiService.js:230-231 | The round trip for a whole number. |
| `JsNumber.ReadSignedPointed` | src/utils/aiService.js:231 | `-whole.frac` and `whole.frac` are read back as their digits and scale. |
| `JsNumber.SplitValue` | src/utils/aiService.js:126 | The quotient's digits followed by the padded remainder spell the dividend. |
| `Selection.FilterMembers` | src/pages/SymptomCheck.jsx:34-47 | `filter` keeps exactly the elements that pass. |
| `Selection.FilterIsSubsequence` | src/pages/SymptomCheck.jsx:34-47 | `filter` never adds and never reorders. |
| `Selection.FilterConcat` | src/pages/SymptomCheck.jsx:34-47 | `filter` distributes over concatenation. |
| `Selection.FilterKeepsAll` | src/pages/SymptomCheck.jsx:34-47 | A filter that keeps every element returns the list unchanged. |
| `Selection.FilterKeepsDistinct` | src/pages/SymptomCheck.jsx:25 | A filter of a duplicate-free list is duplicate-free. |
| `Selection.RemoveAll` | src/pages/SymptomCheck.jsx:25 | The value is gone and every other value stays. |
| `Selection.RemoveAllCounts` | src/pages/SymptomCheck.jsx:25 | Every occurrence goes, and other values keep their counts. |
| `Selection.IndexOf` | src/components/symptoms/SymptomSelector.jsx:52-57 | The first position of a value, or the length when it is absent. |
| `Selection.Toggle` | src/pages/SymptomCheck.jsx:22-28 | The value is selected afterwards exactly when it was not before; other values keep their membership. |
| `Selection.ToggleOffRemoves` | src/components/symptoms/BodyPartMap.jsx:39-41 | Deselecting removes every occurrence and keeps the rest in order. |
| `Selection.ToggleOnAppends` | src/components/symptoms/BodyPartMap.jsx:42-44 | Selecting appends at the end. |
| `Selection.ToggleTwice` | src/components/symptoms/BodyPartMap.jsx:38-46 | Clicking twice restores the selection. |
| `Selection.ToggleKeepsDistinct` | src/pages/SymptomCheck.jsx:22-28 | A duplicate-free selection stays duplicate-free. |
| `BodyPartMap.Find` | src/pages/SymptomCheck.jsx:65 | `find` gives the first entry with the id, or none exactly when no entry has it. |
| `BodyPartMap.DistinctIds` | src/components/symptoms/BodyPartMap.jsx:4-35 | Six parts with distinct ids. |
| `BodyPartMap.FindEachPart` | src/components/symptoms/BodyPartMap.jsx:4-35 | A lookup by each part's id finds that part. |
| `BodyPartMap.SymptomsHaveOneOwner` | src/components/symptoms/BodyPartMap.jsx:4-35 | No symptom is listed under two parts. |
| `SymptomCheck.KeepForParts` | src/pages/SymptomCheck.jsx:34-47 | A symptom stays exactly when it was selected and is either custom or listed by a newly selected part. |
| `SymptomCheck.KeepForPartsIsSubsequence` | src/pages/SymptomCheck.jsx:34-47 | The kept symptoms are the old ones, in order. |
| `SymptomCheck.CustomSymptomKept` | src/pages/SymptomCheck.jsx:41-43 | A custom symptom always survives. |
| `SymptomCheck.PredefinedKeptIff` | src/pages/SymptomCheck.jsx:37-46 | A predefined symptom survives exactly when a selected part lists it. |
| `SymptomCheck.MergeVitals` | src/pages/SymptomCheck.jsx:52-54 | A key in the update overrides; every other key is kept. |
| `SymptomCheck.MergeIdempotent` | src/pages/SymptomCheck.jsx:52-54 | Merging an update twice is merging it once, and an empty update changes nothing. |
| `SymptomCheck.ShapeTemperature` | src/pages/SymptomCheck.jsx:68-69 | `unknown` becomes `未知`. Otherwise a non-zero parsed number is kept and everything else becomes 36.5, so the result is never zero. |
| `SymptomCheck.PartName` | src/pages/SymptomCheck.jsx:64-66 | A part's name, or `undefined` exactly for an unknown id. |
| `SymptomCheck.PartNameOfEachPart` | src/pages/SymptomCheck.jsx:64-66 | Each table id maps to its name. |
| `SymptomCheck.Payload` | src/pages/SymptomCheck.jsx:62-72 | Symptoms as selected, one name per selected id in order, the shaped temperature and the duration as typed. |
| `SymptomCheck.PartNames` | src/pages/SymptomCheck.jsx:64-66 | The `map` gives one name (or `undefined`) per selected id, in order. |
| `SymptomCheck.UnknownReachesServiceAsNaN` | src/pages/SymptomCheck.jsx:68 | The page sends `未知`, never the sentinel `unknown`; it parses to NaN and passes validation. |
| `SymptomCheck.SentinelNeverSent` | src/pages/SymptomCheck.jsx:67-72 | The temperature sent is never the sentinel and never zero. |
| `SymptomCheck.TemperatureSpellingsShareKey` | src/components/symptoms/VitalSigns.jsx:20-24 | Two spellings of one non-zero temperature typed in the form give requests with one cache key. |
| `SymptomCheck.ThirtyEightSharesKey` | src/utils/aiService.js:235-236 | Typing `38` and then `38.0` gives requests with one cache key, so the second is served from the cache. |
| `SymptomCheck.PointZeroSharesKey` | src/utils/aiService.js:235-236 | A whole number typed as such and then with `.0` gives requests with one cache key. |
| `SymptomCheck.WholeLiteral` | src/pages/SymptomCheck.jsx:67-72 | `parseFloat` of a digit string is its value. |
| `SymptomCheck.PointZeroLiteral` | src/pages/SymptomCheck.jsx:67-72 | `parseFloat` of a digit string followed by `.0` is the same number, written with one decimal. |
| `SymptomCheck.Page.constructor` | src/pages/SymptomCheck.jsx:9-19 | The initial state hooks. |
| `SymptomCheck.Page.SelectSymptom` | src/pages/SymptomCheck.jsx:22-28 | The symptoms are toggled; nothing else changes. |
| `SymptomCheck.Page.SelectBodyParts` | src/pages/SymptomCheck.jsx:31-49 | The parts are replaced and the symptoms filtered by `KeepForParts`. |
| `SymptomCheck.Page.ChangeVitals` | src/pages/SymptomCheck.jsx:52-54 | The vitals are merged; nothing else changes. |
| `SymptomCheck.Page.Submit` | src/pages/SymptomCheck.jsx:57-82 | The service ends as `Analyze` of the payload leaves it. A success is shown; any failure becomes the one generic error and keeps the old result. The spinner stops. |
| `SymptomSelector.ItemsOf` | src/components/symptoms/SymptomSelector.jsx:8 | A part's symptoms, or `[]` for an unknown id. |
| `SymptomSelector.CommonSymptomsKeys` | src/components/symptoms/SymptomSelector.jsx:5-34 | Seven distinct keys: the six part ids in order, then `general`. |
| `SymptomSelector.CategoryItems` | src/components/symptoms/SymptomSelector.jsx:6-29 | Each part category holds that part's symptoms. |
| `SymptomSelector.GeneralIsEmpty` | src/components/symptoms/SymptomSelector.jsx:30-33 | `general` has no symptoms, because no part has that id. |
| `SymptomSelector.Lookup` | src/components/symptoms/SymptomSelector.jsx:53 | `commonSymptoms[id]` is none exactly for an unknown key. |
| `SymptomSelector.LookupIn` | src/components/symptoms/SymptomSelector.jsx:53 | A lookup in a category list by key. |
| `SymptomSelector.LookupUnique` | src/components/symptoms/SymptomSelector.jsx:53-54 | With distinct keys, a lookup finds the category under that key. |
| `SymptomSelector.AvailableSymptoms` | src/components/symptoms/SymptomSelector.jsx:51-58 | No selection offers all categories. Otherwise it offers exactly the categories selected, once each, in the order of their first selection, and nothing when no key is known. |
| `SymptomSelector.Collect` | src/components/symptoms/SymptomSelector.jsx:52-57 | The `reduce` collects the known selected categories, without duplicates and in first-selection order. |
| `SymptomSelector.CollectKnownKey` | src/components/symptoms/SymptomSelector.jsx:53-54 | Re-assigning a key already held changes nothing. |
| `SymptomSelector.CollectNewKey` | src/components/symptoms/SymptomSelector.jsx:53-54 | A new key's category goes last. |
| `SymptomSelector.CollectUnknownKey` | src/components/symptoms/SymptomSelector.jsx:53 | An unknown key is skipped. |
| `SymptomSelector.IndexOfId` | src/components/symptoms/SymptomSelector.jsx:54 | The first category with the key, or the length. |
| `SymptomSelector.OtherSymptomForm.constructor` | src/components/symptoms/SymptomSelector.jsx:37-38 | Empty text, form closed. |
| `SymptomSelector.OtherSymptomForm.Open` | src/components/symptoms/SymptomSelector.jsx:119-121 | Opens the form and keeps the text. |
| `SymptomSelector.OtherSymptomForm.Cancel` | src/components/symptoms/SymptomSelector.jsx:111-116 | Closes the form and keeps the text. |
| `SymptomSelector.OtherSymptomForm.Type` | src/components/symptoms/SymptomSelector.jsx:100 | Replaces the text. |
| `SymptomSelector.OtherSymptomForm.Submit` | src/components/symptoms/SymptomSelector.jsx:41-48 | Blank text changes nothing. Otherwise the trimmed, non-empty text is handed to `onSymptomSelect`, the input cleared and the form closed. The page's handler toggles it (`SymptomCheck.Page.SelectSymptom`), so re-submitting a custom symptom that is already selected deselects it. |
| `AskAiPage.DropNewlines` | src/pages/AskAI.jsx:13 | Leading newlines removed. |
| `AskAiPage.DropNewlinesSplits` | src/pages/AskAI.jsx:13 | What is dropped is a run of newlines, and what is left does not start with one. |
| `AskAiPage.SplitNewlineRuns` | src/pages/AskAI.jsx:13 | `split(/\n+/)` gives at least one paragraph; where the paragraphs break is stated by `ParagraphsJoinRuns` and `InnerParagraphsNonEmpty`. |
| `AskAiPage.ParagraphsHaveNoNewline` | src/pages/AskAI.jsx:13 | No paragraph contains a newline. |
| `AskAiPage.ParagraphsKeepText` | src/pages/AskAI.jsx:13 | The paragraphs, concatenated, are the answer without its newlines. |
| `AskAiPage.FilterSkipsNewlineRun` | src/pages/AskAI.jsx:13 | A run of newlines contributes nothing. |
| `AskAiPage.InnerParagraphsNonEmpty` | src/pages/AskAI.jsx:13 | A whole newline run is one separator, so only the first and the last paragraph can be empty. |
| `AskAiPage.LeadingParagraphsNonEmpty` | src/pages/AskAI.jsx:13 | A text that does not start with a newline has no empty paragraph but the last. |
| `AskAiPage.ParagraphsJoinRuns` | src/pages/AskAI.jsx:13 | The paragraphs joined with one newline each are the answer with every newline run collapsed to one newline: they are exactly the texts between the runs. |
| `AskAiPage.FlattenConcat` | src/pages/AskAI.jsx:13 | Concatenation distributes over lists. |
| `AskAiPage.NextCut` | src/pages/AskAI.jsx:18 | The next position where the zero-width separator matches. |
| `AskAiPage.Pieces` | src/pages/AskAI.jsx:18 | The split before the separator's positions, with no empty piece; `PiecesCutExactly` states where the cuts fall. |
| `AskAiPage.SplitBefore` | src/pages/AskAI.jsx:18 | The split of a paragraph. |
| `AskAiPage.PiecesConcat` | src/pages/AskAI.jsx:18 | The pieces concatenate back to the paragraph. |
| `AskAiPage.PiecesCutExactly` | src/pages/AskAI.jsx:18 | Every piece after the first starts where the separator matches, no match lies strictly inside a piece, and every match after the start begins a piece. |
| `AskAiPage.MarkerPieces` | src/pages/AskAI.jsx:18 | The split as written, `(?=\d+\.)`, loses nothing and cuts exactly before every position where a digit run followed by a point begins, inner digits of a number included. |
| `AskAiPage.ItemPieces` | src/pages/AskAI.jsx:18 | The corrected split loses nothing and cuts exactly before every whole marker (one not preceded by a digit): every whole marker begins an item, and no item holds one after its start. |
| `AskAiPage.ItemPiecesStartWithMarkers` | src/pages/AskAI.jsx:17-18 | Each item of a numbered paragraph starts with its full number and a point, and no item but the last ends in a digit. |
| `AskAiPage.ItemPiecesStartAtMarkers` | src/pages/AskAI.jsx:18 | Pieces cut at item starts begin with a marker. |
| `AskAiPage.ItemPiecesEndOutsideNumbers` | src/pages/AskAI.jsx:18 | Pieces cut at item starts never split a number. |
| `AskAiPage.HeadBeforeItem` | src/pages/AskAI.jsx:18 | The text before an item start does not end in a digit. |
| `AskAiPage.Item` | src/pages/AskAI.jsx:23-24 | The label is the leading digits; the body is the trimmed text after the marker, or the trimmed piece when there is no marker. |
| `AskAiPage.Items` | src/pages/AskAI.jsx:21-26 | One item per piece. |
| `AskAiPage.FormatParagraph` | src/pages/AskAI.jsx:17-32 | A list exactly for a numbered paragraph, with the non-empty pieces as items; otherwise the trimmed paragraph. |
| `AskAiPage.FormatParagraphs` | src/pages/AskAI.jsx:15-33 | One block per paragraph. |
| `AskAiPage.FormatAnswerAsWritten` | src/pages/AskAI.jsx:11-34 | `formatAnswer` with the source's split: one block per paragraph. |
| `AskAiPage.FormatAnswer` | src/pages/AskAI.jsx:11-34 | `formatAnswer` with the corrected split: block i formats paragraph i. |
| `AskAiPage.NumberedParagraph` | src/pages/AskAI.jsx:17-28 | A numbered paragraph becomes items that concatenate back to it, each labelled with its whole number and carrying the trimmed text after the point. |
| `AskAiPage.TenIsNumbered` | src/pages/AskAI.jsx:17 | `10.` is one paragraph that starts with a marker. |
| `AskAiPage.TenPiecesAsWritten` | src/pages/AskAI.jsx:18 | The source splits `10.` into `1` and `0.`. |
| `AskAiPage.TenItemsAsWritten` | src/pages/AskAI.jsx:23-24 | Those pieces render as items `1.` with body `1`, and `0.` with an empty body. |
| `AskAiPage.TenFilterAsWritten` | src/pages/AskAI.jsx:21 | `filter(Boolean)` keeps both pieces. |
| `AskAiPage.TenListAsWritten` | src/pages/AskAI.jsx:21-26 | The two items of `10.` as written. |
| `AskAiPage.TenParagraphAsWritten` | src/pages/AskAI.jsx:17-28 | `10.` renders as a two-item list. |
| `AskAiPage.TenSplitInTwo` | src/pages/AskAI.jsx:11-34 | The answer `10.` renders as items `1.`/`1` and `0.`/(empty). |
| `AskAiPage.TenStaysWhole` | src/pages/AskAI.jsx:11-34 | With the corrected split, `10.` is one item numbered 10. |
| `AskAiPage.SubmittedQuestion` | src/pages/AskAI.jsx:38 | A blank question is not sent; any other question is sent untrimmed. |
| `AskAiPage.CommonQuestionsSubmit` | src/pages/AskAI.jsx:128-133 | Every quick-access question passes the guard unchanged. |
| `AskAiPage.QuestionPage.constructor` | src/pages/AskAI.jsx:5-8 | The initial state hooks. |
| `AskAiPage.QuestionPage.SetQuestion` | src/pages/AskAI.jsx:65 | Replaces the question; nothing else changes. |
| `AskAiPage.QuestionPage.Shown` | src/pages/AskAI.jsx:100-106 | Nothing for an empty answer, otherwise one block per paragraph of the corrected `FormatAnswer` (see "## Left out" for the as-written page). |
| `AskAiPage.QuestionPage.Submit` | src/pages/AskAI.jsx:36-50 | A blank question changes nothing. Otherwise the service ends as `askAI` leaves it: the answer replaces the old one, or the message becomes the error with the old answer kept, and the spinner stops. |

## Left out

**Transport and run time:**
- The HTTP transport (`axios`) is not modelled. Request bodies, headers, model names, token limits and timeouts are not modelled either; each request's outcome is the `Exchange` the network parameter gives, including its latency.
- The HTTP-level retry policy on `askAI`'s `axiosInstance` (one retry on 429 or timeout after 10 s) is not modelled separately. The `Exchange` that `askAI` receives stands for whatever that retry produced.
- `setTimeout`, `await` and the interleaving of concurrent calls are not modelled. Each call runs to completion before the next, and a delay advances the clock parameter: every back-off wait is returned as a value (`Backoff`).
- `console` logging is not modelled.

**Stubs and rendering:**
- `useBackupAPI` is an empty function that nothing calls, so it is not modelled.
- JSX rendering, CSS classes, the disabled state of buttons and the `VitalSigns` form component are not modelled. The page models keep the state hooks and the values handed to the service.

**Dependencies taken as parameters:**
- `JSON.parse` is a parameter. The model does not describe JSON syntax.
- `JSON.stringify` of a request is modelled as the request value with its numeric temperature in canonical form (`ResponseCache.RequestKey`): strings and arrays serialise injectively, and a number serialises by the double it denotes, so `38` and `38.0` share a key. Request keys and question keys are tagged apart, so a question whose text equals a serialised request cannot collide with it as it could in the source's single `Map`.
- `Math.random` is the parameter `roll`.

**Numbers and parsing:**
- `JsNumber.ReadLiteral`: `parseFloat` does not read exponents (`1e2`), `Infinity` or numbers beyond finite decimals; it stops before the `e`. The form's number input (`src/components/symptoms/VitalSigns.jsx:20-24`) can hand on a value with an exponent, such as `3.85e1`: the source reads it as 38.5, accepts it and sends it, while the model reads 3.85 and rejects the request with the temperature error.
- `JsNumber.ReadLiteral`: numbers are exact decimals, not IEEE-754 doubles, so rounding to the nearest double is not modelled. A text with more significant digits than a double holds can differ: `parseFloat("42.5000000000000001")` rounds to 42.5 in JavaScript and passes `Vitals.ValidateTemperature`, while the model keeps the exact value and rejects it. The same can happen next to every band threshold of `Vitals.Band`.
- `JsNumber.NumberText`: only the positional form is modelled. JavaScript writes an exponent below 1e-6 and from 1e21 on, and prints the shortest text that rounds to the same double; neither matters for a temperature inside 35..42.5 with the few decimals the form gives.
- An error envelope whose `response.data.choices[0]` is missing is not modelled: a delivered reply always has content. `askAI`'s empty-content check is modelled.

**Simplifications of the control flow:**
- `AskAiPage.QuestionPage.Shown`: the answer area is specified with the corrected list split (`FormatAnswer`), not the split the page uses (`src/pages/AskAI.jsx:18`, rendered at line 104). The page as written shows `FormatAnswerAsWritten(answer)`; the two differ whenever a number of two or more digits is followed by a point, as in `10.` (`AskAiPage.TenSplitInTwo` against `AskAiPage.TenStaysWhole`, and the row under "## Findings").
- `AiService.Service.AnalyzeSymptoms`: the method runs the first attempt step by step on the fields. It takes the outcome of the retries, when there are any, from the function `ServiceCalls.Retry` instead of calling itself recursively. The recursive calls are therefore specified by that function, not re-executed as method steps.

## Findings

| source | as written | input that shows it | evidently intended | confidence | as-written member | corrected member |
|---|---|---|---|---|---|---|
| src/pages/AskAI.jsx:18 | `paragraph.split(/(?=\d+\.)/)` cuts before every digit that begins a digit run followed by a point, including the inner digits of a multi-digit number. | The answer `10.` renders as item `1.` with body `1`, followed by item `0.` with an empty body. | A cut only before a whole number marker, so `10.` stays one item numbered 10. | not executed | `AskAiPage.FormatAnswerAsWritten`, exhibited by `AskAiPage.TenSplitInTwo` | `AskAiPage.FormatAnswer`, proved by `AskAiPage.NumberedParagraph` and `AskAiPage.TenStaysWhole` |
