# MathQuest coach and learning API — a Dafny model

This project models the server-side core of MathQuest, a SAT math practice
web application. The model covers:

- **The AI coach pipeline** (`apps/web/src/lib/coach/`):
  - the prompt builder: the context line, the system prompt and the chat messages;
  - the completion generator: choosing the chat or responses convention,
    normalising token usage, the bounded retry loop with capped exponential
    backoff, and the cache fingerprint;
  - the response cache, with a time-to-live in memory behind an optional remote store;
  - the fixed-window rate limiter, with a local path and a remote path;
  - the fail-open moderation gate.
- **The coach HTTP handler** (`apps/web/src/app/api/coach/route.ts`), as an
  ordered decision: 503 without a key, 400 for a body that is not JSON or
  fails the schema, then 500, 502 or 200 depending on what the provider did.
- **The request schemas** of `apps/web/src/lib/validation.ts`, as parsers.
  Each parser succeeds exactly when the schema accepts, and otherwise
  reports every issue. A round trip shows that a well-formed payload,
  encoded as JSON, parses back to itself.
- **The math text utilities** of `apps/web/src/lib/math-utils.ts`:
  splitting text on `$…$` and `$$…$$`, detecting LaTeX, counting
  expressions and extracting their contents.
- **The streak, attempt, profile-sync and user-stats handlers** as pure
  functions over their inputs.

Everything outside the program is an input:

- the clock (milliseconds);
- the SHA-256 digest (a function parameter);
- the provider's reply to each call (`provider(k)` for the k-th attempt; a
  function of the request for the handler);
- the remote store's replies to INCR, TTL and GET;
- the moderation classifier's outcome;
- the auth provider's user;
- the database rows;
- the number of calendar days between two activities.

The shared helpers come first: `Wrappers` (results and options), `Text`
(JavaScript string built-ins) and `Json` (JavaScript values, `||`, `??`,
`String(v)`). `Session` holds what several handlers share: the signed-in
user, the e-mail local part and the display-name chain. The domain
modules follow the source files: `CoachPrompt`, `CoachService`,
`CoachCache`, `RateLimit`, `Moderation`, `Validation`, `CoachRoute`,
`MathText` (with `MathSpans`, its lemmas about texts made of several
math expressions), `Streaks`, `Attempts`, `ProfileSync` and `UserStats`.

Three behaviours of the code are worth stating up front:

- The coach handler has its own copy of the context builder, and that copy
  never includes the topic. A validated `topic` is accepted and then ignored
  (`CoachRoute.TopicIgnored`, `CoachRoute.HandlerMatchesServiceMessages`).
- Under the responses API, system messages supplied by the client are
  dropped. The instructions are always the generated system prompt
  (`CoachService.ResponsesInstructionsAreSystemPrompt`).
- The handler never polls or streams. It makes one chat completion call,
  with no retry.

## Model

| member | source | states |
|---|---|---|
| CoachPrompt.ContextDetails | apps/web/src/lib/coach/service.ts:91-140 | The context is empty exactly when there is no non-empty topic, no question and no summary field; otherwise it starts with "Context: " and then the topic line, else the question line, else it is exactly the summary line |
| CoachPrompt.ContextOrder | apps/web/src/lib/coach/service.ts:96-139 | With all three sources the context is the topic line, the question line and the summary line in that order, joined by single spaces |
| CoachPrompt.ContextPairs | apps/web/src/lib/coach/service.ts:96-139 | With two sources present the absent one is skipped and the other two keep the order topic, question, summary, joined by a single space |
| CoachPrompt.ContextSingles | apps/web/src/lib/coach/service.ts:96-139 | With one source present the context is that source's line alone |
| CoachPrompt.QuestionLineStartsWithPrompt | apps/web/src/lib/coach/service.ts:102-113 | The question line begins with "Current question prompt: " followed by the prompt |
| CoachPrompt.SystemPrompt | apps/web/src/lib/coach/service.ts:142-152 | The preamble, the mode's guidance and the style directive, then the context only when it is non-empty, joined by single spaces; the prompt always starts with the preamble |
| CoachPrompt.ToChatMessages | apps/web/src/lib/coach/service.ts:154-164 | One system message holding the system prompt, followed by the caller's messages unchanged |
| CoachService.FormatUsage | apps/web/src/lib/coach/service.ts:176-199 | No usage gives none; prompt tokens fall back to input tokens and completion tokens to output tokens; a missing total is their sum when both are known and absent otherwise |
| CoachService.ResponsesInputAppend | apps/web/src/lib/coach/service.ts:266-283 | The responses input of two concatenated message lists is the concatenation of their inputs, so turns keep their order |
| CoachService.ResponsesInputKeepsAll | apps/web/src/lib/coach/service.ts:266-283 | When every turn is a user or assistant turn with text, none is dropped and turn i of the output is turn i of the input with its content trimmed |
| CoachService.ToResponsesInput | apps/web/src/lib/coach/service.ts:266-283 | The loop computes the reference filter: no system turn, no empty text, every content already trimmed, never longer than the input |
| CoachService.ExtractInstructions | apps/web/src/lib/coach/service.ts:285-298 | Instructions exist exactly when the first system message has non-blank text, and they are that text trimmed |
| CoachService.InstructionsIgnoreLaterMessages | apps/web/src/lib/coach/service.ts:285-298 | Messages after the first system message never change the instructions |
| CoachPrompt.Guidance | apps/web/src/lib/coach/service.ts:49-70 | Each mode's guidance is non-empty with no space at either end, so the prompt's trimming keeps it whole |
| CoachPrompt.Temperature | apps/web/src/lib/coach/service.ts:49-70 | Temperatures lie between 0.2 and 0.6; the explaining mode alone has the lowest and the comforting mode alone the highest |
| CoachPrompt.ModeBehaviorsDistinct | apps/web/src/lib/coach/service.ts:49-70 | No two modes share a guidance text or a temperature |
| CoachPrompt.ToFixed2Rounds | apps/web/src/lib/coach/service.ts:111 | The difficulty is printed as an optional minus sign (exactly for negative values), digits, a point and two digits, whose value in hundredths is within half a hundredth of the input |
| CoachService.UseResponsesApi | apps/web/src/lib/coach/service.ts:167 | The responses convention is chosen for model names starting with "gpt-5", and such a model is never sent a temperature |
| CoachService.ResponsesSupportsTemperature | apps/web/src/lib/coach/service.ts:262-264 | A temperature is withheld exactly when the first five characters, lower-cased, spell "gpt-5" |
| CoachService.FallbackInput | apps/web/src/lib/coach/service.ts:313-323 | The fallback is one user turn: the last message's trimmed text when it is not blank, otherwise the stock request; it is always trimmed and non-empty |
| CoachService.BuildRequest | apps/web/src/lib/coach/service.ts:300-366 | The responses convention is used exactly for "gpt-5" models; it sends no temperature, the caller's kept turns as input (the fallback turn when none is kept) and a 512-token output cap; the chat convention sends the built messages at the mode's temperature with a 512-token cap |
| CoachService.ResponsesInputSkipsPrompt | apps/web/src/lib/coach/service.ts:266-283 | The system prompt at the head of the chat messages never reaches the responses input |
| CoachService.LowerKeepsGpt5Prefix | apps/web/src/lib/coach/service.ts:262-264 | A model name starting with "gpt-5" still starts with it after lower-casing, so the temperature check agrees with the convention check |
| CoachService.ResponsesInstructionsAreSystemPrompt | apps/web/src/lib/coach/service.ts:309-333 | Under the responses convention the instructions are always the trimmed generated system prompt |
| CoachService.MaxAttempts | apps/web/src/lib/coach/service.ts:305 | At least one attempt is made, and retries + 1 attempts when the retry count is not negative |
| CoachService.Backoff | apps/web/src/lib/coach/service.ts:391 | Every wait lies between 500 and 4000 ms |
| CoachService.BackoffScheduleAt | apps/web/src/lib/coach/service.ts:391 | The k-th wait is the backoff after failed attempt k, and the first is 500 ms |
| CoachService.BackoffDoubles | apps/web/src/lib/coach/service.ts:391 | Each later wait doubles the previous one until the 4000 ms cap |
| CoachService.BackoffShape | apps/web/src/lib/coach/service.ts:391 | Waits double from 500 ms, never exceed 4000 ms, reach the cap from the fourth failure on and never decrease |
| CoachService.RunFrom | apps/web/src/lib/coach/service.ts:307-394 | The loop stops at the first attempt that yields text and returns it with that attempt number; otherwise it fails with the last attempt's error after exactly the attempt budget |
| CoachService.RunWaits | apps/web/src/lib/coach/service.ts:386-392 | Between attempts the loop waits the backoff of the attempt that just failed, in attempt order, and never after the last call |
| CoachService.RetryRun | apps/web/src/lib/coach/service.ts:300-397 | Every earlier call failed; a success carries the trimmed non-empty text and its attempt count; a failure uses the whole budget and surfaces the last error |
| CoachService.RetryExhaustion | apps/web/src/lib/coach/service.ts:386-393 | A provider that fails k times then answers succeeds on call k+1 when the budget allows, and otherwise yields the error of the last allowed call |
| CoachService.BuildFingerprint | apps/web/src/lib/coach/service.ts:399-408 | The fingerprint carries the mode, the messages and the model |
| CoachService.FingerprintIdentity | apps/web/src/lib/coach/service.ts:399-408 | Two fingerprints are equal exactly when the payloads and models are equal |
| CoachCache.CacheKey | apps/web/src/lib/coach/cache.ts:32-36 | The key is "coach:response:" followed by the digest of the fingerprint |
| CoachCache.KeyIdentity | apps/web/src/lib/coach/cache.ts:32-36 | Two keys are equal exactly when their digests are equal; equal payloads under one model share a key |
| CoachCache.GetCached | apps/web/src/lib/coach/cache.ts:38-60 | A remote hit wins; otherwise a missing key misses, a stale entry is evicted and misses, and a fresh entry is served; other keys are untouched |
| CoachCache.SetCached | apps/web/src/lib/coach/cache.ts:62-71 | The entry is stamped with the current time and stored under its key; it is written to the remote store with the TTL as expiry exactly when a store is configured; other keys are untouched |
| CoachCache.CreateEntry | apps/web/src/lib/coach/cache.ts:73-82 | The entry holds the result and the mode, stamped now |
| CoachCache.SetThenGet | apps/web/src/lib/coach/cache.ts:38-71 | A read right after a write returns the stamped entry, and reads of other keys see what they saw before |
| CoachCache.ExpiryBoundary | apps/web/src/lib/coach/cache.ts:54-57 | An entry is served up to and including the instant its TTL runs out, is gone a millisecond later and stays gone |
| CoachCache.ServedEntriesAreFresh | apps/web/src/lib/coach/cache.ts:49-59 | Whatever a read serves from memory is that key's entry and is within the TTL |
| RateLimit.CeilSeconds | apps/web/src/lib/coach/rate-limit.ts:80 | The retry delay is the least whole number of seconds covering the remaining milliseconds |
| RateLimit.EnforceLocal | apps/web/src/lib/coach/rate-limit.ts:62-90 | A missing or expired window restarts at count 1 and passes; otherwise the count grows by one and the call passes exactly when it is within the limit; a refusal reports zero remaining and a positive retry delay |
| RateLimit.WindowSequence | apps/web/src/lib/coach/rate-limit.ts:74-90 | Inside one window the call that makes the count n passes exactly when n is within the limit, with max(0, limit - n) remaining, and every call advances the count |
| RateLimit.FreshWindow | apps/web/src/lib/coach/rate-limit.ts:62-90 | For a new identifier the first call always passes and the n-th passes exactly when n is within the limit |
| RateLimit.OthersUntouched | apps/web/src/lib/coach/rate-limit.ts:63-84 | Calls by one identifier leave every other identifier's counter as it was |
| RateLimit.EnforceRemote | apps/web/src/lib/coach/rate-limit.ts:36-60 | INCR always comes first, EXPIRE is sent exactly on the first call and TTL exactly on a refusal; a refusal retries after the TTL when it is positive and after the window otherwise |
| RateLimit.RemoteAgreesWithLocal | apps/web/src/lib/coach/rate-limit.ts:36-90 | Inside a live window the remote path and the local path agree on passing, remaining and limit |
| Moderation.TruthyKeys | apps/web/src/lib/coach/moderation.ts:25-27 | The reported categories are keys whose value is truthy, at most one per entry |
| Moderation.TruthyKeysAppend | apps/web/src/lib/coach/moderation.ts:25-27 | The categories keep the classifier's order |
| Moderation.TruthyKeysComplete | apps/web/src/lib/coach/moderation.ts:25-27 | Every category with a truthy value is reported |
| Moderation.EnsureSafe | apps/web/src/lib/coach/moderation.ts:11-40 | A classification is attempted exactly for non-blank input; a refusal carries categories and comes only from a flagged first result; a failing classifier lets the request through |
| Moderation.RefusedIffFlagged | apps/web/src/lib/coach/moderation.ts:11-40 | The gate refuses exactly when the input is not blank and the first classification is flagged |
| Validation.ParseString | apps/web/src/lib/validation.ts:5 | A string schema with length bounds (in UTF-16 units) accepts exactly the strings within them |
| Validation.NumberIssues | apps/web/src/lib/validation.ts:10-14 | A number draws no issues exactly when it is integral where required and within the bounds |
| Validation.NamesRoundTrip | apps/web/src/lib/validation.ts:27-34 | Role and mode names map back to the roles and modes they name |
| Validation.ParseMessage | apps/web/src/lib/validation.ts:27-30 | A message parses exactly when it is an object with a known role and non-empty string content |
| Validation.ParseMessageItems | apps/web/src/lib/validation.ts:33 | An array of messages parses exactly when every item does, item by item |
| Validation.ParseMessages | apps/web/src/lib/validation.ts:33 | The messages parse exactly when they form a non-empty array of valid messages |
| Validation.ParseMode | apps/web/src/lib/validation.ts:34 | An absent mode defaults to hint, and a present one must be a known mode name |
| Validation.ParseChoices | apps/web/src/lib/validation.ts:40 | Choices are absent or an array of strings |
| Validation.ParseQuestion | apps/web/src/lib/validation.ts:36-45 | A question parses exactly when it is an object with a non-empty prompt and correctly typed optional fields |
| Validation.ParseSummary | apps/web/src/lib/validation.ts:46-53 | A summary parses exactly when its counts are non-negative integers and its other fields are correctly typed |
| Validation.ParseCoachRequest | apps/web/src/lib/validation.ts:32-54 | A request parses exactly when it meets the schema; the result has at least one message, the default mode when none is given, a topic of at most 80 units and a non-empty question prompt; a rejection lists at least one issue |
| Validation.MessageRoundTrip | apps/web/src/lib/validation.ts:27-30 | An encoded message with content parses back to itself |
| Validation.QuestionRoundTrip | apps/web/src/lib/validation.ts:36-45 | An encoded question with a prompt parses back to itself |
| Validation.CountRoundTrip | apps/web/src/lib/validation.ts:47-51 | An encoded non-negative count parses back to itself |
| Validation.SummaryRoundTrip | apps/web/src/lib/validation.ts:46-53 | An encoded summary with non-negative counts parses back to itself |
| Validation.MessagesRoundTrip | apps/web/src/lib/validation.ts:33 | An encoded non-empty list of messages with content parses back to itself |
| Validation.ParseEncodeRoundTrip | apps/web/src/lib/validation.ts:32-54 | Every payload the schema can produce, encoded as JSON, parses back to itself |
| Validation.ParseAttemptPost | apps/web/src/lib/validation.ts:4-15 | An attempt parses exactly when it meets the schema; the question id is non-empty, the answer is stored as its string form and the time is an integer from 0 to 600000 |
| Validation.AnswerText | apps/web/src/lib/validation.ts:6-7 | A well-formed attempt body with a string, number or boolean answer is accepted, and the answer is stored as `String(answer)` |
| Validation.ParseCoerced | apps/web/src/lib/validation.ts:18-24 | A coerced query number is accepted exactly when it is finite, integral where required and within the bounds |
| Validation.ParseQuestionsQuery | apps/web/src/lib/validation.ts:17-21 | The query is accepted exactly when the count is an integer from 1 to 25, the domain is non-empty and the ability is within [-3, 3]; the count defaults to 10 |
| Validation.ParseStatsQuery | apps/web/src/lib/validation.ts:23-25 | The recent count is accepted exactly when it is an integer from 1 to 50, and defaults to 10 |
| CoachRoute.BuildContext | apps/web/src/app/api/coach/route.ts:41-100 | The handler's context is empty exactly when there is no question and no summary field, starts with the question line when there is a question, and is otherwise the summary line |
| CoachRoute.BuildContextIsServiceWithoutTopic | apps/web/src/app/api/coach/route.ts:41-100 | The handler's context equals the service's context without a topic |
| CoachRoute.TopicOnlyInService | apps/web/src/app/api/coach/route.ts:124 | With a non-empty topic the service's context differs from the handler's |
| CoachRoute.SummaryLineStart | apps/web/src/app/api/coach/route.ts:76-93 | A summary line starts with its first present sentence: "Attempts this session: " when there is a count, else "Most recent answer: " for a non-empty answer, else "Last answer correct: ", else "Current streak: " |
| CoachRoute.TopicIgnored | apps/web/src/app/api/coach/route.ts:124 | Changing or removing the topic never changes the request sent to the provider |
| CoachRoute.RequestFor | apps/web/src/app/api/coach/route.ts:124-138 | The provider gets the configured or default model, the mode's temperature, 512 tokens, and the system prompt followed by the messages unchanged |
| CoachRoute.ReplyText | apps/web/src/app/api/coach/route.ts:140-143 | The reply text exists exactly when the first choice has non-blank content, and is that content trimmed |
| CoachRoute.Admit | apps/web/src/app/api/coach/route.ts:103-120 | The key is checked first, then the JSON, then the schema; a request passes exactly when all three hold and then carries the parsed payload |
| CoachRoute.Answer | apps/web/src/app/api/coach/route.ts:129-156 | A throwing provider gives 500, a reply without text 502, and otherwise the trimmed non-empty text with the mode, the finish reason and the usage |
| CoachRoute.Post | apps/web/src/app/api/coach/route.ts:102-157 | The provider is called exactly when the request is admitted, with the built request, and its outcome decides the answer |
| CoachRoute.StatusOrder | apps/web/src/app/api/coach/route.ts:102-157 | 503 exactly without a key, 400 exactly for bad JSON or a schema failure, and otherwise 500 exactly when the provider threw |
| CoachRoute.HandlerMatchesServiceMessages | apps/web/src/app/api/coach/route.ts:124-138 | Without a topic the handler sends exactly the service's messages; with one the system prompts differ |
| CoachRoute.SystemPromptInjective | apps/web/src/app/api/coach/route.ts:29-39 | Different contexts give different system prompts |
| MathText.NextDollar | apps/web/src/lib/math-utils.ts:5 | The lazy body of an inline match ends at the first dollar sign after the opening one |
| MathText.MatchAt | apps/web/src/lib/math-utils.ts:5 | A match starts and ends with a dollar sign; one exists at a dollar sign exactly when another dollar sign follows it |
| MathText.SplitShape | apps/web/src/lib/math-utils.ts:5 | The split of a text alternates text and matches, text first and last, every match delimited by dollar signs, and spells the text |
| MathText.SplitConcat | apps/web/src/lib/math-utils.ts:5 | The pieces of the split, laid end to end, give back the text |
| MathText.SplitAlternates | apps/web/src/lib/math-utils.ts:5 | The pieces alternate, with text first and last and matches between |
| MathText.SplitMatches | apps/web/src/lib/math-utils.ts:5 | Every matched piece starts and ends with a dollar sign |
| MathText.SplitDollars | apps/web/src/lib/math-utils.ts:5 | Text between matches has no dollar sign, and the trailing text has at most one |
| MathText.SegmentsClassify | apps/web/src/lib/math-utils.ts:7-17 | The segments classify the non-empty pieces one by one |
| MathText.ParseMathText | apps/web/src/lib/math-utils.ts:3-18 | One segment per non-empty piece, each classified by its delimiters |
| MathText.PartsSpellText | apps/web/src/lib/math-utils.ts:5-8 | The kept pieces are non-empty and spell the whole text |
| MathText.UnclosedIsText | apps/web/src/lib/math-utils.ts:3-18 | Non-empty text with at most one dollar sign, other than "$" itself, is one text segment |
| MathText.InlineSpan | apps/web/src/lib/math-utils.ts:3-18 | t$c$u with no other dollar sign parses to the text t, inline math c and the text u |
| MathText.BlockSpan | apps/web/src/lib/math-utils.ts:3-18 | t$$c$$u parses to the text t, block math c and the text u: one block, never two inline spans |
| MathText.LoneDollarAsWritten | apps/web/src/lib/math-utils.ts:10-14 | The lone "$" parses to inline math with empty content |
| MathText.ParseMathTextFixed | apps/web/src/lib/math-utils.ts:3-18 | The corrected parse keeps non-empty text with at most one dollar sign, "$" included, as one text segment |
| MathText.AgreesUnlessLoneDollar | apps/web/src/lib/math-utils.ts:5-17 | The parse as written and the corrected parse differ exactly when the text after the last match is "$" |
| MathText.FixedSpans | apps/web/src/lib/math-utils.ts:3-18 | The corrected parse reads inline and block spans as the parse as written does |
| MathText.HasLaTeXExpressions | apps/web/src/lib/math-utils.ts:20-22 | The text has a LaTeX expression exactly when it has at least two dollar signs |
| MathText.BlockMatches | apps/web/src/lib/math-utils.ts:25 | Block matches start and end with "$$" and take four dollar signs each |
| MathText.InlineMatches | apps/web/src/lib/math-utils.ts:26 | Inline matches take the dollar signs in pairs, with no dollar sign in a body; there are half as many as dollar signs |
| MathText.PureInlineHaveBodies | apps/web/src/lib/math-utils.ts:29 | An inline match is left out exactly when its body is empty, so the pure inline matches are those with a body |
| MathText.CountMathExpressions | apps/web/src/lib/math-utils.ts:24-35 | For every text, the inline count is the number of non-adjacent pairs when the dollar signs are paired from the left, and the block count is half the number of `$$` tokens found from the left without overlap; both are bounded by the dollar signs |
| MathText.InlineCountAll | apps/web/src/lib/math-utils.ts:26-29 | The pure inline matches correspond one to one with the pairs of consecutive dollar signs that are not adjacent |
| MathText.BlockCountAll | apps/web/src/lib/math-utils.ts:25 | The block matches are the complete pairs of `$$` tokens, so an unclosed final `$$` opens nothing |
| MathText.InlineCounted | apps/web/src/lib/math-utils.ts:24-46 | t$c$u with no other dollar sign counts one inline expression when c is not empty and none otherwise, and extracts c |
| MathText.BlockCounted | apps/web/src/lib/math-utils.ts:24-46 | t$$c$$u with no other dollar sign counts one block expression and no inline one, and extracts c |
| MathText.ExtractAt | apps/web/src/lib/math-utils.ts:38 | An extraction match starts and ends with a dollar sign and exists exactly when another dollar sign follows |
| MathText.ExtractMathContent | apps/web/src/lib/math-utils.ts:37-46 | Each extracted content takes at least two dollar signs, and extraction finds nothing exactly when there are fewer than two |
| MathSpans.InlineShift | apps/web/src/lib/math-utils.ts:26 | Text in front of the scanned part does not change the inline matches found in it |
| MathSpans.BlockShift | apps/web/src/lib/math-utils.ts:25 | Text in front of the scanned part does not change the block matches found in it |
| MathSpans.ExtractShift | apps/web/src/lib/math-utils.ts:38 | Text in front of the scanned part does not change the extraction matches found in it |
| MathSpans.InlineThen | apps/web/src/lib/math-utils.ts:24-46 | `t$c$` with a body, not followed by a dollar sign, adds exactly one inline match and one extracted `c` to whatever follows, and no block match |
| MathSpans.BlockThen | apps/web/src/lib/math-utils.ts:24-46 | `t$$c$$` adds two empty inline matches, one block match and one extracted `c` to whatever follows |
| MathSpans.SpansExtract | apps/web/src/lib/math-utils.ts:37-46 | A text made of any number of inline and block expressions between plain texts extracts exactly their bodies, in order |
| MathSpans.SpansCount | apps/web/src/lib/math-utils.ts:24-35 | Such a text counts exactly its inline expressions as inline and its block expressions as blocks |
| MathText.ExtractEmptyIffNoLaTeX | apps/web/src/lib/math-utils.ts:20-46 | Extraction finds nothing exactly when the text has no LaTeX expression |
| Session.EmailLocalPart | apps/web/src/app/api/profile/sync/route.ts:24 | The local part exists exactly when there is an address; it is the longest prefix without "@": it stops at the first "@", and is the whole address when there is none |
| Session.DisplayNameChain | apps/web/src/app/api/profile/sync/route.ts:21-25 | The name is the first truthy of the candidate, the metadata name and the local part, else the fallback |
| Streaks.GetStreak | apps/web/src/app/api/streaks/route.ts:7-50 | Unauthorized without a user; zeros and no last activity without a row; otherwise the stored row |
| Streaks.PostStreak | apps/web/src/app/api/streaks/route.ts:52-140 | A new row starts at 1; the same day changes nothing; the next day adds one; a longer gap resets to 1; the longest streak is the maximum of the old longest and the new current |
| Streaks.PostKeepsConsistent | apps/web/src/app/api/streaks/route.ts:101-129 | A post keeps 1 <= current <= longest and never lowers the longest streak |
| Streaks.ConsecutiveDays | apps/web/src/app/api/streaks/route.ts:79-135 | Posting on n consecutive days from no row gives a current and longest streak of n |
| Streaks.DailyFrom | apps/web/src/app/api/streaks/route.ts:111-129 | From a row whose longest equals its current, each daily post adds one to both |
| Attempts.XpFor | apps/web/src/app/api/attempts/route.ts:42 | The award is 10 exactly for a truthy correct flag, and 2 otherwise |
| Attempts.PostAttempt | apps/web/src/app/api/attempts/route.ts:5-71 | 401 without a user; 500 for a body that is not JSON or is null; 400 exactly when a field is missing; otherwise the attempt is stored with its answer as text and the XP grows by the award: an existing profile is incremented, and a new one is created with that XP and the metadata's display name, else the e-mail's local part, else "Student" |
| Attempts.XpGrows | apps/web/src/app/api/attempts/route.ts:42-54 | A recorded attempt raises a stored XP by 10 for a correct answer and 2 otherwise |
| Attempts.PostAttemptUnawaited | apps/web/src/app/api/attempts/route.ts:5-71 | With a client factory that returns a promise, every request is answered 500 and nothing is written; with one that returns the client, the handler is `PostAttempt` |
| Attempts.UnawaitedClientLosesAttempts | apps/web/src/app/api/attempts/route.ts:7-11 | A well-formed attempt the awaited handler records is refused with 500 by the unawaited one, and a request without a session gets 500 instead of 401 |
| ProfileSync.NormalizeExam | apps/web/src/app/api/profile/sync/route.ts:26-31 | The exam is always SAT, PERT or BEST: the upper-cased string when it names one, else SAT |
| ProfileSync.ExamCaseInsensitive | apps/web/src/app/api/profile/sync/route.ts:26-31 | For every ASCII string, the exam is a given allowed name exactly when the string spells it in any mix of letter cases, or the name is SAT and the string spells no allowed name |
| ProfileSync.UpperCaseSpelling | apps/web/src/app/api/profile/sync/route.ts:28 | An ASCII string upper-cases to an exam name exactly when it spells that name ignoring case |
| ProfileSync.MergeSettings | apps/web/src/app/api/profile/sync/route.ts:34-38 | The merged settings always carry the role |
| ProfileSync.SettingsLookup | apps/web/src/app/api/profile/sync/route.ts:34-38 | Any other key comes from the metadata settings when they have it, else from the body's settings |
| ProfileSync.Role | apps/web/src/app/api/profile/sync/route.ts:33 | The role is the body's when truthy, else the metadata's when truthy, else "student"; it is always truthy |
| ProfileSync.Normalize | apps/web/src/app/api/profile/sync/route.ts:20-38 | The display name is the first truthy of the body's, the metadata's and the e-mail's local part, else "Learner"; the exam is the normalised body value when truthy, else the normalised metadata value when truthy, else SAT; the settings merge the two sources under the role; the parent e-mail is the body's, else the metadata's, else null |
| ProfileSync.SettingsCarryRole | apps/web/src/app/api/profile/sync/route.ts:33-38 | The settings hold the role: the body's when truthy, and "student" when neither source has one |
| ProfileSync.SyncProfile | apps/web/src/app/api/profile/sync/route.ts:8-72 | 401 without a user; 500 for a null body; otherwise the normalised fields are written, updating an existing profile or creating one with the e-mail's local part as username |
| UserStats.XpOf | apps/web/src/app/api/user/stats/route.ts:74 | XP is 0 without a profile and the profile's XP otherwise |
| UserStats.Level | apps/web/src/app/api/user/stats/route.ts:69 | The level is the one whose 100-XP band contains the XP |
| UserStats.LevelShape | apps/web/src/app/api/user/stats/route.ts:69 | Levels start at 1 and never drop as XP grows |
| UserStats.CountCorrect | apps/web/src/app/api/user/stats/route.ts:45-51 | The correct count is at most the number of attempts; it is zero exactly when no attempt is correct and the total exactly when all are |
| UserStats.CountCorrectAppend | apps/web/src/app/api/user/stats/route.ts:45-51 | The count over two runs of attempts is the sum of their counts |
| UserStats.Recent | apps/web/src/app/api/user/stats/route.ts:54-85 | The recent list holds the first ten attempts field for field |
| UserStats.RecentNewestFirst | apps/web/src/app/api/user/stats/route.ts:54-66 | The recent list keeps newest-first order, and nothing in it is older than an attempt it leaves out |
| UserStats.GetStats | apps/web/src/app/api/user/stats/route.ts:16-93 | Unauthorized exactly without a user; otherwise the number of attempts, the number of correct ones, the XP, the level derived from it and the first ten attempts |
| UserStats.GetStatsUnawaited | apps/web/src/app/api/user/stats/route.ts:16-93 | With a client factory that returns a promise, every request is answered 500; with one that returns the client, the handler is `GetStats` |
| UserStats.RecentN | apps/web/src/app/api/user/stats/route.test.ts:72-80 | The first `limit` attempts, or all of them when there are fewer, field for field |
| UserStats.Accuracy | apps/web/src/app/api/user/stats/route.test.ts:79-107 | No accuracy without attempts; otherwise a share between 0 and 1 that times the total gives the correct count |
| UserStats.GetStatsWithQuery | apps/web/src/app/api/user/stats/route.test.ts:72-108 | 401 exactly without a user, then 400 exactly when the `recent` query fails its schema; otherwise the counts, XP and level, as many recent attempts as asked for (ten by default) and the accuracy |
| UserStats.StatsQueryIgnored | apps/web/src/app/api/user/stats/route.ts:16-19 | The handler as written answers `?recent=0` with statistics where the schema rejects it, and lists more than five attempts where `?recent=5` asks for five |

## Findings

| source | as written | input that shows it | evidently intended | confidence | as-written member | corrected member |
|---|---|---|---|---|---|---|
| apps/web/src/lib/math-utils.ts:10-14 | Every piece of the split that starts and ends with `$` is read as math, including text between matches | `parseMathText("$")` (or `"$a$$"`) yields inline math with empty content where the text is a lone dollar sign | An unclosed `$` is ordinary text, as it is for `"x $"` | not executed | MathText.LoneDollarAsWritten | MathText.ParseMathTextFixed |
| apps/web/src/app/api/attempts/route.ts:7 | `createClient()` is called without `await`, and `supabase.auth.getUser()` is read off its result | any request, when `createClient` is asynchronous: the streaks, profile-sync and sign-out handlers await it | `const supabase = await createClient()`, as in the other handlers | not executed; depends on lib/supabase/server.ts, which is not part of this model | Attempts.PostAttemptUnawaited | Attempts.PostAttempt |
| apps/web/src/app/api/user/stats/route.ts:18 | `createClient()` is called without `await`, as in the attempts handler | any request, when `createClient` is asynchronous; the handler's own test mocks it as returning a promise | `const supabase = await createClient()` | not executed; depends on lib/supabase/server.ts, which is not part of this model | UserStats.GetStatsUnawaited | UserStats.GetStats |
| apps/web/src/app/api/user/stats/route.ts:16-93 | The handler reads no query: always ten recent attempts, no `accuracy` field, no 400 | `GET /api/user/stats?recent=0` answers 200; the handler's test expects 400 and, for `?recent=5`, an `accuracy` | `recent` parsed by the statistics query schema, 400 when it fails, the list cut to `recent`, `accuracy` null without attempts | not executed | UserStats.StatsQueryIgnored | UserStats.GetStatsWithQuery |

## Left out

- Latency (`latencyMs`), the backoff sleeps and `Date.now()` are not modelled. The waits are returned as a schedule, and times are inputs.
- Content arrays in provider messages (`normalizeMessageContent` over parts and images) are left out. Every message content here is a plain string, as the payload type requires.
- Parsing of environment variables (`COACH_MAX_RETRIES`, `COACH_CACHE_TTL`, `COACH_RATE_WINDOW`, `COACH_RATE_LIMIT`, the model names) is not modelled. Their values are parameters.
- The clients are not modelled: the OpenAI client's caching, the Redis client's construction, and Redis or Prisma failures and concurrency. Remote replies are inputs.
- `CoachCache.GetCached`: the remote entry is served as stored. The remote store's own expiry is its business.
- `CoachPrompt.ToFixed2` rounds the exact decimal value half away from zero. It does not reproduce binary floating-point rounding.
- `Text.ToUpper` and `Text.ToLowerAscii` map only characters whose case mapping lands in ASCII. That is exact for the exam names and the "gpt-5" prefix they are compared with.
- JSON numbers carry their text as given. Formatting a non-integral double is not modelled.
- `Validation.ParseCoachRequest` reports issue codes and paths, not zod's messages or its `flatten()` layout.
- The questions route and its query schema consumer are not part of this model. Only the schemas are modelled.
- `Streaks.PostStreak` takes the calendar-day difference as an input. Local-date arithmetic and time zones are left out.
- The handlers' `prisma.user.upsert` calls are left out, and assumed to succeed. For a user without an e-mail address, `email: user.email!` passes `undefined` where the profile-sync handler writes `""`; whether the store accepts that is not modelled.
- JSON numbers in request bodies are assumed to be finite doubles. A literal such as `1e999` parses to Infinity, which zod's `.int()` rejects; `Json.JNum` holds any real and does not model that.
- `UserStats.GetStatsWithQuery`: the `abilityEstimate` the handler's test expects is left out, because nothing in the code defines its formula. Whether 401 or 400 comes first is not fixed by the test; the model checks the session first, as every handler does.
- `Session.ClientFactory` stands for lib/supabase/server.ts, which is not part of this model: whether `createClient` returns the client or a promise is a parameter.
- `Number()` coercion of query strings is an input: `Validation.Coerced` holds its result.
