/** The completion generator of apps/web/src/lib/coach/service.ts: token-usage
    normalisation, the responses-API input and instructions, the choice of
    calling convention, the bounded retry loop with capped exponential
    backoff, and the cache fingerprint. The provider is not called: the reply
    to the k-th call is the input `provider(k)`. */
module CoachService {
  import opened Wrappers
  import opened Text
  import opened CoachPrompt

  // ---------------------------------------------------------------------
  // Token usage

  /** The usage fields `formatUsage` reads; an absent or null field is `None`. */
  datatype RawUsage = RawUsage(
    promptTokens: Option<int>,
    completionTokens: Option<int>,
    totalTokens: Option<int>,
    inputTokens: Option<int>,
    outputTokens: Option<int>)

  datatype Usage = Usage(promptTokens: Option<int>, completionTokens: Option<int>, totalTokens: Option<int>)

  /** `formatUsage`: prompt tokens fall back to input tokens, completion tokens
      to output tokens, and the total to their sum when both are known. */
  function FormatUsage(raw: Option<RawUsage>): (r: Option<Usage>)
    ensures raw.None? <==> r.None?
    ensures raw.Some? ==> r.value.promptTokens == (if raw.value.promptTokens.Some? then raw.value.promptTokens else raw.value.inputTokens)
    ensures raw.Some? ==> r.value.completionTokens == (if raw.value.completionTokens.Some? then raw.value.completionTokens else raw.value.outputTokens)
    ensures raw.Some? && raw.value.totalTokens.Some? ==> r.value.totalTokens == raw.value.totalTokens
    ensures raw.Some? && raw.value.totalTokens.None? ==>
      (r.value.totalTokens.Some? <==> r.value.promptTokens.Some? && r.value.completionTokens.Some?)
    ensures raw.Some? && raw.value.totalTokens.None? && r.value.totalTokens.Some? ==>
      r.value.totalTokens.value == r.value.promptTokens.value + r.value.completionTokens.value
  {
    match raw
    case None => None
    case Some(u) =>
      var promptTokens := if u.promptTokens.Some? then u.promptTokens else u.inputTokens;
      var completionTokens := if u.completionTokens.Some? then u.completionTokens else u.outputTokens;
      var totalTokens :=
        if u.totalTokens.Some? then u.totalTokens
        else if promptTokens.Some? && completionTokens.Some? then Some(promptTokens.value + completionTokens.value)
        else None;
      Some(Usage(promptTokens, completionTokens, totalTokens))
  }

  // ---------------------------------------------------------------------
  // Responses-API input and instructions

  /** A turn `toResponsesInput` keeps: a user or assistant turn with text. */
  predicate Kept(m: Message) {
    (m.role == User || m.role == Assistant) && Trim(m.content) != ""
  }

  /** Reference definition of `toResponsesInput`: the kept turns, trimmed, in order. */
  function ResponsesInput(ms: seq<Message>): seq<Message> {
    if ms == [] then []
    else if Kept(ms[0]) then [Message(ms[0].role, Trim(ms[0].content))] + ResponsesInput(ms[1..])
    else ResponsesInput(ms[1..])
  }

  /** The reference definition distributes over concatenation, so it keeps order. */
  lemma {:induction false} ResponsesInputAppend(a: seq<Message>, b: seq<Message>)
    ensures ResponsesInput(a + b) == ResponsesInput(a) + ResponsesInput(b)
  {
    if a != [] {
      assert (a + b)[0] == a[0];
      assert (a + b)[1..] == a[1..] + b;
      ResponsesInputAppend(a[1..], b);
    } else {
      assert a + b == b;
    }
  }

  /** When every turn is kept, nothing is dropped or reordered: turn i of the
      output is turn i of the input with its content trimmed. */
  lemma {:induction false} ResponsesInputKeepsAll(ms: seq<Message>)
    requires forall i :: 0 <= i < |ms| ==> Kept(ms[i])
    ensures |ResponsesInput(ms)| == |ms|
    ensures forall i :: 0 <= i < |ms| ==> ResponsesInput(ms)[i] == Message(ms[i].role, Trim(ms[i].content))
  {
    if ms != [] {
      ResponsesInputKeepsAll(ms[1..]);
      var r := ResponsesInput(ms);
      var t := ResponsesInput(ms[1..]);
      assert r == [Message(ms[0].role, Trim(ms[0].content))] + t;
      forall i | 1 <= i < |ms|
        ensures r[i] == Message(ms[i].role, Trim(ms[i].content))
      {
        assert r[i] == t[i - 1];
        assert ms[1..][i - 1] == ms[i];
      }
    }
  }

  /** `toResponsesInput`: the loop over the messages, skipping system turns
      and turns whose trimmed text is empty. */
  method ToResponsesInput(ms: seq<Message>) returns (prepared: seq<Message>)
    ensures prepared == ResponsesInput(ms)
    ensures |prepared| <= |ms|
    ensures forall i :: 0 <= i < |prepared| ==>
      prepared[i].role != System && prepared[i].content != "" && Trim(prepared[i].content) == prepared[i].content
  {
    prepared := [];
    var k := 0;
    while k < |ms|
      invariant 0 <= k <= |ms|
      invariant prepared == ResponsesInput(ms[..k])
      invariant |prepared| <= k
      invariant forall i :: 0 <= i < |prepared| ==>
        prepared[i].role != System && prepared[i].content != "" && Trim(prepared[i].content) == prepared[i].content
    {
      var m := ms[k];
      assert ms[..k + 1] == ms[..k] + [m];
      ResponsesInputAppend(ms[..k], [m]);
      if m.role == User || m.role == Assistant {
        var text := Trim(m.content);
        if text != "" {
          TrimIdempotent(m.content);
          prepared := prepared + [Message(m.role, text)];
        }
      }
      k := k + 1;
    }
    assert ms[..k] == ms;
  }

  /** `i` is the position of the first system message. */
  predicate IsFirstSystem(ms: seq<Message>, i: int) {
    && 0 <= i < |ms|
    && ms[i].role == System
    && forall j :: 0 <= j < i ==> ms[j].role != System
  }

  /** `extractInstructions`: the trimmed text of the first system message when
      it is not empty, and nothing otherwise; later messages are never read. */
  function ExtractInstructions(ms: seq<Message>): (r: Option<string>)
    ensures r.Some? <==> exists i :: IsFirstSystem(ms, i) && Trim(ms[i].content) != ""
    ensures forall i :: IsFirstSystem(ms, i) && r.Some? ==> r.value == Trim(ms[i].content)
  {
    if ms == [] then None
    else if ms[0].role == System then
      (if Trim(ms[0].content) != "" then Some(Trim(ms[0].content)) else None)
    else
      var r := ExtractInstructions(ms[1..]);
      assert forall i :: IsFirstSystem(ms[1..], i) <==> IsFirstSystem(ms, i + 1);
      assert forall i :: IsFirstSystem(ms, i) ==> i >= 1 && IsFirstSystem(ms[1..], i - 1);
      r
  }

  /** Whatever follows the first system message does not affect the instructions. */
  lemma InstructionsIgnoreLaterMessages(before: seq<Message>, first: Message, after1: seq<Message>, after2: seq<Message>)
    requires forall j :: 0 <= j < |before| ==> before[j].role != System
    requires first.role == System
    ensures ExtractInstructions(before + [first] + after1) == ExtractInstructions(before + [first] + after2)
  {
    assert IsFirstSystem(before + [first] + after1, |before|);
    assert IsFirstSystem(before + [first] + after2, |before|);
  }

  // ---------------------------------------------------------------------
  // Calling convention and the provider request

  const DefaultModel: string := "gpt-4o-mini"
  const MaxTokens: nat := 512
  /** Written in pieces so that its first and last characters are visible to the verifier. */
  const FallbackPrompt: string := "I" + " need help with SAT math practice" + "."

  /** `DEFAULT_MODEL.startsWith("gpt-5")` selects the responses API; such a
      model is never sent a temperature. */
  predicate UseResponsesApi(model: string)
    ensures UseResponsesApi(model) ==> !ResponsesSupportsTemperature(model)
  {
    LowerKeepsGpt5Prefix(model);
    StartsWith(model, "gpt-5")
  }

  /** `responsesSupportsTemperature`: the check is case-insensitive, so it
      fails exactly when the first five characters spell "gpt-5" in any
      mix of letter cases. */
  predicate ResponsesSupportsTemperature(model: string)
    ensures !ResponsesSupportsTemperature(model) <==>
      |model| >= 5 && forall i :: 0 <= i < 5 ==> LowerAsciiChar(model[i]) == "gpt-5"[i]
  {
    var lower := ToLowerAscii(model);
    assert |lower| >= 5 ==> forall i :: 0 <= i < 5 ==> lower[..5][i] == lower[i];
    !StartsWith(lower, "gpt-5")
  }

  /** What one attempt sends: a chat completion, or a responses-API call
      with its optional instructions and temperature. */
  datatype ProviderRequest =
    | ChatRequest(model: string, temperature: real, maxTokens: nat, messages: seq<Message>)
    | ResponsesRequest(model: string, input: seq<Message>, instructions: Option<string>,
                       temperatureParam: Option<real>, maxOutputTokens: nat)

  /** The single user turn sent when no turn survives `toResponsesInput`: the
      last message's trimmed text, or a stock request when that is blank.
      Either way the turn is trimmed and not empty. */
  function FallbackInput(messages: seq<Message>): (r: seq<Message>)
    ensures |r| == 1 && r[0].role == User
    ensures r[0].content != "" && Trim(r[0].content) == r[0].content
    ensures messages != [] && !Blank(messages[|messages| - 1].content) ==>
      r[0].content == Trim(messages[|messages| - 1].content)
    ensures messages == [] || Blank(messages[|messages| - 1].content) ==> r[0].content == FallbackPrompt
  {
    var last := if messages == [] then "" else Trim(messages[|messages| - 1].content);
    TrimmedLast(messages);
    assert FallbackPrompt[0] == 'I' && FallbackPrompt[|FallbackPrompt| - 1] == '.';
    TrimEdges(FallbackPrompt);
    [Message(User, if last != "" then last else FallbackPrompt)]
  }

  /** Facts about the trimmed last message that `FallbackInput` relies on. */
  lemma TrimmedLast(messages: seq<Message>)
    ensures messages != [] ==>
      var c := messages[|messages| - 1].content;
      (Trim(c) == "" <==> Blank(c)) && Trim(Trim(c)) == Trim(c)
  {
    if messages != [] {
      TrimEmptyIffBlank(messages[|messages| - 1].content);
      TrimIdempotent(messages[|messages| - 1].content);
    }
  }

  /** The system prompt at the head of the chat messages is never kept, so
      the responses input is that of the caller's messages. */
  lemma ResponsesInputSkipsPrompt(p: Payload)
    ensures ResponsesInput(ToChatMessages(p)) == ResponsesInput(p.messages)
  {
    var ms := ToChatMessages(p);
    assert !Kept(ms[0]);
    assert ms[1..] == p.messages;
  }

  /** The request every attempt of `generateCoachCompletion` sends. */
  function BuildRequest(model: string, p: Payload): (r: ProviderRequest)
    ensures r.ResponsesRequest? <==> UseResponsesApi(model)
    ensures r.ResponsesRequest? ==> r.temperatureParam.None?
    ensures r.ResponsesRequest? ==> |r.input| >= 1 && forall i :: 0 <= i < |r.input| ==> r.input[i].role != System
    ensures r.ResponsesRequest? && ResponsesInput(p.messages) != [] ==> r.input == ResponsesInput(p.messages)
    ensures r.ResponsesRequest? && ResponsesInput(p.messages) == [] ==> r.input == FallbackInput(p.messages)
    ensures r.ResponsesRequest? ==> r.maxOutputTokens == 512
    ensures r.ChatRequest? ==> r.messages == ToChatMessages(p) && r.temperature == Temperature(p.mode)
    ensures r.ChatRequest? ==> r.maxTokens == 512
    ensures r.model == model
  {
    var messages := ToChatMessages(p);
    ResponsesInputSkipsPrompt(p);
    if UseResponsesApi(model) then
      var kept := ResponsesInput(messages);
      var input := if kept == [] then FallbackInput(p.messages) else kept;
      ResponsesInputNoSystem(messages);
      ResponsesRequest(model, input, ExtractInstructions(messages),
                       if ResponsesSupportsTemperature(model) then Some(Temperature(p.mode)) else None,
                       MaxTokens)
    else
      ChatRequest(model, Temperature(p.mode), MaxTokens, messages)
  }

  /** A model name that starts with "gpt-5" still does so once lower-cased. */
  lemma LowerKeepsGpt5Prefix(model: string)
    ensures StartsWith(model, "gpt-5") ==> StartsWith(ToLowerAscii(model), "gpt-5")
  {
    if StartsWith(model, "gpt-5") {
      var lower := ToLowerAscii(model);
      assert model[..5] == "gpt-5";
      forall i | 0 <= i < 5
        ensures lower[i] == model[i]
      {
        assert model[i] == "gpt-5"[i];
      }
      assert lower[..5] == model[..5];
    }
  }

  lemma {:induction false} ResponsesInputNoSystem(ms: seq<Message>)
    ensures forall i :: 0 <= i < |ResponsesInput(ms)| ==> ResponsesInput(ms)[i].role != System
  {
    if ms != [] {
      ResponsesInputNoSystem(ms[1..]);
    }
  }

  /** Under the responses API the instructions are always the trimmed system
      prompt: it is the first system message and never blank, so system
      messages supplied by the caller never reach the provider. */
  lemma ResponsesInstructionsAreSystemPrompt(model: string, p: Payload)
    requires UseResponsesApi(model)
    ensures BuildRequest(model, p).instructions
         == Some(Trim(SystemPrompt(p.mode, ContextDetails(p.topic, p.question, p.attemptSummary))))
  {
    var messages := ToChatMessages(p);
    var sp := messages[0].content;
    assert IsFirstSystem(messages, 0);
    PromptNotBlank(sp);
  }

  /** A text that starts with the preamble is not blank. */
  lemma PromptNotBlank(sp: string)
    requires StartsWith(sp, SystemPreamble)
    ensures Trim(sp) != ""
  {
    assert sp[0] == sp[..|SystemPreamble|][0] == SystemPreamble[0] == 'Y';
    TrimEmptyIffBlank(sp);
  }

  // ---------------------------------------------------------------------
  // Replies and the retry loop

  /** Usage as the provider reports it: prompt (or input) tokens, completion
      (or output) tokens and the total. */
  datatype ProviderUsage = ProviderUsage(first: Option<int>, second: Option<int>, total: Option<int>)

  /** The provider's answer to one call: an exception, or a reply whose text
      (`choices[0].message.content` or `output_text`) may be missing. */
  datatype ProviderReply =
    | Threw(message: string)
    | Replied(text: Option<string>, finishReason: Option<string>, usage: Option<ProviderUsage>)

  datatype GenerationError = EmptyResponse | ProviderError(message: string)

  /** `CoachCompletionResult` without its wall-clock latency. */
  datatype Completion = Completion(message: string, finishReason: Option<string>, usage: Option<Usage>, attempts: nat)

  /** The usage object each convention passes to `formatUsage`. */
  function ReplyUsage(responsesApi: bool, u: Option<ProviderUsage>): RawUsage {
    var first := if u.Some? then u.value.first else None;
    var second := if u.Some? then u.value.second else None;
    var total := if u.Some? then u.value.total else None;
    if responsesApi then RawUsage(None, None, total, first, second)
    else RawUsage(first, second, total, None, None)
  }

  /** The text an attempt yields, trimmed; blank text counts as no text. */
  function ReplyText(reply: ProviderReply): Option<string> {
    if reply.Replied? && reply.text.Some? && Trim(reply.text.value) != "" then Some(Trim(reply.text.value)) else None
  }

  /** An attempt fails when the call throws or yields no text. */
  predicate AttemptFails(reply: ProviderReply) {
    ReplyText(reply).None?
  }

  /** The error a failed attempt raises. */
  function AttemptError(reply: ProviderReply): GenerationError {
    if reply.Threw? then ProviderError(reply.message) else EmptyResponse
  }

  /** The result of a successful attempt number `attempt`. */
  function AttemptResult(responsesApi: bool, reply: ProviderReply, attempt: nat): Completion
    requires !AttemptFails(reply)
  {
    Completion(
      ReplyText(reply).value,
      if responsesApi then None else reply.finishReason,
      FormatUsage(Some(ReplyUsage(responsesApi, reply.usage))),
      attempt)
  }

  /** `Math.max(1, MAX_RETRIES + 1)`. */
  function MaxAttempts(maxRetries: int): (n: nat)
    ensures n >= 1
    ensures maxRetries >= 0 ==> n == maxRetries + 1
  {
    if maxRetries + 1 >= 1 then maxRetries + 1 else 1
  }

  function Pow2(k: nat): (p: nat)
    ensures p >= 1
  {
    if k == 0 then 1 else 2 * Pow2(k - 1)
  }

  /** `Math.min(500 * 2 ** (attempt - 1), 4000)`: the wait after failed attempt `attempt`. */
  function Backoff(attempt: nat): (d: nat)
    requires attempt >= 1
    ensures 500 <= d <= 4000
  {
    var d := 500 * Pow2(attempt - 1);
    if d < 4000 then d else 4000
  }

  function BackoffSchedule(n: nat): (s: seq<nat>)
    ensures |s| == n
  {
    if n == 0 then [] else BackoffSchedule(n - 1) + [Backoff(n)]
  }

  /** The k-th wait of the schedule is the backoff after failed attempt k,
      so the first one is 500 ms. */
  lemma {:induction false} BackoffScheduleAt(n: nat)
    ensures forall k :: 1 <= k <= n ==> BackoffSchedule(n)[k - 1] == Backoff(k)
    ensures n >= 1 ==> BackoffSchedule(n)[0] == 500
  {
    if n > 0 {
      BackoffScheduleAt(n - 1);
      var s := BackoffSchedule(n);
      assert s == BackoffSchedule(n - 1) + [Backoff(n)];
      forall k | 1 <= k <= n
        ensures s[k - 1] == Backoff(k)
      {
        if k < n {
          assert s[k - 1] == BackoffSchedule(n - 1)[k - 1];
        }
      }
    }
  }

  /** Each wait of the schedule after the first doubles the one before, up to the cap. */
  lemma BackoffDoubles(n: nat)
    ensures var s := BackoffSchedule(n);
      forall k :: 1 <= k < n ==> s[k] == if 2 * s[k - 1] < 4000 then 2 * s[k - 1] else 4000
  {
    var s := BackoffSchedule(n);
    BackoffScheduleAt(n);
    forall k | 1 <= k < n
      ensures s[k] == if 2 * s[k - 1] < 4000 then 2 * s[k - 1] else 4000
    {
      assert s[k] == Backoff(k + 1) && s[k - 1] == Backoff(k);
    }
  }

  /** The waits from attempt `attempt` on start with that attempt's wait. */
  lemma ScheduleFrom(n: nat, attempt: nat)
    requires 1 <= attempt <= n
    ensures BackoffSchedule(n)[attempt - 1..] == [Backoff(attempt)] + BackoffSchedule(n)[attempt..]
  {
    var all := BackoffSchedule(n);
    BackoffScheduleAt(n);
    assert all[attempt - 1] == Backoff(attempt);
    assert all[attempt - 1..] == [all[attempt - 1]] + all[attempt..];
  }

  /** The backoff doubles from 500 ms and is capped at 4000 ms from the fourth failure on. */
  lemma {:induction false} BackoffShape(attempt: nat)
    requires attempt >= 1
    ensures 500 <= Backoff(attempt) <= 4000
    ensures attempt <= 4 ==> Backoff(attempt) == 500 * Pow2(attempt - 1)
    ensures attempt >= 4 ==> Backoff(attempt) == 4000
    ensures attempt >= 2 ==> Backoff(attempt - 1) <= Backoff(attempt)
  {
    if attempt > 4 {
      Pow2Monotone(3, attempt - 1);
    }
    if attempt >= 2 {
      Pow2Monotone(attempt - 2, attempt - 1);
    }
  }

  lemma {:induction false} Pow2Monotone(a: nat, b: nat)
    requires a <= b
    ensures Pow2(a) <= Pow2(b)
  {
    if a < b {
      Pow2Monotone(a, b - 1);
    }
  }

  /** What a run of the retry loop produced: the result or the final error,
      the number of provider calls made, and the waits in between. */
  datatype Run = Run(outcome: Result<Completion, GenerationError>, calls: nat, waits: seq<nat>)

  /** The loop from attempt `attempt` on, after the earlier attempts failed. */
  function RunFrom(responsesApi: bool, maxAttempts: nat, provider: nat -> ProviderReply, attempt: nat): (r: Run)
    requires 1 <= attempt <= maxAttempts
    decreases maxAttempts - attempt
    ensures attempt <= r.calls <= maxAttempts
    ensures forall k :: attempt <= k < r.calls ==> AttemptFails(provider(k))
    ensures r.outcome.Success? ==> !AttemptFails(provider(r.calls)) && r.outcome.value == AttemptResult(responsesApi, provider(r.calls), r.calls)
    ensures r.outcome.Failure? ==> r.calls == maxAttempts && AttemptFails(provider(r.calls)) && r.outcome.error == AttemptError(provider(r.calls))
  {
    var reply := provider(attempt);
    if !AttemptFails(reply) then
      Run(Success(AttemptResult(responsesApi, reply, attempt)), attempt, [])
    else if attempt >= maxAttempts then
      Run(Failure(AttemptError(reply)), attempt, [])
    else
      var rest := RunFrom(responsesApi, maxAttempts, provider, attempt + 1);
      Run(rest.outcome, rest.calls, [Backoff(attempt)] + rest.waits)
  }

  /** Between two attempts the loop waits the scheduled backoff of the
      attempt that just failed, and it does not wait after the last call. */
  lemma {:induction false} RunWaits(responsesApi: bool, maxAttempts: nat, provider: nat -> ProviderReply, attempt: nat)
    requires 1 <= attempt <= maxAttempts
    decreases maxAttempts - attempt
    ensures var r := RunFrom(responsesApi, maxAttempts, provider, attempt);
      r.waits == BackoffSchedule(r.calls - 1)[attempt - 1..]
  {
    if AttemptFails(provider(attempt)) && attempt < maxAttempts {
      var rest := RunFrom(responsesApi, maxAttempts, provider, attempt + 1);
      RunWaits(responsesApi, maxAttempts, provider, attempt + 1);
      RunFromRetries(responsesApi, maxAttempts, provider, attempt);
      ScheduleFrom(rest.calls - 1, attempt);
    } else {
      RunFromStops(responsesApi, maxAttempts, provider, attempt);
    }
  }

  /** A failed attempt with budget left: one wait, then the rest of the loop. */
  lemma RunFromRetries(responsesApi: bool, maxAttempts: nat, provider: nat -> ProviderReply, attempt: nat)
    requires 1 <= attempt < maxAttempts && AttemptFails(provider(attempt))
    ensures var r, rest := RunFrom(responsesApi, maxAttempts, provider, attempt), RunFrom(responsesApi, maxAttempts, provider, attempt + 1);
      r.calls == rest.calls && r.waits == [Backoff(attempt)] + rest.waits
  {
  }

  /** An attempt that succeeds or uses up the budget ends the loop without a wait. */
  lemma RunFromStops(responsesApi: bool, maxAttempts: nat, provider: nat -> ProviderReply, attempt: nat)
    requires 1 <= attempt <= maxAttempts && !(AttemptFails(provider(attempt)) && attempt < maxAttempts)
    ensures var r := RunFrom(responsesApi, maxAttempts, provider, attempt);
      r.calls == attempt && r.waits == []
  {
  }

  /** The bounded retry loop of `generateCoachCompletion` over the
      provider's replies, from the first attempt. */
  function RetryRun(responsesApi: bool, maxRetries: int, provider: nat -> ProviderReply): (r: Run)
    ensures 1 <= r.calls <= MaxAttempts(maxRetries)
    ensures forall k :: 1 <= k < r.calls ==> AttemptFails(provider(k))
    ensures r.outcome.Success? ==>
      && !AttemptFails(provider(r.calls))
      && r.outcome.value.attempts == r.calls
      && r.outcome.value.message == Trim(provider(r.calls).text.value)
      && r.outcome.value.message != ""
    ensures r.outcome.Failure? ==>
      && r.calls == MaxAttempts(maxRetries)
      && AttemptFails(provider(r.calls))
      && r.outcome.error == AttemptError(provider(r.calls))
    ensures r.waits == BackoffSchedule(r.calls - 1)
  {
    RunWaits(responsesApi, MaxAttempts(maxRetries), provider, 1);
    RunFrom(responsesApi, MaxAttempts(maxRetries), provider, 1)
  }

  /** `generateCoachCompletion`: the request every attempt sends, and how
      the retry loop ends. */
  function Generate(model: string, maxRetries: int, p: Payload, provider: nat -> ProviderReply): (ProviderRequest, Run) {
    (BuildRequest(model, p), RetryRun(UseResponsesApi(model), maxRetries, provider))
  }

  /** A provider that fails exactly `k` times and then answers: the loop
      succeeds on call k+1 when the budget allows it, and otherwise
      surfaces the error of the last allowed call. */
  lemma RetryExhaustion(model: string, maxRetries: int, p: Payload, provider: nat -> ProviderReply, k: nat)
    requires forall j :: 1 <= j <= k ==> AttemptFails(provider(j))
    requires !AttemptFails(provider(k + 1))
    ensures k + 1 <= MaxAttempts(maxRetries) ==>
      Generate(model, maxRetries, p, provider).1.outcome.Success? && Generate(model, maxRetries, p, provider).1.calls == k + 1
    ensures k >= MaxAttempts(maxRetries) ==>
      Generate(model, maxRetries, p, provider).1.outcome == Failure(AttemptError(provider(MaxAttempts(maxRetries))))
  {
  }

  // ---------------------------------------------------------------------
  // Cache fingerprint

  /** `buildCoachCacheFingerprint`: `JSON.stringify` of these fields is
      modelled by the structure itself. */
  datatype Fingerprint = Fingerprint(
    mode: Mode,
    messages: seq<Message>,
    topic: Option<string>,
    question: Option<Question>,
    attemptSummary: Option<AttemptSummary>,
    model: string)

  function BuildFingerprint(p: Payload, model: string): (f: Fingerprint)
    ensures f.model == model && f.mode == p.mode && f.messages == p.messages
  {
    Fingerprint(p.mode, p.messages, p.topic, p.question, p.attemptSummary, model)
  }

  /** Two payloads have the same fingerprint exactly when their mode,
      messages, topic, question and attempt summary agree and the model is
      the same. */
  lemma FingerprintIdentity(p1: Payload, m1: string, p2: Payload, m2: string)
    ensures BuildFingerprint(p1, m1) == BuildFingerprint(p2, m2) <==> p1 == p2 && m1 == m2
  {
  }
}
