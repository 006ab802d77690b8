/** The coach HTTP handler of apps/web/src/app/api/coach/route.ts: an
    ordered decision over the configuration, the request body and the chat
    provider's outcome. The handler has its own copy of the context builder,
    which, unlike the service's, never mentions the topic. The API key, the
    configured model, the parsed body and the provider's reply are inputs. */
module CoachRoute {
  import opened Wrappers
  import opened Text
  import opened Json
  import opened CoachPrompt
  import opened Validation

  const DefaultModel: string := "gpt-4o-mini"
  const MaxTokens: nat := 512

  /** The handler's context sections: the question line, then the summary
      line when the summary has something to say. */
  function HandlerSections(question: Option<Question>, summary: Option<AttemptSummary>): seq<string> {
    (if question.Some? then [QuestionLine(question.value)] else [])
      + (if summary.Some? && SummaryParts(summary.value) != [] then [SummaryLine(summary.value)] else [])
  }

  /** `buildContext`: the sections behind "Context: ", or nothing when
      neither the question nor the summary contributes. */
  function BuildContext(question: Option<Question>, summary: Option<AttemptSummary>): (r: string)
    ensures r == "" <==> question.None? && !HasSummaryField(summary)
    ensures question.Some? ==> StartsWith(r, "Context: " + QuestionLine(question.value))
    ensures question.None? && HasSummaryField(summary) ==> r == "Context: " + SummaryLine(summary.value)
  {
    var details := HandlerSections(question, summary);
    if details == [] then ""
    else
      JoinStartsWithHead(details, " ");
      "Context: " + Join(details, " ")
  }

  /** The handler's context is the service's context without a topic, so
      the two agree whenever no topic is given. */
  lemma BuildContextIsServiceWithoutTopic(question: Option<Question>, summary: Option<AttemptSummary>, topic: Option<string>)
    ensures BuildContext(question, summary) == ContextDetails(None, question, summary)
    ensures !HasTopic(topic) ==> BuildContext(question, summary) == ContextDetails(topic, question, summary)
  {
    var sections := HandlerSections(question, summary);
    assert ContextSections(None, question, summary) == [] + sections == sections;
    if !HasTopic(topic) {
      assert ContextSections(topic, question, summary) == [] + sections;
    }
  }

  /** A present topic changes the service's context but not the handler's:
      the handler's context never carries the topic line. */
  lemma TopicOnlyInService(topic: string, question: Option<Question>, summary: Option<AttemptSummary>)
    requires topic != ""
    ensures ContextDetails(Some(topic), question, summary) != BuildContext(question, summary)
  {
    var withTopic := ContextDetails(Some(topic), question, summary);
    var handler := BuildContext(question, summary);
    assert withTopic[9] == 'S' by {
      var line := TopicLine(topic);
      assert line[0] == "Student focus topic: "[0] == 'S';
      assert |"Context: "| == 9;
      assert withTopic[..|"Context: " + line|] == "Context: " + line;
      assert ("Context: " + line)[9] == line[0];
    }
    if handler != "" {
      assert handler[9] != 'S' by {
        if question.Some? {
          QuestionLineStartsWithPrompt(question.value);
          var q := QuestionLine(question.value);
          assert handler[..|"Context: " + q|] == "Context: " + q;
          assert q[..|"Current question prompt: " + question.value.prompt|] == "Current question prompt: " + question.value.prompt;
          assert q[0] == 'C';
        } else {
          SummaryLineStart(summary.value);
        }
      }
    }
  }

  /** A summary line starts with its first present sentence: the attempt
      count, else a non-empty last answer, else the correctness, else the
      streak. None of them begins with 'S'. */
  lemma SummaryLineStart(s: AttemptSummary)
    requires SummaryParts(s) != []
    ensures |SummaryLine(s)| > 0 && SummaryLine(s)[0] in {'A', 'M', 'L', 'C'}
    ensures s.attempts.Some? ==> StartsWith(SummaryLine(s), "Attempts this session: ")
    ensures s.attempts.None? && s.lastAnswer.Some? && s.lastAnswer.value != "" ==>
      StartsWith(SummaryLine(s), "Most recent answer: ")
    ensures s.attempts.None? && (s.lastAnswer.None? || s.lastAnswer.value == "") && s.correct.Some? ==>
      StartsWith(SummaryLine(s), "Last answer correct: ")
    ensures s.attempts.None? && (s.lastAnswer.None? || s.lastAnswer.value == "") && s.correct.None? ==>
      StartsWith(SummaryLine(s), "Current streak: ")
  {
    var parts := SummaryParts(s);
    JoinStartsWithHead(parts, " ");
    var prefix := SummaryPrefix(s);
    SummaryHeadPrefix(s);
    StartsWithTransitive(SummaryLine(s), parts[0], prefix);
    assert SummaryLine(s)[0] == prefix[0];
  }

  /** The opening words of a summary's first sentence. */
  function SummaryPrefix(s: AttemptSummary): string {
    if s.attempts.Some? then "Attempts this session: "
    else if s.lastAnswer.Some? && s.lastAnswer.value != "" then "Most recent answer: "
    else if s.correct.Some? then "Last answer correct: "
    else "Current streak: "
  }

  lemma SummaryHeadPrefix(s: AttemptSummary)
    requires SummaryParts(s) != []
    ensures StartsWith(SummaryParts(s)[0], SummaryPrefix(s))
  {
    var head := SummaryParts(s)[0];
    var prefix := SummaryPrefix(s);
    assert head[..|prefix|] == prefix;
  }

  lemma StartsWithTransitive(s: string, t: string, u: string)
    requires StartsWith(s, t) && StartsWith(t, u)
    ensures StartsWith(s, u)
  {
    assert s[..|u|] == t[..|t|][..|u|];
  }

  /** The request handed to the chat provider. */
  datatype ChatRequest = ChatRequest(model: string, temperature: real, maxTokens: nat, messages: seq<Message>)

  /** The first choice of a completion, when there is one. */
  datatype Choice = Choice(content: Option<string>, finishReason: JsValue)

  /** What the provider call produced. */
  datatype ChatOutcome = ChatThrew | ChatCompleted(choice: Option<Choice>, usage: JsValue)

  datatype Response =
    | NotConfigured
    | InvalidJson
    | InvalidPayload(issues: seq<Issue>)
    | NoReply
    | ContactFailed
    | Coached(message: string, mode: Mode, finishReason: JsValue, usage: JsValue)

  function Status(r: Response): int {
    match r
    case NotConfigured => 503
    case InvalidJson => 400
    case InvalidPayload(_) => 400
    case NoReply => 502
    case ContactFailed => 500
    case Coached(_, _, _, _) => 200
  }

  /** The reply and the request sent to the provider, if one was sent. */
  datatype Outcome = Outcome(response: Response, request: Option<ChatRequest>)

  /** The provider request for a validated payload: the system prompt, then
      the messages, at the mode's temperature. */
  function RequestFor(p: Payload, envModel: Option<string>): (r: ChatRequest)
    ensures r.model == envModel.GetOr(DefaultModel)
    ensures r.temperature == Temperature(p.mode) && r.maxTokens == MaxTokens
    ensures |r.messages| == |p.messages| + 1
    ensures r.messages[0] == Message(System, SystemPrompt(p.mode, BuildContext(p.question, p.attemptSummary)))
    ensures r.messages[1..] == p.messages
  {
    ChatRequest(envModel.GetOr(DefaultModel), Temperature(p.mode), MaxTokens,
                [Message(System, SystemPrompt(p.mode, BuildContext(p.question, p.attemptSummary)))] + p.messages)
  }

  /** The text `choice?.message?.content?.trim()` yields, when it is non-empty. */
  function ReplyText(outcome: ChatOutcome): (t: Option<string>)
    requires outcome.ChatCompleted?
    ensures t.Some? <==> outcome.choice.Some? && outcome.choice.value.content.Some? && !Blank(outcome.choice.value.content.value)
    ensures t.Some? ==> t.value == Trim(outcome.choice.value.content.value)
  {
    if outcome.choice.Some? && outcome.choice.value.content.Some? then
      var text := Trim(outcome.choice.value.content.value);
      TrimEmptyIffBlank(outcome.choice.value.content.value);
      if text == "" then None else Some(text)
    else None
  }

  /** A key that is unset or empty counts as missing. */
  predicate Configured(apiKey: Option<string>) {
    apiKey.Some? && apiKey.value != ""
  }

  /** The checks made before the provider is called, in order: the key,
      then the body's JSON, then the schema. */
  function Admit(apiKey: Option<string>, body: Option<Json>): (r: Result<Payload, Response>)
    ensures r.Failure? ==> Status(r.error) == 503 || Status(r.error) == 400
    ensures r.Failure? && r.error == NotConfigured <==> !Configured(apiKey)
    ensures r.Failure? && r.error == InvalidJson <==> Configured(apiKey) && body.None?
    ensures r.Failure? && r.error.InvalidPayload? <==> Configured(apiKey) && body.Some? && !ValidCoachRequest(body.value)
    ensures r.Failure? && r.error.InvalidPayload? ==> r.error.issues != []
    ensures r.Success? <==> Configured(apiKey) && body.Some? && ValidCoachRequest(body.value)
    ensures r.Success? ==> ParseCoachRequest(body.value) == Success(r.value)
  {
    if !Configured(apiKey) then Failure(NotConfigured)
    else if body.None? then Failure(InvalidJson)
    else match ParseCoachRequest(body.value)
      case Failure(issues) => Failure(InvalidPayload(issues))
      case Success(p) => Success(p)
  }

  /** The reply to the provider's outcome for a validated payload. */
  function Answer(p: Payload, outcome: ChatOutcome): (r: Response)
    ensures r == ContactFailed <==> outcome.ChatThrew?
    ensures r == NoReply <==> outcome.ChatCompleted? && ReplyText(outcome).None?
    ensures r.Coached? <==> outcome.ChatCompleted? && ReplyText(outcome).Some?
    ensures r.Coached? ==>
      && r.message == Trim(outcome.choice.value.content.value)
      && r.message != ""
      && !IsSpace(r.message[0]) && !IsSpace(r.message[|r.message| - 1])
      && r.mode == p.mode
      && r.finishReason == outcome.choice.value.finishReason
      && r.usage == outcome.usage
  {
    if outcome.ChatThrew? then ContactFailed
    else
      var text := ReplyText(outcome);
      if text.None? then NoReply
      else
        TrimEdges(outcome.choice.value.content.value);
        Coached(text.value, p.mode, outcome.choice.value.finishReason, outcome.usage)
  }

  /** POST. `apiKey` is the configured key; `body` is `None` when the
      request body is not valid JSON; `provider` is what the chat call
      returns for the request it is given. */
  function Post(apiKey: Option<string>, envModel: Option<string>, body: Option<Json>, provider: ChatRequest -> ChatOutcome): (o: Outcome)
    ensures o.request.Some? <==> Admit(apiKey, body).Success?
    ensures o.request.None? ==> o.response == Admit(apiKey, body).error
    ensures o.request.Some? ==>
      && o.request.value == RequestFor(Admit(apiKey, body).value, envModel)
      && o.response == Answer(Admit(apiKey, body).value, provider(o.request.value))
  {
    match Admit(apiKey, body)
    case Failure(response) => Outcome(response, None)
    case Success(p) =>
      var request := RequestFor(p, envModel);
      Outcome(Answer(p, provider(request)), Some(request))
  }

  /** The handler's statuses in order: 503 without a key, 400 for a body
      that is not JSON or fails the schema (the provider is not called in
      any of these), then 500, 502 or 200 from the provider's outcome. */
  lemma StatusOrder(apiKey: Option<string>, envModel: Option<string>, body: Option<Json>, provider: ChatRequest -> ChatOutcome)
    ensures var o := Post(apiKey, envModel, body, provider);
      && (Status(o.response) == 503 <==> !Configured(apiKey))
      && (Status(o.response) == 400 <==> Configured(apiKey) && (body.None? || !ValidCoachRequest(body.value)))
      && (o.request.Some? <==> Configured(apiKey) && body.Some? && ValidCoachRequest(body.value))
      && (o.request.Some? ==> Status(o.response) in {500, 502, 200})
      && (o.request.Some? ==> (Status(o.response) == 500 <==> provider(o.request.value).ChatThrew?))
  {
    var o := Post(apiKey, envModel, body, provider);
    var admitted := Admit(apiKey, body);
    if admitted.Failure? {
      assert o.request.None? && o.response == admitted.error;
    } else {
      var outcome := provider(o.request.value);
      assert o.response == Answer(admitted.value, outcome);
      AnswerStatus(admitted.value, outcome);
    }
  }

  /** The provider's outcome decides the status: 500 exactly when the call
      threw, otherwise 502 or 200. */
  lemma AnswerStatus(p: Payload, outcome: ChatOutcome)
    ensures Status(Answer(p, outcome)) in {500, 502, 200}
    ensures Status(Answer(p, outcome)) == 500 <==> outcome.ChatThrew?
  {
  }

  /** Whether the client sent a topic or not, the provider sees the same request. */
  lemma TopicIgnored(p: Payload, topic: Option<string>, envModel: Option<string>)
    ensures RequestFor(p, envModel) == RequestFor(p.(topic := topic), envModel)
  {
  }

  /** Without a topic, the handler asks the provider exactly what the
      service's message builder produces; with one, the handler's system
      prompt differs from the service's. */
  lemma HandlerMatchesServiceMessages(p: Payload, envModel: Option<string>)
    ensures !HasTopic(p.topic) ==> RequestFor(p, envModel).messages == ToChatMessages(p)
    ensures HasTopic(p.topic) ==> RequestFor(p, envModel).messages != ToChatMessages(p)
  {
    BuildContextIsServiceWithoutTopic(p.question, p.attemptSummary, p.topic);
    if HasTopic(p.topic) {
      TopicOnlyInService(p.topic.value, p.question, p.attemptSummary);
      SystemPromptInjective(p.mode, ContextDetails(p.topic, p.question, p.attemptSummary), BuildContext(p.question, p.attemptSummary));
      assert RequestFor(p, envModel).messages[0] != ToChatMessages(p)[0];
    }
  }

  /** Different contexts give different system prompts. */
  lemma SystemPromptInjective(mode: Mode, c1: string, c2: string)
    requires c1 != c2
    ensures SystemPrompt(mode, c1) != SystemPrompt(mode, c2)
  {
    var base := SystemPreamble + " " + Guidance(mode) + " " + StyleDirective;
    var p1, p2 := SystemPrompt(mode, c1), SystemPrompt(mode, c2);
    if c1 == "" || c2 == "" {
      assert |p1| != |p2|;
    } else {
      assert p1[|base| + 1..] == c1;
      assert p2[|base| + 1..] == c2;
    }
  }
}
