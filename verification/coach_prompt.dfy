/** The coach's request payload and the prompt builder of
    apps/web/src/lib/coach/service.ts: the context line built from the topic,
    the question and the attempt summary, the system prompt, and the chat
    message list handed to the provider. */
module CoachPrompt {
  import opened Wrappers
  import opened Text

  datatype Mode = Hint | Explain | Comfort | Challenge

  datatype Role = User | Assistant | System

  datatype Message = Message(role: Role, content: string)

  datatype Question = Question(
    id: Option<string>,
    prompt: string,
    choices: Option<seq<string>>,
    correctAnswer: Option<string>,
    domain: Option<string>,
    difficulty: Option<real>)

  /** Counts are JavaScript numbers; the model admits the integral ones. */
  datatype AttemptSummary = AttemptSummary(
    attempts: Option<int>,
    lastAnswer: Option<string>,
    correct: Option<bool>,
    streak: Option<int>)

  datatype Payload = Payload(
    mode: Mode,
    messages: seq<Message>,
    topic: Option<string>,
    question: Option<Question>,
    attemptSummary: Option<AttemptSummary>)

  /** Written in two pieces so that its first letter is visible to the verifier. */
  const SystemPreamble: string :=
    "You" + " are MathQuest Coach, an encouraging AI tutor helping Florida SAT students conquer math anxiety."

  const StyleDirective: string :=
    "Keep responses under 180 words, use friendly language, and include LaTeX for math when useful."

  /** Each guidance text is written in pieces so that its first and last
      characters are visible to the verifier. */
  const HintGuidance: string :=
    "Offer" + " a concise hint that nudges the student toward the next logical step without giving away the full solution. Encourage them to show their work" + "."

  const ExplainGuidance: string :=
    "Deliver" + " a complete step-by-step explanation with clear reasoning and math notation. Tie the concept back to SAT Math framing where possible" + "."

  const ComfortGuidance: string :=
    "Lead" + " with empathy and encouragement. Normalize struggle, reflect their effort, and offer a reassuring next action. Keep math guidance lightweight" + "."

  const ChallengeGuidance: string :=
    "Push" + " the student to think deeper. Ask follow-up questions, highlight patterns, and suggest strategies that raise the difficulty slightly" + "."

  /** The persona guidance of each mode: a non-empty text with no space at
      either end, so it survives the prompt's trimming unchanged. */
  function Guidance(mode: Mode): (r: string)
    ensures r != "" && !IsSpace(r[0]) && !IsSpace(r[|r| - 1])
  {
    match mode
    case Hint => HintGuidance
    case Explain => ExplainGuidance
    case Comfort => ComfortGuidance
    case Challenge => ChallengeGuidance
  }

  /** The sampling temperature of each mode: the explaining mode is the most
      deterministic and the comforting one the least. */
  function Temperature(mode: Mode): (t: real)
    ensures 0.2 <= t <= 0.6
    ensures t == 0.2 <==> mode == Explain
    ensures t == 0.6 <==> mode == Comfort
  {
    match mode
    case Hint => 0.3
    case Explain => 0.2
    case Comfort => 0.6
    case Challenge => 0.5
  }

  /** `x.toFixed(2)` computed on the exact value: round half away from zero
      to two decimals, with a minus sign for negative inputs. */
  function ToFixed2(x: real): string {
    (if x < 0.0 then "-" else "") + Hundredths(RoundHundredths(Magnitude(x)))
  }

  /** The absolute value of `x`. */
  function Magnitude(x: real): (a: real)
    ensures a >= 0.0 && (a == x || a == -x)
  {
    if x < 0.0 then -x else x
  }

  /** The number of hundredths nearest to `a`, ties rounding up. */
  function RoundHundredths(a: real): (n: nat)
    requires a >= 0.0
    ensures a * 100.0 - 0.5 < n as real <= a * 100.0 + 0.5
  {
    (a * 100.0 + 0.5).Floor
  }

  /** `n` hundredths written with a point before the last two digits. */
  function Hundredths(n: nat): string {
    NatToDecimal(n / 100) + "." + [DigitChar((n % 100) / 10), DigitChar(n % 10)]
  }

  /** No two modes share a guidance text or a temperature. */
  lemma ModeBehaviorsDistinct(m1: Mode, m2: Mode)
    ensures Guidance(m1) == Guidance(m2) ==> m1 == m2
    ensures Temperature(m1) == Temperature(m2) ==> m1 == m2
  {
    if Guidance(m1) == Guidance(m2) {
      assert Guidance(m1)[0] == Guidance(m2)[0];
    }
  }

  /** `body` is digits, a point and two more digits, and its value in
      hundredths is within half a hundredth of `a * 100` (ties rounding up). */
  predicate RoundedDecimal(body: string, a: real) {
    && |body| >= 4 && body[|body| - 3] == '.'
    && (forall i :: 0 <= i < |body| && i != |body| - 3 ==> '0' <= body[i] <= '9')
    && var v := DecimalValue(body[..|body| - 3] + body[|body| - 2..]) as real;
       a * 100.0 - 0.5 < v <= a * 100.0 + 0.5
  }

  /** `ToFixed2` renders the absolute value rounded to hundredths: a minus
      sign exactly for negative inputs, then the rounded decimal. */
  lemma ToFixed2Rounds(x: real)
    ensures var r := ToFixed2(x);
      && |r| >= 1
      && (x < 0.0 <==> r[0] == '-')
      && RoundedDecimal(if x < 0.0 then r[1..] else r, Magnitude(x))
  {
    var r := ToFixed2(x);
    var body := Hundredths(RoundHundredths(Magnitude(x)));
    BodyRounds(Magnitude(x));
    assert r == (if x < 0.0 then "-" else "") + body;
    assert (if x < 0.0 then r[1..] else r) == body;
  }

  /** The unsigned part of `ToFixed2` is `a` rounded to hundredths. */
  lemma BodyRounds(a: real)
    requires a >= 0.0
    ensures var body := Hundredths(RoundHundredths(a));
      body[0] != '-' && RoundedDecimal(body, a)
  {
    HundredthsShape(RoundHundredths(a));
  }

  /** The digits of `Hundredths(n)`, with the point taken out, spell `n`. */
  lemma HundredthsShape(n: nat)
    ensures var body := Hundredths(n);
      && |body| >= 4 && body[|body| - 3] == '.' && body[0] != '-'
      && (forall i :: 0 <= i < |body| && i != |body| - 3 ==> '0' <= body[i] <= '9')
      && DecimalValue(body[..|body| - 3] + body[|body| - 2..]) == n
  {
    var whole := NatToDecimal(n / 100);
    var d1, d0 := DigitChar((n % 100) / 10), DigitChar(n % 10);
    var body := whole + "." + [d1, d0];
    assert body == Hundredths(n);
    assert body[..|body| - 3] + body[|body| - 2..] == whole + [d1] + [d0];
    HundredthsValue(n);
  }

  /** The whole part's digits followed by the two decimals spell `n`. */
  lemma HundredthsValue(n: nat)
    ensures DecimalValue(NatToDecimal(n / 100) + [DigitChar((n % 100) / 10)] + [DigitChar(n % 10)]) == n
  {
    var a, b, c := n / 100, (n % 100) / 10, n % 10;
    TwoDigitsAppended(NatToDecimal(a), b, c);
    DecimalRoundTrip(a);
    assert 10 * b + c == n % 100;
  }

  /** Two digits appended to a numeral shift it by two places. */
  lemma TwoDigitsAppended(whole: string, b: nat, c: nat)
    requires forall i :: 0 <= i < |whole| ==> '0' <= whole[i] <= '9'
    requires b < 10 && c < 10
    ensures DecimalValue(whole + [DigitChar(b)] + [DigitChar(c)]) == 10 * (10 * DecimalValue(whole) + b) + c
  {
    DecimalSnoc(whole + [DigitChar(b)], DigitChar(c));
    DecimalSnoc(whole, DigitChar(b));
  }

  /** Appending a digit multiplies by ten and adds it. */
  lemma DecimalSnoc(s: string, c: char)
    requires forall i :: 0 <= i < |s| ==> '0' <= s[i] <= '9'
    requires '0' <= c <= '9'
    ensures DecimalValue(s + [c]) == 10 * DecimalValue(s) + DigitValue(c)
  {
    assert (s + [c])[..|s|] == s;
  }

  /** `if (topic)`: a topic that is present and not empty. */
  predicate HasTopic(topic: Option<string>) {
    topic.Some? && topic.value != ""
  }

  function TopicLine(topic: string): string {
    "Student focus topic: " + topic + "."
  }

  function QuestionParts(q: Question): seq<string> {
    ["Current question prompt:", q.prompt]
      + (if q.choices.Some? && |q.choices.value| > 0 then ["Choices: " + Join(q.choices.value, ", ")] else [])
      + (if q.domain.Some? && q.domain.value != "" then ["Domain: " + q.domain.value + "."] else [])
      + (if q.difficulty.Some? then ["Difficulty parameter: " + ToFixed2(q.difficulty.value) + "."] else [])
  }

  function QuestionLine(q: Question): string {
    Join(QuestionParts(q), " ")
  }

  function SummaryParts(s: AttemptSummary): seq<string> {
    (if s.attempts.Some? then ["Attempts this session: " + IntToDecimal(s.attempts.value) + "."] else [])
      + (if s.lastAnswer.Some? && s.lastAnswer.value != "" then ["Most recent answer: " + s.lastAnswer.value + "."] else [])
      + (if s.correct.Some? then ["Last answer correct: " + (if s.correct.value then "yes" else "no") + "."] else [])
      + (if s.streak.Some? then ["Current streak: " + IntToDecimal(s.streak.value) + "."] else [])
  }

  function SummaryLine(s: AttemptSummary): string {
    Join(SummaryParts(s), " ")
  }

  /** The attempt summary contributes a line: it has a count, a non-empty
      last answer, a correctness flag or a streak. */
  predicate HasSummaryField(summary: Option<AttemptSummary>) {
    && summary.Some?
    && (|| summary.value.attempts.Some?
        || (summary.value.lastAnswer.Some? && summary.value.lastAnswer.value != "")
        || summary.value.correct.Some?
        || summary.value.streak.Some?)
  }

  /** The context lines in the order they are written: topic, question, summary. */
  function ContextSections(topic: Option<string>, question: Option<Question>, summary: Option<AttemptSummary>): seq<string> {
    (if HasTopic(topic) then [TopicLine(topic.value)] else [])
      + (if question.Some? then [QuestionLine(question.value)] else [])
      + (if summary.Some? && SummaryParts(summary.value) != [] then [SummaryLine(summary.value)] else [])
  }

  /** `buildContextDetails`. */
  function ContextDetails(topic: Option<string>, question: Option<Question>, summary: Option<AttemptSummary>): (r: string)
    ensures r == "" <==> !HasTopic(topic) && question.None? && !HasSummaryField(summary)
    ensures r != "" ==> StartsWith(r, "Context: ")
    ensures HasTopic(topic) ==> StartsWith(r, "Context: " + TopicLine(topic.value))
    ensures !HasTopic(topic) && question.Some? ==> StartsWith(r, "Context: " + QuestionLine(question.value))
    ensures !HasTopic(topic) && question.None? && HasSummaryField(summary) ==> r == "Context: " + SummaryLine(summary.value)
  {
    var details := ContextSections(topic, question, summary);
    if details == [] then ""
    else
      JoinStartsWithHead(details, " ");
      "Context: " + Join(details, " ")
  }

  /** With all three sources present the context lists topic, then question,
      then summary, separated by single spaces. */
  lemma ContextOrder(topic: string, question: Question, summary: AttemptSummary)
    requires topic != ""
    requires HasSummaryField(Some(summary))
    ensures ContextDetails(Some(topic), Some(question), Some(summary))
         == "Context: " + TopicLine(topic) + " " + QuestionLine(question) + " " + SummaryLine(summary)
  {
    var t, q, u := TopicLine(topic), QuestionLine(question), SummaryLine(summary);
    var details := ContextSections(Some(topic), Some(question), Some(summary));
    assert details == [t, q, u] by {
      assert SummaryParts(summary) != [];
    }
    calc {
      ContextDetails(Some(topic), Some(question), Some(summary));
      "Context: " + Join(details, " ");
      { JoinThree(t, q, u, " "); }
      "Context: " + (t + " " + q + " " + u);
      "Context: " + t + " " + q + " " + u;
    }
  }

  /** With exactly two sources present the absent one is skipped and the
      other two keep the order topic, question, summary. */
  lemma ContextPairs(topic: Option<string>, question: Option<Question>, summary: Option<AttemptSummary>)
    ensures HasTopic(topic) && question.Some? && !HasSummaryField(summary) ==>
      ContextDetails(topic, question, summary) == "Context: " + TopicLine(topic.value) + " " + QuestionLine(question.value)
    ensures HasTopic(topic) && question.None? && HasSummaryField(summary) ==>
      ContextDetails(topic, question, summary) == "Context: " + TopicLine(topic.value) + " " + SummaryLine(summary.value)
    ensures !HasTopic(topic) && question.Some? && HasSummaryField(summary) ==>
      ContextDetails(topic, question, summary) == "Context: " + QuestionLine(question.value) + " " + SummaryLine(summary.value)
  {
    if HasTopic(topic) && question.Some? && !HasSummaryField(summary) {
      ContextOfTwo(topic, question, summary, TopicLine(topic.value), QuestionLine(question.value));
    } else if HasTopic(topic) && question.None? && HasSummaryField(summary) {
      ContextOfTwo(topic, question, summary, TopicLine(topic.value), SummaryLine(summary.value));
    } else if !HasTopic(topic) && question.Some? && HasSummaryField(summary) {
      ContextOfTwo(topic, question, summary, QuestionLine(question.value), SummaryLine(summary.value));
    }
  }

  /** Two sections are joined by a single space after the prefix. */
  lemma ContextOfTwo(topic: Option<string>, question: Option<Question>, summary: Option<AttemptSummary>, a: string, b: string)
    requires ContextSections(topic, question, summary) == [a, b]
    ensures ContextDetails(topic, question, summary) == "Context: " + a + " " + b
  {
    JoinTwo(a, b, " ");
  }

  /** With a single source present the context is that source's line alone. */
  lemma ContextSingles(topic: Option<string>, question: Option<Question>, summary: Option<AttemptSummary>)
    ensures HasTopic(topic) && question.None? && !HasSummaryField(summary) ==>
      ContextDetails(topic, question, summary) == "Context: " + TopicLine(topic.value)
    ensures !HasTopic(topic) && question.Some? && !HasSummaryField(summary) ==>
      ContextDetails(topic, question, summary) == "Context: " + QuestionLine(question.value)
  {
  }

  /** The question line begins with its prompt text. */
  lemma QuestionLineStartsWithPrompt(q: Question)
    ensures StartsWith(QuestionLine(q), "Current question prompt: " + q.prompt)
  {
    var parts := QuestionParts(q);
    assert parts[1..][0] == q.prompt;
    JoinStartsWithHead(parts[1..], " ");
  }

  /** `buildSystemPrompt`: the non-empty sections joined with single spaces. */
  function SystemPrompt(mode: Mode, context: string): (r: string)
    ensures context == "" ==> r == SystemPreamble + " " + Guidance(mode) + " " + StyleDirective
    ensures context != "" ==> r == SystemPreamble + " " + Guidance(mode) + " " + StyleDirective + " " + context
    ensures StartsWith(r, SystemPreamble)
  {
    var g := Guidance(mode);
    assert |SystemPreamble| > 0 && |StyleDirective| > 0 && |g| > 0;
    JoinNonEmptyFour(SystemPreamble, g, StyleDirective, context, " ");
    Join(NonEmpty([SystemPreamble, Guidance(mode), StyleDirective, context]), " ")
  }

  /** `toOpenAIMessages`: the system prompt, then the caller's messages unchanged. */
  function ToChatMessages(p: Payload): (r: seq<Message>)
    ensures |r| == |p.messages| + 1
    ensures r[0].role == System && r[0].content == SystemPrompt(p.mode, ContextDetails(p.topic, p.question, p.attemptSummary))
    ensures r[1..] == p.messages
  {
    [Message(System, SystemPrompt(p.mode, ContextDetails(p.topic, p.question, p.attemptSummary)))] + p.messages
  }
}
