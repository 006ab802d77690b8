/** The request schemas of apps/web/src/lib/validation.ts as parsers over
    parsed JSON. Each parser either yields the typed value or fails with
    the list of issues it found: like the schema library, it checks every
    field and reports all problems, not only the first. Beside each parser
    stands a declarative predicate saying which inputs the schema accepts. */
module Validation {
  import opened Wrappers
  import opened Text
  import opened Json
  import opened CoachPrompt

  datatype IssueCode = Required | InvalidType | InvalidEnum | InvalidUnion | TooSmall | TooBig | NotInteger

  /** A failed check: the path of the offending value and what failed. */
  datatype Issue = Issue(path: seq<string>, code: IssueCode)

  type Checked<T> = Result<T, seq<Issue>>

  function IssuesOf<T>(r: Checked<T>): (issues: seq<Issue>)
    ensures r.Success? ==> issues == []
    ensures r.Failure? ==> issues == r.error
  {
    if r.Success? then [] else r.error
  }

  // ---------------------------------------------------------------------
  // Scalar fields

  /** A string whose length in UTF-16 code units lies within the bounds. */
  predicate StringFits(s: string, minLen: nat, maxLen: Option<nat>) {
    Utf16Length(s) >= minLen && (maxLen.None? || Utf16Length(s) <= maxLen.value)
  }

  predicate StringOk(v: JsValue, minLen: nat, maxLen: Option<nat>) {
    v.Some? && v.value.JStr? && StringFits(v.value.s, minLen, maxLen)
  }

  /** `z.string()` with `.min(minLen)` and, optionally, `.max(maxLen)`. */
  function ParseString(v: JsValue, path: seq<string>, minLen: nat, maxLen: Option<nat>): (r: Checked<string>)
    ensures r.Success? <==> StringOk(v, minLen, maxLen)
    ensures r.Success? ==> r.value == v.value.s
    ensures r.Failure? ==> r.error != [] && forall i :: 0 <= i < |r.error| ==> r.error[i].path == path
  {
    if v.None? then Failure([Issue(path, Required)])
    else if !v.value.JStr? then Failure([Issue(path, InvalidType)])
    else
      var n := Utf16Length(v.value.s);
      var issues := (if n < minLen then [Issue(path, TooSmall)] else [])
        + (if maxLen.Some? && n > maxLen.value then [Issue(path, TooBig)] else []);
      if issues == [] then Success(v.value.s) else Failure(issues)
  }

  /** `.optional()`: an absent value passes; `null` does not. */
  function ParseOptString(v: JsValue, path: seq<string>, minLen: nat, maxLen: Option<nat>): (r: Checked<Option<string>>)
    ensures r.Success? <==> v.None? || StringOk(v, minLen, maxLen)
    ensures r.Success? ==> r.value == if v.None? then None else Some(v.value.s)
    ensures r.Failure? ==> r.error != []
  {
    if v.None? then Success(None)
    else match ParseString(v, path, minLen, maxLen)
      case Success(s) => Success(Some(s))
      case Failure(e) => Failure(e)
  }

  /** A number meeting an optional integrality check and optional bounds. */
  predicate NumberFits(x: real, integer: bool, min: Option<real>, max: Option<real>) {
    (!integer || IsInteger(x)) && (min.None? || x >= min.value) && (max.None? || x <= max.value)
  }

  predicate NumberOk(v: JsValue, integer: bool, min: Option<real>, max: Option<real>) {
    v.Some? && v.value.JNum? && NumberFits(v.value.value, integer, min, max)
  }

  /** The checks of `z.number()` chained with `.int()`, `.min()` and `.max()`, in that order. */
  function NumberIssues(x: real, path: seq<string>, integer: bool, min: Option<real>, max: Option<real>): (issues: seq<Issue>)
    ensures issues == [] <==> NumberFits(x, integer, min, max)
  {
    (if integer && !IsInteger(x) then [Issue(path, NotInteger)] else [])
      + (if min.Some? && x < min.value then [Issue(path, TooSmall)] else [])
      + (if max.Some? && x > max.value then [Issue(path, TooBig)] else [])
  }

  function ParseNumber(v: JsValue, path: seq<string>, integer: bool, min: Option<real>, max: Option<real>): (r: Checked<real>)
    ensures r.Success? <==> NumberOk(v, integer, min, max)
    ensures r.Success? ==> r.value == v.value.value
    ensures r.Failure? ==> r.error != []
  {
    if v.None? then Failure([Issue(path, Required)])
    else if !v.value.JNum? then Failure([Issue(path, InvalidType)])
    else
      var issues := NumberIssues(v.value.value, path, integer, min, max);
      if issues == [] then Success(v.value.value) else Failure(issues)
  }

  /** An optional whole number with a lower bound, as an integer. */
  function ParseOptCount(v: JsValue, path: seq<string>, min: int): (r: Checked<Option<int>>)
    ensures r.Success? <==> v.None? || NumberOk(v, true, Some(min as real), None)
    ensures r.Success? && v.Some? ==> r.value == Some(v.value.value.Floor) && r.value.value >= min
    ensures r.Success? && v.None? ==> r.value == None
    ensures r.Failure? ==> r.error != []
  {
    if v.None? then Success(None)
    else match ParseNumber(v, path, true, Some(min as real), None)
      case Success(x) => Success(Some(x.Floor))
      case Failure(e) => Failure(e)
  }

  function ParseOptReal(v: JsValue, path: seq<string>): (r: Checked<Option<real>>)
    ensures r.Success? <==> v.None? || (v.value.JNum?)
    ensures r.Success? ==> r.value == if v.None? then None else Some(v.value.value)
    ensures r.Failure? ==> r.error != []
  {
    if v.None? then Success(None)
    else match ParseNumber(v, path, false, None, None)
      case Success(x) => Success(Some(x))
      case Failure(e) => Failure(e)
  }

  function ParseBool(v: JsValue, path: seq<string>): (r: Checked<bool>)
    ensures r.Success? <==> v.Some? && v.value.JBool?
    ensures r.Success? ==> r.value == v.value.b
    ensures r.Failure? ==> r.error != []
  {
    if v.None? then Failure([Issue(path, Required)])
    else if v.value.JBool? then Success(v.value.b)
    else Failure([Issue(path, InvalidType)])
  }

  function ParseOptBool(v: JsValue, path: seq<string>): (r: Checked<Option<bool>>)
    ensures r.Success? <==> v.None? || v.value.JBool?
    ensures r.Success? ==> r.value == if v.None? then None else Some(v.value.b)
    ensures r.Failure? ==> r.error != []
  {
    if v.None? then Success(None)
    else match ParseBool(v, path)
      case Success(b) => Success(Some(b))
      case Failure(e) => Failure(e)
  }

  // ---------------------------------------------------------------------
  // Coach messages

  const RoleNames: seq<string> := ["user", "assistant", "system"]
  const ModeNames: seq<string> := ["hint", "explain", "comfort", "challenge"]

  function RoleName(r: Role): (s: string)
    ensures s in RoleNames
  {
    match r
    case User => "user"
    case Assistant => "assistant"
    case System => "system"
  }

  function RoleOf(s: string): Role {
    if s == "user" then User else if s == "assistant" then Assistant else System
  }

  function ModeName(m: Mode): (s: string)
    ensures s in ModeNames
  {
    match m
    case Hint => "hint"
    case Explain => "explain"
    case Comfort => "comfort"
    case Challenge => "challenge"
  }

  function ModeOf(s: string): Mode {
    if s == "explain" then Explain else if s == "comfort" then Comfort else if s == "challenge" then Challenge else Hint
  }

  /** Naming a role or mode and reading the name back gives it again. */
  lemma NamesRoundTrip(r: Role, m: Mode)
    ensures RoleOf(RoleName(r)) == r
    ensures ModeOf(ModeName(m)) == m
  {
  }

  /** `CoachMessageSchema`: an object with a known role and non-empty content. */
  predicate ValidMessage(v: Json) {
    && v.JObj?
    && var role := Prop(Some(v), "role");
    && role.Some? && role.value.JStr? && role.value.s in RoleNames
    && StringOk(Prop(Some(v), "content"), 1, None)
  }

  function MessageOf(v: Json): Message
    requires ValidMessage(v)
  {
    Message(RoleOf(Prop(Some(v), "role").value.s), Prop(Some(v), "content").value.s)
  }

  function ParseMessage(v: Json, path: seq<string>): (r: Checked<Message>)
    ensures r.Success? <==> ValidMessage(v)
    ensures r.Success? ==> r.value == MessageOf(v) && r.value.content != ""
    ensures r.Failure? ==> r.error != []
  {
    if !v.JObj? then Failure([Issue(path, InvalidType)])
    else
      var roleValue := Prop(Some(v), "role");
      var role: Checked<Role> :=
        if roleValue.None? then Failure([Issue(path + ["role"], Required)])
        else if !roleValue.value.JStr? then Failure([Issue(path + ["role"], InvalidType)])
        else if roleValue.value.s !in RoleNames then Failure([Issue(path + ["role"], InvalidEnum)])
        else Success(RoleOf(roleValue.value.s));
      var content := ParseString(Prop(Some(v), "content"), path + ["content"], 1, None);
      if role.Success? && content.Success? then Success(Message(role.value, content.value))
      else Failure(IssuesOf(role) + IssuesOf(content))
  }

  /** The elements of the message array from index `offset` on. */
  function ParseMessageItems(items: seq<Json>, path: seq<string>, offset: nat): (r: Checked<seq<Message>>)
    ensures r.Success? <==> forall i :: 0 <= i < |items| ==> ValidMessage(items[i])
    ensures r.Success? ==> |r.value| == |items| && forall i :: 0 <= i < |items| ==> r.value[i] == MessageOf(items[i])
    ensures r.Failure? ==> r.error != []
    decreases |items|
  {
    if items == [] then Success([])
    else
      var head := ParseMessage(items[0], path + [NatToDecimal(offset)]);
      var tail := ParseMessageItems(items[1..], path, offset + 1);
      assert forall i :: 1 <= i < |items| ==> items[1..][i - 1] == items[i];
      if head.Success? && tail.Success? then Success([head.value] + tail.value)
      else Failure(IssuesOf(head) + IssuesOf(tail))
  }

  /** `z.array(CoachMessageSchema).min(1)`. */
  predicate ValidMessages(v: JsValue) {
    && v.Some? && v.value.JArr? && |v.value.items| >= 1
    && forall i :: 0 <= i < |v.value.items| ==> ValidMessage(v.value.items[i])
  }

  function ParseMessages(v: JsValue): (r: Checked<seq<Message>>)
    ensures r.Success? <==> ValidMessages(v)
    ensures r.Success? ==> |r.value| == |v.value.items| && forall i :: 0 <= i < |r.value| ==> r.value[i] == MessageOf(v.value.items[i])
    ensures r.Failure? ==> r.error != []
  {
    if v.None? then Failure([Issue(["messages"], Required)])
    else if !v.value.JArr? then Failure([Issue(["messages"], InvalidType)])
    else
      var lengthIssues := if |v.value.items| < 1 then [Issue(["messages"], TooSmall)] else [];
      var items := ParseMessageItems(v.value.items, ["messages"], 0);
      if lengthIssues == [] && items.Success? then items else Failure(lengthIssues + IssuesOf(items))
  }

  /** `z.enum([...modes]).default('hint')`: absent means hint; `null` is refused. */
  predicate ValidMode(v: JsValue) {
    v.None? || (v.value.JStr? && v.value.s in ModeNames)
  }

  function ParseMode(v: JsValue): (r: Checked<Mode>)
    ensures r.Success? <==> ValidMode(v)
    ensures r.Success? && v.None? ==> r.value == Hint
    ensures r.Success? && v.Some? ==> r.value == ModeOf(v.value.s) && ModeName(r.value) == v.value.s
    ensures r.Failure? ==> r.error != []
  {
    if v.None? then Success(Hint)
    else if !v.value.JStr? then Failure([Issue(["mode"], InvalidType)])
    else if v.value.s !in ModeNames then Failure([Issue(["mode"], InvalidEnum)])
    else Success(ModeOf(v.value.s))
  }

  // ---------------------------------------------------------------------
  // Question and attempt summary

  predicate ValidStringItems(items: seq<Json>) {
    forall i :: 0 <= i < |items| ==> items[i].JStr?
  }

  function StringsOf(items: seq<Json>): (r: seq<string>)
    requires ValidStringItems(items)
    ensures |r| == |items| && forall i :: 0 <= i < |items| ==> r[i] == items[i].s
  {
    seq(|items|, i requires 0 <= i < |items| => items[i].s)
  }

  /** `z.array(z.string()).optional()`. */
  predicate ValidChoices(v: JsValue) {
    v.None? || (v.value.JArr? && ValidStringItems(v.value.items))
  }

  function ParseChoiceItems(items: seq<Json>, path: seq<string>, offset: nat): (r: seq<Issue>)
    ensures r == [] <==> ValidStringItems(items)
    decreases |items|
  {
    if items == [] then []
    else
      assert forall i :: 1 <= i < |items| ==> items[1..][i - 1] == items[i];
      (if items[0].JStr? then [] else [Issue(path + [NatToDecimal(offset)], InvalidType)])
        + ParseChoiceItems(items[1..], path, offset + 1)
  }

  function ParseChoices(v: JsValue, path: seq<string>): (r: Checked<Option<seq<string>>>)
    ensures r.Success? <==> ValidChoices(v)
    ensures r.Success? ==> r.value == if v.None? then None else Some(StringsOf(v.value.items))
    ensures r.Failure? ==> r.error != []
  {
    if v.None? then Success(None)
    else if !v.value.JArr? then Failure([Issue(path, InvalidType)])
    else
      var issues := ParseChoiceItems(v.value.items, path, 0);
      if issues == [] then Success(Some(StringsOf(v.value.items))) else Failure(issues)
  }

  /** The `question` object: optional id, a non-empty prompt, optional
      choices, answer, domain and difficulty. */
  predicate ValidQuestion(v: Json) {
    && v.JObj?
    && (Prop(Some(v), "id").None? || StringOk(Prop(Some(v), "id"), 0, None))
    && StringOk(Prop(Some(v), "prompt"), 1, None)
    && ValidChoices(Prop(Some(v), "choices"))
    && (Prop(Some(v), "correctAnswer").None? || StringOk(Prop(Some(v), "correctAnswer"), 0, None))
    && (Prop(Some(v), "domain").None? || StringOk(Prop(Some(v), "domain"), 0, None))
    && (Prop(Some(v), "difficulty").None? || Prop(Some(v), "difficulty").value.JNum?)
  }

  function ParseQuestion(v: JsValue): (r: Checked<Option<Question>>)
    ensures r.Success? <==> v.None? || ValidQuestion(v.value)
    ensures r.Success? ==> (r.value.Some? <==> v.Some?)
    ensures r.Success? && v.Some? ==>
      && r.value.value.prompt == Prop(v, "prompt").value.s
      && r.value.value.prompt != ""
    ensures r.Failure? ==> r.error != []
  {
    if v.None? then Success(None)
    else if !v.value.JObj? then Failure([Issue(["question"], InvalidType)])
    else
      var id := ParseOptString(Prop(v, "id"), ["question", "id"], 0, None);
      var prompt := ParseString(Prop(v, "prompt"), ["question", "prompt"], 1, None);
      var choices := ParseChoices(Prop(v, "choices"), ["question", "choices"]);
      var answer := ParseOptString(Prop(v, "correctAnswer"), ["question", "correctAnswer"], 0, None);
      var domain := ParseOptString(Prop(v, "domain"), ["question", "domain"], 0, None);
      var difficulty := ParseOptReal(Prop(v, "difficulty"), ["question", "difficulty"]);
      if id.Success? && prompt.Success? && choices.Success? && answer.Success? && domain.Success? && difficulty.Success? then
        Success(Some(Question(id.value, prompt.value, choices.value, answer.value, domain.value, difficulty.value)))
      else
        Failure(IssuesOf(id) + IssuesOf(prompt) + IssuesOf(choices) + IssuesOf(answer) + IssuesOf(domain) + IssuesOf(difficulty))
  }

  /** The `attemptSummary` object: counts are whole numbers of at least zero. */
  predicate ValidSummary(v: Json) {
    && v.JObj?
    && (Prop(Some(v), "attempts").None? || NumberOk(Prop(Some(v), "attempts"), true, Some(0.0), None))
    && (Prop(Some(v), "lastAnswer").None? || StringOk(Prop(Some(v), "lastAnswer"), 0, None))
    && (Prop(Some(v), "correct").None? || Prop(Some(v), "correct").value.JBool?)
    && (Prop(Some(v), "streak").None? || NumberOk(Prop(Some(v), "streak"), true, Some(0.0), None))
  }

  function ParseSummary(v: JsValue): (r: Checked<Option<AttemptSummary>>)
    ensures r.Success? <==> v.None? || ValidSummary(v.value)
    ensures r.Success? ==> (r.value.Some? <==> v.Some?)
    ensures r.Success? && r.value.Some? ==>
      && (r.value.value.attempts.Some? ==> r.value.value.attempts.value >= 0)
      && (r.value.value.streak.Some? ==> r.value.value.streak.value >= 0)
    ensures r.Failure? ==> r.error != []
  {
    if v.None? then Success(None)
    else if !v.value.JObj? then Failure([Issue(["attemptSummary"], InvalidType)])
    else
      var attempts := ParseOptCount(Prop(v, "attempts"), ["attemptSummary", "attempts"], 0);
      var lastAnswer := ParseOptString(Prop(v, "lastAnswer"), ["attemptSummary", "lastAnswer"], 0, None);
      var correct := ParseOptBool(Prop(v, "correct"), ["attemptSummary", "correct"]);
      var streak := ParseOptCount(Prop(v, "streak"), ["attemptSummary", "streak"], 0);
      if attempts.Success? && lastAnswer.Success? && correct.Success? && streak.Success? then
        Success(Some(AttemptSummary(attempts.value, lastAnswer.value, correct.value, streak.value)))
      else
        Failure(IssuesOf(attempts) + IssuesOf(lastAnswer) + IssuesOf(correct) + IssuesOf(streak))
  }

  // ---------------------------------------------------------------------
  // The coach request

  const TopicMax: nat := 80

  /** `CoachRequestSchema`: which request bodies the coach accepts. */
  predicate ValidCoachRequest(body: Json) {
    && body.JObj?
    && ValidMessages(Prop(Some(body), "messages"))
    && ValidMode(Prop(Some(body), "mode"))
    && (Prop(Some(body), "topic").None? || StringOk(Prop(Some(body), "topic"), 0, Some(TopicMax)))
    && (Prop(Some(body), "question").None? || ValidQuestion(Prop(Some(body), "question").value))
    && (Prop(Some(body), "attemptSummary").None? || ValidSummary(Prop(Some(body), "attemptSummary").value))
  }

  /** `CoachRequestSchema.safeParse`. */
  function ParseCoachRequest(body: Json): (r: Checked<Payload>)
    ensures r.Success? <==> ValidCoachRequest(body)
    ensures r.Failure? ==> r.error != []
    ensures r.Success? ==>
      && var p := r.value;
      && |p.messages| >= 1
      && |p.messages| == |Prop(Some(body), "messages").value.items|
      && (forall i :: 0 <= i < |p.messages| ==> p.messages[i] == MessageOf(Prop(Some(body), "messages").value.items[i]))
      && (forall i :: 0 <= i < |p.messages| ==> p.messages[i].content != "")
      && (Prop(Some(body), "mode").None? ==> p.mode == Hint)
      && (p.topic.Some? ==> Utf16Length(p.topic.value) <= TopicMax)
      && (p.question.Some? ==> p.question.value.prompt != "")
      && (p.attemptSummary.Some? && p.attemptSummary.value.attempts.Some? ==> p.attemptSummary.value.attempts.value >= 0)
      && (p.attemptSummary.Some? && p.attemptSummary.value.streak.Some? ==> p.attemptSummary.value.streak.value >= 0)
  {
    if !body.JObj? then Failure([Issue([], InvalidType)])
    else
      var messages := ParseMessages(Prop(Some(body), "messages"));
      var mode := ParseMode(Prop(Some(body), "mode"));
      var topic := ParseOptString(Prop(Some(body), "topic"), ["topic"], 0, Some(TopicMax));
      var question := ParseQuestion(Prop(Some(body), "question"));
      var summary := ParseSummary(Prop(Some(body), "attemptSummary"));
      if messages.Success? && mode.Success? && topic.Success? && question.Success? && summary.Success? then
        Success(Payload(mode.value, messages.value, topic.value, question.value, summary.value))
      else
        Failure(IssuesOf(messages) + IssuesOf(mode) + IssuesOf(topic) + IssuesOf(question) + IssuesOf(summary))
  }

  // ---------------------------------------------------------------------
  // Encoding a payload as the client sends it

  /** A number as `JSON.stringify` writes it; only integral values get
      their decimal text, which is all the schemas here look at. */
  function NumberJson(x: real): (v: Json)
    ensures v.JNum? && v.value == x && WellFormedNumber(v)
  {
    JNum(x, if IsInteger(x) then IntToDecimal(x.Floor) else "")
  }

  function StrValue(o: Option<string>): JsValue {
    if o.Some? then Some(JStr(o.value)) else None
  }

  function IntValue(o: Option<int>): JsValue {
    if o.Some? then Some(NumberJson(o.value as real)) else None
  }

  function EncodeMessage(m: Message): Json {
    JObj([("role", JStr(RoleName(m.role))), ("content", JStr(m.content))])
  }

  function ChoicesValue(choices: Option<seq<string>>): JsValue {
    if choices.Some? then Some(JArr(seq(|choices.value|, i requires 0 <= i < |choices.value| => JStr(choices.value[i])))) else None
  }

  function EncodeQuestion(q: Question): Json {
    JObj(ObjectOf([
      ("id", StrValue(q.id)),
      ("prompt", Some(JStr(q.prompt))),
      ("choices", ChoicesValue(q.choices)),
      ("correctAnswer", StrValue(q.correctAnswer)),
      ("domain", StrValue(q.domain)),
      ("difficulty", if q.difficulty.Some? then Some(NumberJson(q.difficulty.value)) else None)]))
  }

  function EncodeSummary(s: AttemptSummary): Json {
    JObj(ObjectOf([
      ("attempts", IntValue(s.attempts)),
      ("lastAnswer", StrValue(s.lastAnswer)),
      ("correct", if s.correct.Some? then Some(JBool(s.correct.value)) else None),
      ("streak", IntValue(s.streak))]))
  }

  function MessagesValue(messages: seq<Message>): Json {
    JArr(seq(|messages|, i requires 0 <= i < |messages| => EncodeMessage(messages[i])))
  }

  /** The request body a client sends for a payload. */
  function EncodePayload(p: Payload): Json {
    JObj(ObjectOf([
      ("messages", Some(MessagesValue(p.messages))),
      ("mode", Some(JStr(ModeName(p.mode)))),
      ("topic", StrValue(p.topic)),
      ("question", if p.question.Some? then Some(EncodeQuestion(p.question.value)) else None),
      ("attemptSummary", if p.attemptSummary.Some? then Some(EncodeSummary(p.attemptSummary.value)) else None)]))
  }

  /** The payloads the schema can produce. */
  predicate WellFormedPayload(p: Payload) {
    && |p.messages| >= 1
    && (forall i :: 0 <= i < |p.messages| ==> p.messages[i].content != "")
    && (p.topic.Some? ==> Utf16Length(p.topic.value) <= TopicMax)
    && (p.question.Some? ==> p.question.value.prompt != "")
    && (p.attemptSummary.Some? ==> 
         && (p.attemptSummary.value.attempts.Some? ==> p.attemptSummary.value.attempts.value >= 0)
         && (p.attemptSummary.value.streak.Some? ==> p.attemptSummary.value.streak.value >= 0))
  }

  lemma MessageRoundTrip(m: Message)
    requires m.content != ""
    ensures ValidMessage(EncodeMessage(m)) && MessageOf(EncodeMessage(m)) == m
  {
    var v := EncodeMessage(m);
    GetLast(v.fields, "role", 0);
    GetLast(v.fields, "content", 1);
    NamesRoundTrip(m.role, Hint);
  }

  lemma QuestionFields(q: Question)
    ensures var v := Some(EncodeQuestion(q));
      && Prop(v, "id") == StrValue(q.id)
      && Prop(v, "prompt") == Some(JStr(q.prompt))
      && Prop(v, "choices") == ChoicesValue(q.choices)
      && Prop(v, "correctAnswer") == StrValue(q.correctAnswer)
      && Prop(v, "domain") == StrValue(q.domain)
      && Prop(v, "difficulty") == (if q.difficulty.Some? then Some(NumberJson(q.difficulty.value)) else None)
  {
    var entries := [
      ("id", StrValue(q.id)),
      ("prompt", Some(JStr(q.prompt))),
      ("choices", ChoicesValue(q.choices)),
      ("correctAnswer", StrValue(q.correctAnswer)),
      ("domain", StrValue(q.domain)),
      ("difficulty", if q.difficulty.Some? then Some(NumberJson(q.difficulty.value)) else None)];
    assert EncodeQuestion(q).fields == ObjectOf(entries);
    assert DistinctKeys(entries);
    ObjectOfLookup(entries, 0);
    ObjectOfLookup(entries, 1);
    ObjectOfLookup(entries, 2);
    ObjectOfLookup(entries, 3);
    ObjectOfLookup(entries, 4);
    ObjectOfLookup(entries, 5);
  }

  lemma QuestionRoundTrip(q: Question)
    requires q.prompt != ""
    ensures ParseQuestion(Some(EncodeQuestion(q))) == Success(Some(q))
  {
    QuestionFields(q);
    var v := Some(EncodeQuestion(q));
    OptStringRoundTrip(q.id, ["question", "id"]);
    OptStringRoundTrip(q.correctAnswer, ["question", "correctAnswer"]);
    OptStringRoundTrip(q.domain, ["question", "domain"]);
    ChoicesRoundTrip(q.choices, ["question", "choices"]);
    assert ParseString(Prop(v, "prompt"), ["question", "prompt"], 1, None) == Success(q.prompt);
    assert ParseOptReal(Prop(v, "difficulty"), ["question", "difficulty"]) == Success(q.difficulty);
  }

  /** An optional string field reads back as written. */
  lemma OptStringRoundTrip(o: Option<string>, path: seq<string>)
    ensures ParseOptString(StrValue(o), path, 0, None) == Success(o)
  {
  }

  /** An optional list of choices reads back as written. */
  lemma ChoicesRoundTrip(choices: Option<seq<string>>, path: seq<string>)
    ensures ParseChoices(ChoicesValue(choices), path) == Success(choices)
  {
    if choices.Some? {
      assert StringsOf(ChoicesValue(choices).value.items) == choices.value;
    }
  }

  lemma SummaryFields(s: AttemptSummary)
    ensures var v := Some(EncodeSummary(s));
      && Prop(v, "attempts") == IntValue(s.attempts)
      && Prop(v, "lastAnswer") == StrValue(s.lastAnswer)
      && Prop(v, "correct") == (if s.correct.Some? then Some(JBool(s.correct.value)) else None)
      && Prop(v, "streak") == IntValue(s.streak)
  {
    var entries := [
      ("attempts", IntValue(s.attempts)),
      ("lastAnswer", StrValue(s.lastAnswer)),
      ("correct", if s.correct.Some? then Some(JBool(s.correct.value)) else None),
      ("streak", IntValue(s.streak))];
    assert EncodeSummary(s).fields == ObjectOf(entries);
    assert DistinctKeys(entries);
    ObjectOfLookup(entries, 0);
    ObjectOfLookup(entries, 1);
    ObjectOfLookup(entries, 2);
    ObjectOfLookup(entries, 3);
  }

  lemma CountRoundTrip(o: Option<int>, path: seq<string>)
    requires o.Some? ==> o.value >= 0
    ensures ParseOptCount(IntValue(o), path, 0) == Success(o)
  {
    if o.Some? {
      assert IsInteger(o.value as real);
      assert (o.value as real).Floor == o.value;
    }
  }

  lemma SummaryRoundTrip(s: AttemptSummary)
    requires s.attempts.Some? ==> s.attempts.value >= 0
    requires s.streak.Some? ==> s.streak.value >= 0
    ensures ParseSummary(Some(EncodeSummary(s))) == Success(Some(s))
  {
    SummaryFields(s);
    var v := Some(EncodeSummary(s));
    CountRoundTrip(s.attempts, ["attemptSummary", "attempts"]);
    CountRoundTrip(s.streak, ["attemptSummary", "streak"]);
    OptStringRoundTrip(s.lastAnswer, ["attemptSummary", "lastAnswer"]);
    assert ParseOptBool(Prop(v, "correct"), ["attemptSummary", "correct"]) == Success(s.correct);
  }

  lemma PayloadFields(p: Payload)
    ensures var v := Some(EncodePayload(p));
      && Prop(v, "messages") == Some(MessagesValue(p.messages))
      && Prop(v, "mode") == Some(JStr(ModeName(p.mode)))
      && Prop(v, "topic") == StrValue(p.topic)
      && Prop(v, "question") == (if p.question.Some? then Some(EncodeQuestion(p.question.value)) else None)
      && Prop(v, "attemptSummary") == (if p.attemptSummary.Some? then Some(EncodeSummary(p.attemptSummary.value)) else None)
  {
    var entries := [
      ("messages", Some(MessagesValue(p.messages))),
      ("mode", Some(JStr(ModeName(p.mode)))),
      ("topic", StrValue(p.topic)),
      ("question", if p.question.Some? then Some(EncodeQuestion(p.question.value)) else None),
      ("attemptSummary", if p.attemptSummary.Some? then Some(EncodeSummary(p.attemptSummary.value)) else None)];
    assert EncodePayload(p).fields == ObjectOf(entries);
    assert DistinctKeys(entries);
    ObjectOfLookup(entries, 0);
    ObjectOfLookup(entries, 1);
    ObjectOfLookup(entries, 2);
    ObjectOfLookup(entries, 3);
    ObjectOfLookup(entries, 4);
  }

  lemma MessagesRoundTrip(messages: seq<Message>)
    requires |messages| >= 1
    requires forall i :: 0 <= i < |messages| ==> messages[i].content != ""
    ensures ParseMessages(Some(MessagesValue(messages))) == Success(messages)
  {
    var items := MessagesValue(messages).items;
    forall i | 0 <= i < |items|
      ensures ValidMessage(items[i]) && MessageOf(items[i]) == messages[i]
    {
      MessageRoundTrip(messages[i]);
    }
    var r := ParseMessages(Some(MessagesValue(messages)));
    assert r.Success?;
    assert r.value == messages;
  }

  /** Parsing what a client sends for a payload the schema could have
      produced gives that payload back. */
  lemma ParseEncodeRoundTrip(p: Payload)
    requires WellFormedPayload(p)
    ensures ParseCoachRequest(EncodePayload(p)) == Success(p)
  {
    PayloadFields(p);
    var body := EncodePayload(p);
    MessagesRoundTrip(p.messages);
    NamesRoundTrip(User, p.mode);
    assert ParseMode(Prop(Some(body), "mode")) == Success(p.mode);
    assert ParseOptString(Prop(Some(body), "topic"), ["topic"], 0, Some(TopicMax)) == Success(p.topic);
    if p.question.Some? {
      QuestionRoundTrip(p.question.value);
    }
    assert ParseQuestion(Prop(Some(body), "question")) == Success(p.question);
    if p.attemptSummary.Some? {
      SummaryRoundTrip(p.attemptSummary.value);
    }
    assert ParseSummary(Prop(Some(body), "attemptSummary")) == Success(p.attemptSummary);
  }

  // ---------------------------------------------------------------------
  // Attempt posts

  const MaxTimeSpent: int := 600_000

  /** A validated attempt: the answer already converted to a string. */
  datatype AttemptPost = AttemptPost(questionId: string, answer: string, correct: bool, timeSpent: int)

  /** `AttemptPostSchema`. */
  predicate ValidAttemptPost(body: Json) {
    && body.JObj?
    && StringOk(Prop(Some(body), "questionId"), 1, None)
    && var answer := Prop(Some(body), "answer");
    && answer.Some? && (answer.value.JStr? || answer.value.JNum? || answer.value.JBool?)
    && Prop(Some(body), "correct").Some? && Prop(Some(body), "correct").value.JBool?
    && NumberOk(Prop(Some(body), "timeSpent"), true, Some(0.0), Some(MaxTimeSpent as real))
  }

  function ParseAttemptPost(body: Json): (r: Checked<AttemptPost>)
    ensures r.Success? <==> ValidAttemptPost(body)
    ensures r.Failure? ==> r.error != []
    ensures r.Success? ==>
      && r.value.questionId != ""
      && r.value.answer == JsString(Prop(Some(body), "answer").value)
      && 0 <= r.value.timeSpent <= MaxTimeSpent
      && r.value.timeSpent as real == Prop(Some(body), "timeSpent").value.value
  {
    if !body.JObj? then Failure([Issue([], InvalidType)])
    else
      var questionId := ParseString(Prop(Some(body), "questionId"), ["questionId"], 1, None);
      var answerValue := Prop(Some(body), "answer");
      var answer: Checked<string> :=
        if answerValue.Some? && (answerValue.value.JStr? || answerValue.value.JNum? || answerValue.value.JBool?)
        then Success(JsString(answerValue.value))
        else Failure([Issue(["answer"], InvalidUnion)]);
      var correct := ParseBool(Prop(Some(body), "correct"), ["correct"]);
      var timeSpent := ParseNumber(Prop(Some(body), "timeSpent"), ["timeSpent"], true, Some(0.0), Some(MaxTimeSpent as real));
      if questionId.Success? && answer.Success? && correct.Success? && timeSpent.Success? then
        Success(AttemptPost(questionId.value, answer.value, correct.value, timeSpent.value.Floor))
      else
        Failure(IssuesOf(questionId) + IssuesOf(answer) + IssuesOf(correct) + IssuesOf(timeSpent))
  }

  /** The attempt body a client sends. */
  function AttemptBody(qid: string, answer: Json, correct: bool, t: int): Json {
    JObj([("questionId", JStr(qid)), ("answer", answer), ("correct", JBool(correct)), ("timeSpent", JNum(t as real, IntToDecimal(t)))])
  }

  lemma AttemptFields(qid: string, answer: Json, correct: bool, t: int)
    ensures var v := Some(AttemptBody(qid, answer, correct, t));
      && Prop(v, "questionId") == Some(JStr(qid))
      && Prop(v, "answer") == Some(answer)
      && Prop(v, "correct") == Some(JBool(correct))
      && Prop(v, "timeSpent") == Some(JNum(t as real, IntToDecimal(t)))
  {
    var fields := AttemptBody(qid, answer, correct, t).fields;
    GetLast(fields, "questionId", 0);
    GetLast(fields, "answer", 1);
    GetLast(fields, "correct", 2);
    GetLast(fields, "timeSpent", 3);
  }

  /** A well-formed attempt body is accepted, its answer stored as
      `String(answer)` whatever its JSON type. */
  lemma AnswerText(qid: string, answer: Json, correct: bool, t: int)
    requires qid != "" && 0 <= t <= MaxTimeSpent
    requires answer.JStr? || answer.JNum? || answer.JBool?
    ensures ParseAttemptPost(AttemptBody(qid, answer, correct, t)) == Success(AttemptPost(qid, JsString(answer), correct, t))
  {
    AttemptFields(qid, answer, correct, t);
    assert (t as real).Floor == t;
  }

  // ---------------------------------------------------------------------
  // Query strings

  /** What `Number(value)` made of a query parameter, or `Absent` when the
      parameter was not given (defaults and `.optional()` apply before coercion). */
  datatype Coerced = Absent | NaN | PosInfinity | NegInfinity | Finite(x: real)

  /** `z.coerce.number()` with `.int()`, `.min()` and `.max()` checks. */
  function ParseCoerced(v: Coerced, path: seq<string>, integer: bool, min: real, max: real): (r: Checked<real>)
    requires !v.Absent?
    ensures r.Success? <==> v.Finite? && NumberFits(v.x, integer, Some(min), Some(max))
    ensures r.Success? ==> r.value == v.x && min <= r.value <= max
    ensures r.Failure? ==> r.error != []
  {
    match v
    case NaN => Failure([Issue(path, InvalidType)])
    case PosInfinity => Failure((if integer then [Issue(path, NotInteger)] else []) + [Issue(path, TooBig)])
    case NegInfinity => Failure((if integer then [Issue(path, NotInteger)] else []) + [Issue(path, TooSmall)])
    case Finite(x) =>
      var issues := NumberIssues(x, path, integer, Some(min), Some(max));
      if issues == [] then Success(x) else Failure(issues)
  }

  datatype QuestionsQuery = QuestionsQuery(count: int, domain: Option<string>, ability: Option<real>)

  /** `QuestionsQuerySchema`: `count` a whole number in 1..25 defaulting to
      10, `domain` a non-empty string if given, `ability` in [-3, 3] if given. */
  function ParseQuestionsQuery(count: Coerced, domain: Option<string>, ability: Coerced): (r: Checked<QuestionsQuery>)
    ensures r.Success? <==>
      && (count.Absent? || (count.Finite? && IsInteger(count.x) && 1.0 <= count.x <= 25.0))
      && (domain.None? || domain.value != "")
      && (ability.Absent? || (ability.Finite? && -3.0 <= ability.x <= 3.0))
    ensures r.Success? ==>
      && 1 <= r.value.count <= 25
      && (count.Absent? ==> r.value.count == 10)
      && (count.Finite? ==> r.value.count as real == count.x)
      && r.value.domain == domain
      && (r.value.ability.Some? <==> !ability.Absent?)
      && (r.value.ability.Some? ==> -3.0 <= r.value.ability.value <= 3.0 && r.value.ability.value == ability.x)
    ensures r.Failure? ==> r.error != []
  {
    var c: Checked<int> :=
      if count.Absent? then Success(10)
      else match ParseCoerced(count, ["count"], true, 1.0, 25.0)
        case Success(x) => Success(x.Floor)
        case Failure(e) => Failure(e);
    var d: Checked<Option<string>> :=
      if domain.None? then Success(None)
      else if domain.value == "" then Failure([Issue(["domain"], TooSmall)])
      else Success(domain);
    var a: Checked<Option<real>> :=
      if ability.Absent? then Success(None)
      else match ParseCoerced(ability, ["ability"], false, -3.0, 3.0)
        case Success(x) => Success(Some(x))
        case Failure(e) => Failure(e);
    if c.Success? && d.Success? && a.Success? then Success(QuestionsQuery(c.value, d.value, a.value))
    else Failure(IssuesOf(c) + IssuesOf(d) + IssuesOf(a))
  }

  /** `StatsQuerySchema`: `recent` a whole number in 1..50 defaulting to 10. */
  function ParseStatsQuery(recent: Coerced): (r: Checked<int>)
    ensures r.Success? <==> recent.Absent? || (recent.Finite? && IsInteger(recent.x) && 1.0 <= recent.x <= 50.0)
    ensures r.Success? ==> 1 <= r.value <= 50 && (recent.Absent? ==> r.value == 10)
    ensures r.Success? && recent.Finite? ==> r.value as real == recent.x
    ensures r.Failure? ==> r.error != []
  {
    if recent.Absent? then Success(10)
    else match ParseCoerced(recent, ["recent"], true, 1.0, 50.0)
      case Success(x) => Success(x.Floor)
      case Failure(e) => Failure(e)
  }
}
