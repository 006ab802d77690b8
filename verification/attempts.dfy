/** The attempt-recording handler of apps/web/src/app/api/attempts/route.ts:
    the required-field check, the stored attempt and the XP award. The
    request body, the stored profile and the new attempt's id are inputs. */
module Attempts {
  import opened Wrappers
  import opened Json
  import opened Session

  /** The attempt row written to the store. */
  datatype AttemptRow = AttemptRow(userId: string, questionId: Json, answer: string, correct: Json, timeSpent: Json)

  /** The profile write: an increment of an existing profile, or a new one. */
  datatype ProfileWrite =
    | IncrementXp(userId: string, amount: int)
    | CreateProfile(userId: string, displayName: Json, xp: int)

  datatype Reply =
    | Unauthorized
    | MissingFields
    | ServerError
    | Recorded(attemptId: string, correct: Json, xpGained: int)

  function Status(r: Reply): int {
    match r
    case Unauthorized => 401
    case MissingFields => 400
    case ServerError => 500
    case Recorded(_, _, _) => 200
  }

  /** The outcome of a POST: the reply, the attempt written, the profile
      write and the profile's XP afterwards. */
  datatype Outcome = Outcome(reply: Reply, attempt: Option<AttemptRow>, profile: Option<ProfileWrite>, xpAfter: Option<int>)

  /** `correct ? 10 : 2`. */
  function XpFor(correct: JsValue): (xp: int)
    ensures xp == 10 || xp == 2
    ensures xp == 10 <==> Truthy(correct)
  {
    if Truthy(correct) then 10 else 2
  }

  /** The request names a question and carries an answer, a correctness flag and a time. */
  predicate HasRequiredFields(body: Json) {
    && Truthy(Prop(Some(body), "questionId"))
    && Prop(Some(body), "answer").Some?
    && Prop(Some(body), "correct").Some?
    && Prop(Some(body), "timeSpent").Some?
  }

  /** POST. `body` is `None` when the request body is not valid JSON;
      `storedXp` is the XP of the user's profile if one exists. A new
      profile is named by the metadata's `display_name`, else the e-mail's
      local part, else "Student". */
  function PostAttempt(auth: AuthOutcome, body: Option<Json>, storedXp: Option<int>, newId: string): (o: Outcome)
    ensures Status(o.reply) == 401 <==> !auth.SignedIn?
    ensures o.attempt.Some? <==> o.reply.Recorded?
    ensures o.profile.Some? <==> o.reply.Recorded?
    ensures auth.SignedIn? && (body.None? || body.value.JNull?) ==> o.reply == ServerError
    ensures auth.SignedIn? && body.Some? && !body.value.JNull? ==> (o.reply == MissingFields <==> !HasRequiredFields(body.value))
    ensures o.reply.Recorded? ==>
      && auth.SignedIn? && body.Some? && HasRequiredFields(body.value)
      && var b := body.value;
      && o.attempt.value == AttemptRow(auth.user.id, Prop(Some(b), "questionId").value,
                                        JsString(Prop(Some(b), "answer").value),
                                        Prop(Some(b), "correct").value, Prop(Some(b), "timeSpent").value)
      && o.reply.correct == Prop(Some(b), "correct").value
      && o.reply.xpGained == XpFor(Prop(Some(b), "correct"))
      && o.reply.attemptId == newId
      && (storedXp.Some? ==>
            o.xpAfter == Some(storedXp.value + o.reply.xpGained)
            && o.profile.value == IncrementXp(auth.user.id, o.reply.xpGained))
      && (storedXp.None? ==>
            o.xpAfter == Some(o.reply.xpGained)
            && o.profile.value == CreateProfile(auth.user.id, DisplayNameChain(None, auth.user, "Student"), o.reply.xpGained))
  {
    if !auth.SignedIn? then Outcome(Unauthorized, None, None, None)
    // `await request.json()` rejects, or destructuring `null` throws: both reach the catch.
    else if body.None? || body.value.JNull? then Outcome(ServerError, None, None, None)
    else
      var b := body.value;
      if !HasRequiredFields(b) then Outcome(MissingFields, None, None, None)
      else
        var row := AttemptRow(auth.user.id, Prop(Some(b), "questionId").value, JsString(Prop(Some(b), "answer").value),
                              Prop(Some(b), "correct").value, Prop(Some(b), "timeSpent").value);
        var xp := XpFor(Prop(Some(b), "correct"));
        var write :=
          if storedXp.Some? then IncrementXp(auth.user.id, xp)
          else CreateProfile(auth.user.id, DisplayNameChain(None, auth.user, "Student"), xp);
        var after := if storedXp.Some? then storedXp.value + xp else xp;
        Outcome(Recorded(newId, row.correct, xp), Some(row), Some(write), Some(after))
  }

  /** XP only grows: a recorded attempt adds 10 for a correct answer and 2 otherwise. */
  lemma XpGrows(user: User, body: Json, storedXp: int, newId: string)
    requires HasRequiredFields(body)
    ensures var o := PostAttempt(SignedIn(user), Some(body), Some(storedXp), newId);
      && o.xpAfter.Some?
      && o.xpAfter.value - storedXp == (if Truthy(Prop(Some(body), "correct")) then 10 else 2)
  {
    assert !body.JNull?;
  }

  /** The handler as written: `createClient()` is called without `await`.
      When the factory returns a promise, reading `auth` off it throws and
      the catch answers 500, writing nothing; when it returns the client,
      the handler behaves as `PostAttempt`, which models the awaited call. */
  function PostAttemptUnawaited(factory: ClientFactory, auth: AuthOutcome, body: Option<Json>, storedXp: Option<int>, newId: string): (o: Outcome)
    ensures factory.ReturnsPromise? ==> Status(o.reply) == 500 && o.attempt.None? && o.profile.None? && o.xpAfter.None?
    ensures factory.ReturnsClient? ==> o == PostAttempt(auth, body, storedXp, newId)
  {
    if factory.ReturnsPromise? then Outcome(ServerError, None, None, None)
    else PostAttempt(auth, body, storedXp, newId)
  }

  /** With an asynchronous factory the unawaited handler refuses a signed-in
      user's well-formed attempt, which the awaited handler records, and it
      answers 500 instead of 401 to a request without a session. */
  lemma UnawaitedClientLosesAttempts(user: User, body: Json, storedXp: Option<int>, newId: string, auth: AuthOutcome)
    requires HasRequiredFields(body) && !auth.SignedIn?
    ensures PostAttempt(SignedIn(user), Some(body), storedXp, newId).reply.Recorded?
    ensures PostAttemptUnawaited(ReturnsPromise, SignedIn(user), Some(body), storedXp, newId).reply == ServerError
    ensures Status(PostAttempt(auth, Some(body), storedXp, newId).reply) == 401
    ensures Status(PostAttemptUnawaited(ReturnsPromise, auth, Some(body), storedXp, newId).reply) == 500
  {
    assert !body.JNull?;
  }
}
