/** The profile normalisation of apps/web/src/app/api/profile/sync/route.ts:
    how the display name, target exam, parent e-mail, role and settings are
    chosen from the request body and the user's metadata. The request body,
    the user and whether a profile already exists are inputs. */
module ProfileSync {
  import opened Wrappers
  import opened Text
  import opened Json
  import opened Session

  const AllowedExams: seq<string> := ["SAT", "PERT", "BEST"]

  /** The profile fields the handler writes. */
  datatype ProfileFields = ProfileFields(
    displayName: Json,
    targetExam: string,
    parentEmail: Json,
    settings: seq<(string, Json)>)

  /** The profile upsert: the update of an existing profile, or a created
      one, which also gets a username. */
  datatype ProfileWrite =
    | UpdateProfile(userId: string, fields: ProfileFields)
    | CreateProfile(userId: string, fields: ProfileFields, username: Option<string>)

  datatype Reply = Unauthorized | ServerError | Synced(fields: ProfileFields)

  function Status(r: Reply): int {
    match r
    case Unauthorized => 401
    case ServerError => 500
    case Synced(_) => 200
  }

  datatype Outcome = Outcome(reply: Reply, userEmail: Option<string>, profile: Option<ProfileWrite>)

  /** The target exam: an exam name in any letter case is upper-cased;
      anything else, strings or not, becomes SAT. */
  function NormalizeExam(input: Json): (exam: string)
    ensures exam in AllowedExams
    ensures input.JStr? && ToUpper(input.s) in AllowedExams ==> exam == ToUpper(input.s)
    ensures !(input.JStr? && ToUpper(input.s) in AllowedExams) ==> exam == "SAT"
  {
    if input.JStr? && ToUpper(input.s) in AllowedExams then ToUpper(input.s) else "SAT"
  }

  /** `s` spells `exam` up to letter case: each character is the exam's
      letter or its lower-case form. */
  predicate SameIgnoringCase(s: string, exam: string) {
    && |s| == |exam|
    && forall i :: 0 <= i < |s| ==>
         s[i] == exam[i] || ('a' <= s[i] <= 'z' && s[i] as int - 32 == exam[i] as int)
  }

  predicate Ascii(s: string) {
    forall i :: 0 <= i < |s| ==> s[i] as int < 128
  }

  /** For an ASCII string the exam is named up to letter case: the string
      normalises to an exam exactly when it spells that exam in any mix of
      cases, and to SAT also when it spells none of them. */
  lemma ExamCaseInsensitive(s: string, exam: string)
    requires Ascii(s)
    requires exam in AllowedExams
    ensures NormalizeExam(JStr(s)) == exam <==>
      || SameIgnoringCase(s, exam)
      || (exam == "SAT" && forall e :: e in AllowedExams ==> !SameIgnoringCase(s, e))
  {
    UpperAscii(s);
    forall e | e in AllowedExams
      ensures ToUpper(s) == e <==> SameIgnoringCase(s, e)
    {
      UpperCaseSpelling(s, e);
    }
  }

  /** Upper-casing an ASCII string gives an exam name exactly when the
      string spells it up to letter case. */
  lemma UpperCaseSpelling(s: string, exam: string)
    requires Ascii(s)
    requires exam in AllowedExams
    ensures ToUpper(s) == exam <==> SameIgnoringCase(s, exam)
  {
    UpperAscii(s);
    assert forall i :: 0 <= i < |exam| ==> 'A' <= exam[i] <= 'Z';
    if SameIgnoringCase(s, exam) {
      var u := ToUpper(s);
      forall i | 0 <= i < |s|
        ensures u[i] == exam[i]
      {
      }
      assert u == exam;
    }
  }

  /** Upper-casing an ASCII string maps each character on its own: lower-case
      letters to their capitals, everything else to itself. */
  lemma {:induction false} UpperAscii(s: string)
    requires Ascii(s)
    ensures |ToUpper(s)| == |s|
    ensures forall i :: 0 <= i < |s| ==>
      ToUpper(s)[i] == if 'a' <= s[i] <= 'z' then (s[i] as int - 32) as char else s[i]
  {
    if s != [] {
      UpperAscii(s[1..]);
      assert ToUpper(s) == UpperChar(s[0]) + ToUpper(s[1..]);
    }
  }

  /** The members `{...v}` contributes: an object's members, an array's
      elements or a string's characters under their decimal indices, and
      nothing for other values. */
  function SpreadMembers(v: Json): seq<(string, Json)> {
    match v
    case JObj(fields) => fields
    case JArr(items) => seq(|items|, i requires 0 <= i < |items| => (NatToDecimal(i), items[i]))
    case JStr(s) => seq(|s|, i requires 0 <= i < |s| => (NatToDecimal(i), JStr([s[i]])))
    case _ => []
  }

  /** `{...(payload.settings ?? {}), ...(metadata.settings ?? {}), role}`. */
  function MergeSettings(payloadSettings: JsValue, metaSettings: JsValue, role: Json): (merged: seq<(string, Json)>)
    ensures Get(merged, "role") == Some(role)
  {
    SpreadMembers(Coalesce(payloadSettings, Some(JObj([]))).value)
      + SpreadMembers(Coalesce(metaSettings, Some(JObj([]))).value)
      + [("role", role)]
  }

  /** Reading a merged setting: `role` is always the computed role; any other
      key comes from the metadata settings when they have it, otherwise from
      the body's settings. */
  lemma SettingsLookup(payloadSettings: JsValue, metaSettings: JsValue, role: Json, key: string)
    requires key != "role"
    ensures var p := SpreadMembers(Coalesce(payloadSettings, Some(JObj([]))).value);
            var m := SpreadMembers(Coalesce(metaSettings, Some(JObj([]))).value);
            Get(MergeSettings(payloadSettings, metaSettings, role), key)
              == if Get(m, key).Some? then Get(m, key) else Get(p, key)
  {
    var p := SpreadMembers(Coalesce(payloadSettings, Some(JObj([]))).value);
    var m := SpreadMembers(Coalesce(metaSettings, Some(JObj([]))).value);
    GetAppend(p + m, [("role", role)], key);
    GetAppend(p, m, key);
  }

  /** The role stored in the settings: the body's, else the metadata's, else "student". */
  function Role(payload: Json, u: User): (role: Json)
    ensures Truthy(Some(role))
    ensures Truthy(Prop(Some(payload), "role")) ==> role == Prop(Some(payload), "role").value
    ensures !Truthy(Prop(Some(payload), "role")) && Truthy(Meta(u, "role")) ==> role == Meta(u, "role").value
    ensures !Truthy(Prop(Some(payload), "role")) && !Truthy(Meta(u, "role")) ==> role == JStr("student")
  {
    Or(Prop(Some(payload), "role"), Or(Meta(u, "role"), Some(JStr("student")))).value
  }

  /** The fields computed from the body and the user. */
  function Normalize(payload: Json, u: User): (f: ProfileFields)
    ensures Truthy(Some(f.displayName))
    ensures f.displayName == DisplayNameChain(Prop(Some(payload), "displayName"), u, "Learner")
    ensures f.targetExam in AllowedExams
    ensures Truthy(Prop(Some(payload), "targetExam")) ==>
      f.targetExam == NormalizeExam(Prop(Some(payload), "targetExam").value)
    ensures !Truthy(Prop(Some(payload), "targetExam")) && Truthy(Meta(u, "target_exam")) ==>
      f.targetExam == NormalizeExam(Meta(u, "target_exam").value)
    ensures !Truthy(Prop(Some(payload), "targetExam")) && !Truthy(Meta(u, "target_exam")) ==>
      f.targetExam == "SAT"
    ensures f.settings == MergeSettings(Prop(Some(payload), "settings"), Meta(u, "settings"), Role(payload, u))
    ensures !Nullish(Prop(Some(payload), "parentEmail")) ==> f.parentEmail == Prop(Some(payload), "parentEmail").value
    ensures Nullish(Prop(Some(payload), "parentEmail")) && !Nullish(Meta(u, "parent_email")) ==> f.parentEmail == Meta(u, "parent_email").value
    ensures Nullish(Prop(Some(payload), "parentEmail")) && Nullish(Meta(u, "parent_email")) ==> f.parentEmail == JNull
  {
    UpperAscii("SAT");
    assert ToUpper("SAT") == "SAT";
    var displayName := DisplayNameChain(Prop(Some(payload), "displayName"), u, "Learner");
    var examInput := Or(Prop(Some(payload), "targetExam"), Or(Meta(u, "target_exam"), Some(JStr("SAT")))).value;
    var parentEmail := Coalesce(Prop(Some(payload), "parentEmail"), Coalesce(Meta(u, "parent_email"), Some(JNull))).value;
    ProfileFields(displayName, NormalizeExam(examInput), parentEmail,
                  MergeSettings(Prop(Some(payload), "settings"), Meta(u, "settings"), Role(payload, u)))
  }

  /** The settings always carry the computed role, which falls back to "student". */
  lemma SettingsCarryRole(payload: Json, u: User)
    ensures Get(Normalize(payload, u).settings, "role") == Some(Role(payload, u))
    ensures Truthy(Prop(Some(payload), "role")) ==> Role(payload, u) == Prop(Some(payload), "role").value
    ensures !Truthy(Prop(Some(payload), "role")) && Truthy(Meta(u, "role")) ==> Role(payload, u) == Meta(u, "role").value
    ensures !Truthy(Prop(Some(payload), "role")) && !Truthy(Meta(u, "role")) ==> Role(payload, u) == JStr("student")
  {
  }

  /** POST. `body` is `None` when the request body is not valid JSON, which
      the handler replaces by an empty object. */
  function SyncProfile(auth: AuthOutcome, body: Option<Json>, profileExists: bool): (o: Outcome)
    ensures Status(o.reply) == 401 <==> !auth.SignedIn?
    ensures o.profile.Some? <==> o.reply.Synced?
    ensures o.userEmail.Some? <==> o.reply.Synced?
    ensures auth.SignedIn? && body == Some(JNull) ==> o.reply == ServerError
    ensures auth.SignedIn? && body != Some(JNull) ==> o.reply.Synced?
    ensures o.reply.Synced? ==>
      && auth.SignedIn?
      && o.reply.fields == Normalize(body.GetOr(JObj([])), auth.user)
      && o.userEmail == Some(auth.user.email.GetOr(""))
      && (profileExists ==> o.profile.value == UpdateProfile(auth.user.id, o.reply.fields))
      && (!profileExists ==> o.profile.value == CreateProfile(auth.user.id, o.reply.fields, EmailLocalPart(auth.user)))
  {
    if !auth.SignedIn? then Outcome(Unauthorized, None, None)
    // Reading a property of `null` throws, which the handler reports as a failure.
    else if body == Some(JNull) then Outcome(ServerError, None, None)
    else
      var u := auth.user;
      var fields := Normalize(body.GetOr(JObj([])), u);
      var write := if profileExists then UpdateProfile(u.id, fields) else CreateProfile(u.id, fields, EmailLocalPart(u));
      Outcome(Synced(fields), Some(u.email.GetOr("")), Some(write))
  }
}
