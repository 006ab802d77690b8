/** The signed-in user as the route handlers receive it from the auth
    provider, and the helpers several handlers share. */
module Session {
  import opened Wrappers
  import opened Text
  import opened Json

  /** A user record: id, optional e-mail address and the free-form metadata object. */
  datatype User = User(id: string, email: Option<string>, metadata: JsValue)

  /** What `supabase.auth.getUser()` yields: an error, no session, or a user. */
  datatype AuthOutcome = AuthError | NoUser | SignedIn(user: User)

  /** What `createClient()` hands back: the client itself, or a promise of
      it when the factory is asynchronous. A promise has no `auth`
      property, so a handler that does not await it throws on
      `supabase.auth.getUser()`. */
  datatype ClientFactory = ReturnsClient | ReturnsPromise

  /** `user.email?.split("@")[0]`: the local part of the address, or
      `undefined` without an address. The local part is the longest prefix
      without "@": it stops at the first "@" or at the end of the address. */
  function EmailLocalPart(u: User): (r: Option<string>)
    ensures r.Some? <==> u.email.Some?
    ensures r.Some? ==> StartsWith(u.email.value, r.value) && '@' !in r.value
    ensures r.Some? && |r.value| < |u.email.value| ==> u.email.value[|r.value|] == '@'
    ensures r.Some? && '@' !in u.email.value ==> r.value == u.email.value
  {
    if u.email.Some? then Some(BeforeFirst(u.email.value, '@')) else None
  }

  /** The local part as a JavaScript value. */
  function EmailLocalValue(u: User): JsValue {
    if u.email.Some? then Some(JStr(BeforeFirst(u.email.value, '@'))) else None
  }

  /** `user.user_metadata?.[key]`. */
  function Meta(u: User, key: string): JsValue {
    Prop(u.metadata, key)
  }

  /** A display name chosen by `||` from the candidate, the metadata's
      `display_name`, the e-mail's local part and a fixed fallback. */
  function DisplayNameChain(candidate: JsValue, u: User, fallback: string): (r: Json)
    requires fallback != ""
    ensures Truthy(Some(r))
    ensures Truthy(candidate) ==> r == candidate.value
    ensures !Truthy(candidate) && Truthy(Meta(u, "display_name")) ==> r == Meta(u, "display_name").value
    ensures !Truthy(candidate) && !Truthy(Meta(u, "display_name")) && Truthy(EmailLocalValue(u)) ==>
      r == JStr(EmailLocalPart(u).value)
    ensures !Truthy(candidate) && !Truthy(Meta(u, "display_name")) && !Truthy(EmailLocalValue(u)) ==>
      r == JStr(fallback)
  {
    Or(candidate, Or(Meta(u, "display_name"), Or(EmailLocalValue(u), Some(JStr(fallback))))).value
  }
}
