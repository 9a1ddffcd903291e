/**
 * Identity resolution: which owner a request acts for. An authenticated session's email
 * wins over a guest cookie; with neither, resolution fails. Both signals are only read.
 */
module Identity {
  import opened Common

  /** The name of the guest cookie. */
  const GUEST_COOKIE := "guest_session_id"

  const NO_IDENTITY_ERROR := "No identity found. Ensure middleware sets guest_session_id cookie."

  /** The request's cookies, by name. */
  type CookieJar = map<string, string>

  /** The session as far as identity goes: `session?.user?.email` (None for no session, no user or no email). */
  type Session = Option<string>

  /** `"user" | "guest"`. */
  datatype OwnerType = User | Guest

  /** `OwnerIdentity`: the owner id every owned record is filtered by, and its kind. */
  datatype OwnerIdentity = OwnerIdentity(ownerId: string, kind: OwnerType)

  /** `cookieStore.get(name)?.value`. */
  function CookieValue(jar: CookieJar, name: string): (v: Option<string>)
    ensures v.Some? <==> name in jar
    ensures v.Some? ==> v.value == jar[name]
  {
    if name in jar then Some(jar[name]) else None
  }

  /** `getGuestSessionId()`: the raw guest cookie value, empty or not, independent of any session. */
  function GetGuestSessionId(jar: CookieJar): (v: Option<string>)
    ensures v.Some? <==> GUEST_COOKIE in jar
    ensures v.Some? ==> v.value == jar[GUEST_COOKIE]
  {
    CookieValue(jar, GUEST_COOKIE)
  }

  /** A JavaScript string is truthy when it is present and not empty. */
  predicate Truthy(s: Option<string>)
  {
    s.Some? && s.value != ""
  }

  /** `getCurrentOwner()`: the resolved owner, or the error it throws. */
  function GetCurrentOwner(session: Session, jar: CookieJar): (r: Result<OwnerIdentity, string>)
    ensures Truthy(session) ==> r == Ok(OwnerIdentity(session.value, User))
    ensures !Truthy(session) && Truthy(GetGuestSessionId(jar)) ==> r == Ok(OwnerIdentity(jar[GUEST_COOKIE], Guest))
    ensures r.Err? <==> !Truthy(session) && !Truthy(GetGuestSessionId(jar))
    ensures r.Err? ==> r.error == NO_IDENTITY_ERROR
  {
    if Truthy(session) then Ok(OwnerIdentity(session.value, User))
    else
      var guestId := GetGuestSessionId(jar);
      if Truthy(guestId) then Ok(OwnerIdentity(guestId.value, Guest))
      else Err(NO_IDENTITY_ERROR)
  }

  /** An authenticated email decides the owner whatever the cookies say. */
  lemma UserBeatsGuest(email: string, jar1: CookieJar, jar2: CookieJar)
    requires email != ""
    ensures GetCurrentOwner(Some(email), jar1) == GetCurrentOwner(Some(email), jar2)
    ensures GetCurrentOwner(Some(email), jar1).value.kind == User
  {
  }

  /** A resolved owner id is never empty, and a guest owner is exactly the guest cookie. */
  lemma ResolvedOwnerNonEmpty(session: Session, jar: CookieJar)
    ensures var r := GetCurrentOwner(session, jar);
      r.Ok? ==> r.value.ownerId != ""
    ensures var r := GetCurrentOwner(session, jar);
      r.Ok? && r.value.kind == Guest ==> GetGuestSessionId(jar) == Some(r.value.ownerId)
  {
  }
}
