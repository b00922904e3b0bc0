/**
 * Resolving the signed-in account from the `access_token` cookie (`getCurrentUser`).
 * Token verification is the parameter `decode`: it yields the token's subject, or None
 * when the token does not verify.
 */
module Session {
  import opened Wrappers
  import opened Users

  /** `token ? decodeToken(token) : null`, followed by the `!sub` test: the subject of a
      non-empty cookie whose token verifies and carries a non-empty subject. */
  function Subject(cookie: Option<string>, decode: string -> Option<string>): (r: Option<string>)
    ensures r.Some? <==> cookie.Some? && cookie.value != "" && decode(cookie.value).Some? && decode(cookie.value).value != ""
    ensures r.Some? ==> r == decode(cookie.value)
  {
    if cookie.None? || cookie.value == "" then None
    else match decode(cookie.value)
      case None => None
      case Some(sub) => if sub == "" then None else Some(sub)
  }

  /** `getCurrentUser`: the first account whose email OR username equals the token's subject. */
  function CurrentUserIndex(store: Store, cookie: Option<string>, decode: string -> Option<string>): (r: Option<nat>)
    ensures Subject(cookie, decode).None? ==> r.None?
    ensures r.Some? ==> Subject(cookie, decode).Some? && FirstIdentified(store, Subject(cookie, decode).value, r.value)
    ensures Subject(cookie, decode).Some? && r.None? ==>
      forall j :: 0 <= j < |store| ==> !Identifies(store[j], Subject(cookie, decode).value)
  {
    match Subject(cookie, decode)
    case None => None
    case Some(sub) => FirstWhere(store, u => Identifies(u, sub))
  }

  /** Corrected session lookup. Tokens are issued for an account's email, so the subject is
      looked up among emails only. */
  function CurrentUserIndexByEmail(store: Store, cookie: Option<string>, decode: string -> Option<string>): (r: Option<nat>)
    ensures Subject(cookie, decode).None? ==> r.None?
    ensures r.Some? ==> Subject(cookie, decode).Some? && FirstWithEmail(store, Subject(cookie, decode).value, r.value)
    ensures Subject(cookie, decode).Some? && r.None? ==>
      forall j :: 0 <= j < |store| ==> store[j].email != Subject(cookie, decode).value
  {
    match Subject(cookie, decode)
    case None => None
    case Some(sub) => FirstWhere(store, (u: User) => u.email == sub)
  }

  /** With unique emails the session's account is the one holding the subject as its email. */
  lemma CurrentUserByEmail(store: Store, cookie: Option<string>, decode: string -> Option<string>, i: nat)
    requires UniqueEmails(store)
    requires i < |store| && Subject(cookie, decode) == Some(store[i].email)
    ensures CurrentUserIndexByEmail(store, cookie, decode) == Some(i)
  {
  }
}
