/**
 * The `GET /users/me` and `PUT /users/me` routes: showing and editing the signed-in
 * account. Password hashing (`hash`) and token verification (`decode`) are parameters.
 */
module Profile {
  import opened Wrappers
  import opened Js
  import opened Users
  import opened Session

  const NotAuthenticated := "N\U{00E3}o autenticado"
  const UsernameInUse := "Username j\U{00E1} em uso"
  const UpdateFailed := "Erro ao atualizar"

  datatype UpdateResult = UpdateResult(response: Response<SafeUser>, store: Store)

  /** `GET /users/me`: 401 without a signed-in account, otherwise that account without its hash. */
  function Me(store: Store, cookie: Option<string>, decode: string -> Option<string>): (r: Response<SafeUser>)
    ensures CurrentUserIndex(store, cookie, decode).None? ==> r == Unauthorized(NotAuthenticated)
    ensures CurrentUserIndex(store, cookie, decode).Some? ==>
      r == Ok(Strip(store[CurrentUserIndex(store, cookie, decode).value]))
  {
    match CurrentUserIndex(store, cookie, decode)
    case None => Unauthorized(NotAuthenticated)
    case Some(i) => Ok(Strip(store[i]))
  }

  /** `GET /users/me` with the corrected, email-only session lookup. */
  function MeByEmail(store: Store, cookie: Option<string>, decode: string -> Option<string>): (r: Response<SafeUser>)
    ensures CurrentUserIndexByEmail(store, cookie, decode).None? ==> r == Unauthorized(NotAuthenticated)
    ensures CurrentUserIndexByEmail(store, cookie, decode).Some? ==>
      r == Ok(Strip(store[CurrentUserIndexByEmail(store, cookie, decode).value]))
  {
    match CurrentUserIndexByEmail(store, cookie, decode)
    case None => Unauthorized(NotAuthenticated)
    case Some(i) => Ok(Strip(store[i]))
  }

  /** A name field may be absent, null or a string (anything else fails the database update). */
  predicate NameValueOk(v: JsValue)
  {
    Nullish(v) || v.Str?
  }

  /** A nullable column may be absent, null or a string. */
  predicate NullableValueOk(v: JsValue)
  {
    v.Undefined? || v.Null? || v.Str?
  }

  /** Every field of the update has a type the database and the password hasher accept;
      a truthy non-string password makes the hasher throw. */
  predicate UpdateValuesOk(body: Body)
  {
    && NameValueOk(Field(body, "full_name")) && NameValueOk(Field(body, "username"))
    && NullableValueOk(Field(body, "image_url")) && NullableValueOk(Field(body, "description"))
    && (!Truthy(Field(body, "password")) || Field(body, "password").Str?)
  }

  /** The record `PUT /users/me` writes: `??` for the names, `=== undefined` for image and
      description (so an explicit null clears them), truthiness for the password. */
  function Merge(a: User, body: Body, hash: string -> string): (r: Option<User>)
    ensures r.Some? <==> UpdateValuesOk(body)
    ensures r.Some? ==> r.value.id == a.id && r.value.email == a.email
    ensures r.Some? ==> (Nullish(Field(body, "full_name")) ==> r.value.fullName == a.fullName)
    ensures r.Some? ==> (Field(body, "full_name").Str? ==> r.value.fullName == Field(body, "full_name").s)
    ensures r.Some? ==> (Nullish(Field(body, "username")) ==> r.value.username == a.username)
    ensures r.Some? ==> (Field(body, "username").Str? ==> r.value.username == Field(body, "username").s)
    ensures r.Some? ==> (Field(body, "image_url").Undefined? ==> r.value.imageUrl == a.imageUrl)
    ensures r.Some? ==> (Field(body, "image_url").Null? ==> r.value.imageUrl == None)
    ensures r.Some? ==> (Field(body, "image_url").Str? ==> r.value.imageUrl == Some(Field(body, "image_url").s))
    ensures r.Some? ==> (Field(body, "description").Undefined? ==> r.value.description == a.description)
    ensures r.Some? ==> (Field(body, "description").Null? ==> r.value.description == None)
    ensures r.Some? ==> (Field(body, "description").Str? ==> r.value.description == Some(Field(body, "description").s))
    ensures r.Some? ==> (!Truthy(Field(body, "password")) ==> r.value.passwordHash == a.passwordHash)
    ensures r.Some? ==> (Truthy(Field(body, "password")) ==> r.value.passwordHash == hash(Field(body, "password").s))
  {
    if !UpdateValuesOk(body) then None
    else
      var fullName, username := Field(body, "full_name"), Field(body, "username");
      var imageUrl, description := Field(body, "image_url"), Field(body, "description");
      var password := Field(body, "password");
      Some(a.(
        fullName := if Nullish(fullName) then a.fullName else fullName.s,
        username := if Nullish(username) then a.username else username.s,
        imageUrl := if imageUrl.Undefined? then a.imageUrl else if imageUrl.Null? then None else Some(imageUrl.s),
        description := if description.Undefined? then a.description
                       else if description.Null? then None else Some(description.s),
        passwordHash := if Truthy(password) then hash(password.s) else a.passwordHash))
  }

  /** Some account already has this username. */
  ghost predicate UsernameTaken(store: Store, username: string)
  {
    exists j :: 0 <= j < |store| && store[j].username == username
  }

  /** The username check before the update runs: a truthy username different from the
      current one is looked up. */
  predicate ChecksUsername(a: User, body: Body)
  {
    Truthy(Field(body, "username")) && Field(body, "username") != Str(a.username)
  }

  /** The conditions under which the update of row `i` is written: no 409 or failed username
      lookup, every value of an accepted type, and a merged username no other row holds. */
  ghost predicate UpdateSucceeds(store: Store, i: nat, body: Body, hash: string -> string)
    requires i < |store|
  {
    var a, username := store[i], Field(body, "username");
    && !(ChecksUsername(a, body) && (!username.Str? || UsernameTaken(store, username.s)))
    && Merge(a, body, hash).Some?
    && forall j :: 0 <= j < |store| && j != i ==> store[j].username != Merge(a, body, hash).value.username
  }

  /** The body of `PUT /users/me` once the session has resolved to row `session` (or to none).
      The username column is unique, so an update that would still duplicate a username
      (possible only through an empty username, which skips the check) is refused by the
      database as a 500. */
  function UpdateAt(store: Store, session: Option<nat>, body: Body, hash: string -> string): (r: UpdateResult)
    requires session.Some? ==> session.value < |store|
    ensures session.None? ==> r == UpdateResult(Unauthorized(NotAuthenticated), store)
    ensures !r.response.Ok? ==> r.store == store
    ensures r.response.Conflict? ==> r.response == Conflict(UsernameInUse)
    ensures session.Some? && !r.response.Ok? && !r.response.Conflict? ==> r.response == InternalError(UpdateFailed)
    ensures r.response.Conflict? <==>
      session.Some? && ChecksUsername(store[session.value], body) && Field(body, "username").Str?
      && UsernameTaken(store, Field(body, "username").s)
    ensures r.response.Ok? <==> session.Some? && UpdateSucceeds(store, session.value, body, hash)
    ensures r.response.Ok? ==>
      && |r.store| == |store|
      && Merge(store[session.value], body, hash) == Some(r.store[session.value])
      && (forall j :: 0 <= j < |store| && j != session.value ==> r.store[j] == store[j])
      && r.response.body == Strip(r.store[session.value])
  {
    match session
    case None => UpdateResult(Unauthorized(NotAuthenticated), store)
    case Some(i) =>
      var a, username := store[i], Field(body, "username");
      if ChecksUsername(a, body) && !username.Str? then
        UpdateResult(InternalError(UpdateFailed), store)
      else if ChecksUsername(a, body) && FirstWhere(store, (u: User) => u.username == username.s).Some? then
        UpdateResult(Conflict(UsernameInUse), store)
      else
        match Merge(a, body, hash)
        case None => UpdateResult(InternalError(UpdateFailed), store)
        case Some(u) =>
          if exists j :: 0 <= j < |store| && j != i && store[j].username == u.username then
            UpdateResult(InternalError(UpdateFailed), store)
          else
            UpdateResult(Ok(Strip(u)), store[i := u])
  }

  /** `PUT /users/me`: resolves the session with `getCurrentUser`, then edits that row. */
  function UpdateMe(store: Store, cookie: Option<string>, body: Body, decode: string -> Option<string>,
                    hash: string -> string): (r: UpdateResult)
    ensures CurrentUserIndex(store, cookie, decode).None? ==>
      r == UpdateResult(Unauthorized(NotAuthenticated), store)
    ensures !r.response.Ok? ==> r.store == store
    ensures r.response.Conflict? ==> r.response == Conflict(UsernameInUse)
    ensures CurrentUserIndex(store, cookie, decode).Some? && !r.response.Ok? && !r.response.Conflict? ==>
      r.response == InternalError(UpdateFailed)
    ensures var i := CurrentUserIndex(store, cookie, decode);
      r.response.Conflict? <==>
        i.Some? && ChecksUsername(store[i.value], body) && Field(body, "username").Str?
        && UsernameTaken(store, Field(body, "username").s)
    ensures var i := CurrentUserIndex(store, cookie, decode);
      r.response.Ok? <==> i.Some? && UpdateSucceeds(store, i.value, body, hash)
    ensures var i := CurrentUserIndex(store, cookie, decode);
      r.response.Ok? ==>
        && |r.store| == |store|
        && Merge(store[i.value], body, hash) == Some(r.store[i.value])
        && (forall j :: 0 <= j < |store| && j != i.value ==> r.store[j] == store[j])
        && r.response.body == Strip(r.store[i.value])
  {
    UpdateAt(store, CurrentUserIndex(store, cookie, decode), body, hash)
  }

  /** `PUT /users/me` with the corrected, email-only session lookup. */
  function UpdateMeByEmail(store: Store, cookie: Option<string>, body: Body, decode: string -> Option<string>,
                           hash: string -> string): (r: UpdateResult)
    ensures CurrentUserIndexByEmail(store, cookie, decode).None? ==>
      r == UpdateResult(Unauthorized(NotAuthenticated), store)
    ensures !r.response.Ok? ==> r.store == store
    ensures r.response.Conflict? ==> r.response == Conflict(UsernameInUse)
    ensures CurrentUserIndexByEmail(store, cookie, decode).Some? && !r.response.Ok? && !r.response.Conflict? ==>
      r.response == InternalError(UpdateFailed)
    ensures var i := CurrentUserIndexByEmail(store, cookie, decode);
      r.response.Conflict? <==>
        i.Some? && ChecksUsername(store[i.value], body) && Field(body, "username").Str?
        && UsernameTaken(store, Field(body, "username").s)
    ensures var i := CurrentUserIndexByEmail(store, cookie, decode);
      r.response.Ok? <==> i.Some? && UpdateSucceeds(store, i.value, body, hash)
    ensures var i := CurrentUserIndexByEmail(store, cookie, decode);
      r.response.Ok? ==>
        && |r.store| == |store|
        && Merge(store[i.value], body, hash) == Some(r.store[i.value])
        && (forall j :: 0 <= j < |store| && j != i.value ==> r.store[j] == store[j])
        && r.response.body == Strip(r.store[i.value])
  {
    UpdateAt(store, CurrentUserIndexByEmail(store, cookie, decode), body, hash)
  }

  /** A successful update keeps ids, emails and usernames unique. */
  lemma UpdateMePreservesInvariant(store: Store, cookie: Option<string>, body: Body,
                                   decode: string -> Option<string>, hash: string -> string)
    requires Invariant(store)
    ensures Invariant(UpdateMe(store, cookie, body, decode, hash).store)
  {
  }

  /** Only a truthy password changes the stored hash, and neither the id nor any other
      account changes. */
  lemma PasswordChangesOnlyWhenTruthy(store: Store, cookie: Option<string>, body: Body,
                                      decode: string -> Option<string>, hash: string -> string)
    requires UpdateMe(store, cookie, body, decode, hash).response.Ok?
    ensures var i := CurrentUserIndex(store, cookie, decode).value;
      var r := UpdateMe(store, cookie, body, decode, hash);
      && r.store[i].id == store[i].id
      && (r.store[i].passwordHash != store[i].passwordHash ==> Truthy(Field(body, "password")))
  {
  }
}
