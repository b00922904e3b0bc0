/**
 * The `POST /auth/register` and `POST /auth/login` routes over the user table.
 * Password hashing (`hash`), password checking (`verify`) and token signing (`sign`)
 * are parameters. A body value of the wrong JSON type that reaches the database query or
 * the password library makes that call throw, which the route reports as a 500.
 */
module AuthRoutes {
  import opened Wrappers
  import opened Js
  import opened Users

  const MissingFields := "Campos obrigat\U{00F3}rios ausentes"
  const AlreadyExists := "Email ou username j\U{00E1} existe"
  const MissingCredentials := "Credenciais ausentes"
  const InvalidCredentials := "Credenciais inv\U{00E1}lidas"
  const InternalFailure := "Erro interno"

  /** The response, the table afterwards and the token put in the `access_token` cookie. */
  datatype RegisterResult = RegisterResult(response: Response<SafeUser>, store: Store, token: Option<string>)

  datatype LoginResult = LoginResult(response: Response<SafeUser>, token: Option<string>)

  /** Some account already uses this email or this username. */
  ghost predicate Taken(store: Store, email: string, username: string)
  {
    exists j :: 0 <= j < |store| && (store[j].email == email || store[j].username == username)
  }

  /** All four registration fields are present and truthy. */
  predicate RegisterFieldsPresent(body: Body)
  {
    && Truthy(Field(body, "full_name")) && Truthy(Field(body, "username"))
    && Truthy(Field(body, "email")) && Truthy(Field(body, "password"))
  }

  /** `POST /auth/register` */
  function Register(store: Store, body: Body, hash: string -> string, sign: string -> string): (r: RegisterResult)
    ensures !RegisterFieldsPresent(body) ==> r == RegisterResult(BadRequest(MissingFields), store, None)
    ensures !r.response.Ok? ==> r.store == store && r.token == None
    ensures RegisterFieldsPresent(body) && !r.response.Ok? && !r.response.Conflict? ==>
      r.response == InternalError(InternalFailure)
    ensures r.response.Conflict? ==> r.response == Conflict(AlreadyExists)
    ensures r.response.Conflict? <==>
      && RegisterFieldsPresent(body) && Field(body, "email").Str? && Field(body, "username").Str?
      && Taken(store, Field(body, "email").s, Field(body, "username").s)
    ensures r.response.Ok? <==>
      && RegisterFieldsPresent(body)
      && Field(body, "full_name").Str? && Field(body, "username").Str?
      && Field(body, "email").Str? && Field(body, "password").Str?
      && !Taken(store, Field(body, "email").s, Field(body, "username").s)
    ensures r.response.Ok? ==>
      && |r.store| == |store| + 1 && r.store[..|store|] == store
      && var u := r.store[|store|];
      && u.fullName == Field(body, "full_name").s && u.username == Field(body, "username").s
      && u.email == Field(body, "email").s && u.passwordHash == hash(Field(body, "password").s)
      && u.imageUrl == None && u.description == None
      && (forall j :: 0 <= j < |store| ==> store[j].id != u.id)
      && r.response.body == Strip(u)
      && r.token == Some(sign(u.email))
  {
    var fullName, username, email, password :=
      Field(body, "full_name"), Field(body, "username"), Field(body, "email"), Field(body, "password");
    if !RegisterFieldsPresent(body) then
      RegisterResult(BadRequest(MissingFields), store, None)
    else if !email.Str? || !username.Str? then
      RegisterResult(InternalError(InternalFailure), store, None)
    else if FirstWhere(store, (u: User) => u.email == email.s || u.username == username.s).Some? then
      RegisterResult(Conflict(AlreadyExists), store, None)
    else if !fullName.Str? || !password.Str? then
      RegisterResult(InternalError(InternalFailure), store, None)
    else
      var u := User(NextId(store), fullName.s, username.s, email.s, hash(password.s), None, None);
      RegisterResult(Ok(Strip(u)), store + [u], Some(sign(u.email)))
  }

  /** A successful registration keeps ids, emails and usernames unique. */
  lemma RegisterPreservesInvariant(store: Store, body: Body, hash: string -> string, sign: string -> string)
    requires Invariant(store)
    ensures Invariant(Register(store, body, hash, sign).store)
  {
  }

  /** `POST /auth/login`: the first account identified by `email_or_username`, accepted when
      the password verifies against its hash. */
  function Login(store: Store, body: Body, verify: (string, string) -> bool, sign: string -> string): (r: LoginResult)
    ensures !Truthy(Field(body, "email_or_username")) || !Truthy(Field(body, "password")) ==>
      r == LoginResult(BadRequest(MissingCredentials), None)
    ensures !r.response.Ok? ==> r.token == None
    ensures var key := Field(body, "email_or_username");
      (Truthy(key) && Truthy(Field(body, "password")) && key.Str?
       && forall j :: 0 <= j < |store| ==> !Identifies(store[j], key.s))
      ==> r == LoginResult(BadRequest(InvalidCredentials), None)
    ensures var key, password := Field(body, "email_or_username"), Field(body, "password");
      r.response.Ok? ==>
        key.Str? && password.Str? &&
        exists i :: (FirstIdentified(store, key.s, i)
          && verify(password.s, store[i].passwordHash)
          && r.response.body == Strip(store[i]) && r.token == Some(sign(store[i].email)))
    ensures var key, password := Field(body, "email_or_username"), Field(body, "password");
      forall i :: (Truthy(key) && Truthy(password) && password.Str? && key.Str? && FirstIdentified(store, key.s, i))
        ==> if verify(password.s, store[i].passwordHash)
            then r == LoginResult(Ok(Strip(store[i])), Some(sign(store[i].email)))
            else r == LoginResult(BadRequest(InvalidCredentials), None)
    ensures var key, password := Field(body, "email_or_username"), Field(body, "password");
      Truthy(key) && Truthy(password) && !key.Str? ==> r == LoginResult(InternalError(InternalFailure), None)
    ensures var key, password := Field(body, "email_or_username"), Field(body, "password");
      (Truthy(key) && key.Str? && Truthy(password) && !password.Str?
       && exists i :: FirstIdentified(store, key.s, i))
      ==> r == LoginResult(InternalError(InternalFailure), None)
  {
    var key, password := Field(body, "email_or_username"), Field(body, "password");
    if !Truthy(key) || !Truthy(password) then
      LoginResult(BadRequest(MissingCredentials), None)
    else if !key.Str? then
      LoginResult(InternalError(InternalFailure), None)
    else
      match FirstWhere(store, u => Identifies(u, key.s))
      case None => LoginResult(BadRequest(InvalidCredentials), None)
      case Some(i) =>
        if !password.Str? then LoginResult(InternalError(InternalFailure), None)
        else if !verify(password.s, store[i].passwordHash) then LoginResult(BadRequest(InvalidCredentials), None)
        else LoginResult(Ok(Strip(store[i])), Some(sign(store[i].email)))
  }
}
