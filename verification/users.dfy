/**
 * The user table of the backend as a sequence of records, the responses the account
 * routes send, and the projection that removes `password_hash` from every response.
 */
module Users {
  import opened Wrappers

  /** A stored account. */
  datatype User = User(
    id: nat,
    fullName: string,
    username: string,
    email: string,
    passwordHash: string,
    imageUrl: Option<string>,
    description: Option<string>)

  /** What a response shows of an account: every field except `password_hash`. */
  datatype SafeUser = SafeUser(
    id: nat,
    fullName: string,
    username: string,
    email: string,
    imageUrl: Option<string>,
    description: Option<string>)

  /** The table in the order lookups scan it (a lookup returns the first match). */
  type Store = seq<User>

  /** A route's outcome: the JSON body on success, otherwise an HTTP error with its `detail`. */
  datatype Response<T> =
    | Ok(body: T)
    | BadRequest(detail: string)
    | Unauthorized(detail: string)
    | Conflict(detail: string)
    | InternalError(detail: string)

  /** `const { password_hash, ...safe } = user` */
  function Strip(u: User): (r: SafeUser)
    ensures WithHash(r, u.passwordHash) == u
  {
    SafeUser(u.id, u.fullName, u.username, u.email, u.imageUrl, u.description)
  }

  /** Puts a hash back next to the shown fields. */
  function WithHash(s: SafeUser, passwordHash: string): (u: User)
  {
    User(s.id, s.fullName, s.username, s.email, passwordHash, s.imageUrl, s.description)
  }

  /** The stripped record loses exactly the hash: restoring it gives back the stored account,
      and two accounts look the same in a response exactly when they differ at most in the hash. */
  lemma StripLosesOnlyHash(u: User, v: User)
    ensures WithHash(Strip(u), u.passwordHash) == u
    ensures Strip(u) == Strip(v) <==> u.(passwordHash := v.passwordHash) == v
  {
  }

  /** The login identifier `key` names this account, by email or by username. */
  predicate Identifies(u: User, key: string)
  {
    u.email == key || u.username == key
  }

  /** `i` is the first position holding an account that `key` identifies. */
  ghost predicate FirstIdentified(store: Store, key: string, i: int)
  {
    FirstAt(store, (u: User) => Identifies(u, key), i)
  }

  /** `i` is the first position holding an account with this email. */
  ghost predicate FirstWithEmail(store: Store, email: string, i: int)
  {
    FirstAt(store, (u: User) => u.email == email, i)
  }

  /** `i` is the first position whose account satisfies `p`. */
  ghost predicate FirstAt(store: Store, p: User -> bool, i: int)
  {
    0 <= i < |store| && p(store[i]) && forall j :: 0 <= j < i ==> !p(store[j])
  }

  /** `findFirst` with a `where` condition `p`: the position of the first matching account. */
  function FirstWhere(store: Store, p: User -> bool): (r: Option<nat>)
    ensures r.Some? ==> FirstAt(store, p, r.value)
    ensures r.None? <==> forall j :: 0 <= j < |store| ==> !p(store[j])
  {
    FirstWhereFrom(store, p, 0)
  }

  function FirstWhereFrom(store: Store, p: User -> bool, from: nat): (r: Option<nat>)
    requires from <= |store|
    requires forall j :: 0 <= j < from ==> !p(store[j])
    ensures r.Some? ==> FirstAt(store, p, r.value)
    ensures r.None? <==> forall j :: 0 <= j < |store| ==> !p(store[j])
    decreases |store| - from
  {
    if from == |store| then None
    else if p(store[from]) then Some(from)
    else FirstWhereFrom(store, p, from + 1)
  }

  /** An id larger than every stored id, standing for the database's generated key. */
  function NextId(store: Store): (id: nat)
    ensures forall j :: 0 <= j < |store| ==> store[j].id < id
  {
    if |store| == 0 then 1
    else
      var rest := NextId(store[1..]);
      assert forall j :: 1 <= j < |store| ==> store[j] == store[1..][j - 1];
      if store[0].id < rest then rest else store[0].id + 1
  }

  ghost predicate UniqueIds(store: Store)
  {
    forall i, j :: 0 <= i < j < |store| ==> store[i].id != store[j].id
  }

  ghost predicate UniqueEmails(store: Store)
  {
    forall i, j :: 0 <= i < j < |store| ==> store[i].email != store[j].email
  }

  ghost predicate UniqueUsernames(store: Store)
  {
    forall i, j :: 0 <= i < j < |store| ==> store[i].username != store[j].username
  }

  /** Registration refuses empty emails and no route changes an email afterwards. */
  ghost predicate EmailsPresent(store: Store)
  {
    forall i :: 0 <= i < |store| ==> store[i].email != ""
  }

  /** The table's guarantees, kept by every route that writes. */
  ghost predicate Invariant(store: Store)
  {
    UniqueIds(store) && UniqueEmails(store) && UniqueUsernames(store) && EmailsPresent(store)
  }
}
