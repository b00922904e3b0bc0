/**
 * Tokens name an account by its email, but the route code resolves a token's subject
 * against emails AND usernames, while registration only compares emails with emails and
 * usernames with usernames. An account registered with another account's username as its
 * email is therefore signed in as that other account. This module exhibits the case for the
 * lookup as written and proves that the email-only lookup resolves every fresh session to
 * the account it was issued for.
 */
module SessionConfusion {
  import opened Wrappers
  import opened Js
  import opened Users
  import opened Session
  import opened AuthRoutes
  import opened Profile

  const Alice := User(1, "Alice", "alice", "alice@example.com", "#h", None, None)
  const NewcomerBody: Body := map["full_name" := Str("Mallory"), "username" := Str("mallory"),
                                  "email" := Str("alice"), "password" := Str("pw")]
  const NewPassword: Body := map["password" := Str("pwned")]

  /** A stand-in password hash. */
  function Tag(p: string): (h: string) { "#" + p }

  /** A stand-in token scheme whose tokens are their subjects: `Sign` issues, `Bare` verifies. */
  function Sign(email: string): (token: string) { email }

  function Bare(t: string): (sub: Option<string>) { Some(t) }

  /** The table after the newcomer's registration, and the token the newcomer receives. */
  lemma RegisterNewcomer()
    ensures var reg := Register([Alice], NewcomerBody, Tag, Sign);
      && reg.response.Ok?
      && reg.store == [Alice, User(2, "Mallory", "mallory", "alice", "#pw", None, None)]
      && reg.token == Some("alice")
  {
    assert [Alice][1..] == [];
    assert NextId([Alice]) == 2;
    assert Tag("pw") == "#pw";
  }

  /** The concrete case: "alice" exists; a newcomer registers with email "alice". With
      tokens that verify to their subject, the as-written lookup returns alice's row for the
      newcomer's session, while the email-only lookup returns the newcomer's row. */
  lemma RegisterSessionResolvesToOtherAccount()
    ensures var r := Register([Alice], NewcomerBody, Tag, Sign);
      && r.response.Ok? && |r.store| == 2 && r.store[0] == Alice
      && r.store[1].username == "mallory"
      && CurrentUserIndex(r.store, r.token, Bare) == Some(0)
      && CurrentUserIndexByEmail(r.store, r.token, Bare) == Some(1)
  {
    RegisterNewcomer();
  }

  /** The route-level effect of the same case: the newcomer sends `PUT /users/me` with a new
      password. The routes as written overwrite alice's password hash and leave the
      newcomer's row alone; with the email-only lookup the newcomer's own row changes and
      alice's row stays as it was. */
  lemma NewcomerRewritesOtherPassword()
    ensures var reg := Register([Alice], NewcomerBody, Tag, Sign);
      var asWritten := UpdateMe(reg.store, reg.token, NewPassword, Bare, Tag);
      && asWritten.response.Ok?
      && asWritten.store[0] == Alice.(passwordHash := "#pwned")
      && asWritten.store[1] == reg.store[1]
    ensures var reg := Register([Alice], NewcomerBody, Tag, Sign);
      var corrected := UpdateMeByEmail(reg.store, reg.token, NewPassword, Bare, Tag);
      && corrected.response.Ok?
      && corrected.store[0] == Alice
      && corrected.store[1] == reg.store[1].(passwordHash := "#pwned")
  {
    RegisterNewcomer();
    var mallory := User(2, "Mallory", "mallory", "alice", "#pw", None, None);
    var store := [Alice, mallory];
    assert CurrentUserIndex(store, Some("alice"), Bare) == Some(0);
    assert CurrentUserIndexByEmail(store, Some("alice"), Bare) == Some(1);
  }

  /** With the email-only lookup, the token issued by a successful registration resolves to
      the new account, whenever tokens verify to the subject they were signed with. */
  lemma RegisterThenSession(store: Store, body: Body, hash: string -> string, sign: string -> string,
                            decode: string -> Option<string>)
    requires Register(store, body, hash, sign).response.Ok?
    requires var e := Field(body, "email").s; sign(e) != "" && decode(sign(e)) == Some(e)
    ensures var r := Register(store, body, hash, sign);
      CurrentUserIndexByEmail(r.store, r.token, decode) == Some(|store|)
  {
  }

  /** With the email-only lookup and the table's invariant, the token issued by a successful login
      resolves to the account that logged in. */
  lemma LoginThenSession(store: Store, body: Body, verify: (string, string) -> bool, sign: string -> string,
                         decode: string -> Option<string>, i: nat)
    requires Invariant(store)
    requires i < |store| && Login(store, body, verify, sign).response.Ok?
    requires Login(store, body, verify, sign).response.body == Strip(store[i])
    requires sign(store[i].email) != "" && decode(sign(store[i].email)) == Some(store[i].email)
    ensures CurrentUserIndexByEmail(store, Login(store, body, verify, sign).token, decode) == Some(i)
  {
  }
}
