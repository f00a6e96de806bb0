/**
 * The session service: log in with email and password and receive a signed
 * token whose subject is the user's `uuid`.
 */
module Session {
  import opened JsValues
  import opened Crypto
  import opened Records
  import opened Services

  const WrongCredentialsMessage := "Wrong email or password"

  /**
   * `createSessionService`. It takes the first record with the email; an
   * unknown email and a wrong password give the same 401 reply. bcrypt rejects
   * a candidate or stored password that is not a string, and jsonwebtoken a
   * subject that is not a string; both escape as exceptions. Otherwise the
   * reply is 200 with a token whose subject is that record's `uuid`.
   */
  function Login(users: seq<Record>, email: Value, password: Value, crypto: Primitives): (r: Reply)
    ensures r.Reply? ==> r.status == 200 || r == Reply(401, Message(WrongCredentialsMessage))
    ensures r == Reply(401, Message(WrongCredentialsMessage)) <==>
              || (forall j :: 0 <= j < |users| ==> users[j].email != email)
              || exists i :: && FirstWith(users, Email, email, i)
                             && password.Str? && users[i].password.Str?
                             && !crypto.compare(password.s, users[i].password.s)
    ensures HasStatus(r, 200) ==>
              exists i :: && FirstWith(users, Email, email, i)
                          && password.Str? && users[i].password.Str?
                          && crypto.compare(password.s, users[i].password.s)
                          && users[i].uuid.Str?
                          && r.body == TokenBody(crypto.sign(users[i].uuid.s))
    ensures r == Crash <==>
              exists i :: && FirstWith(users, Email, email, i)
                          && (|| !(password.Str? && users[i].password.Str?)
                              || (crypto.compare(password.s, users[i].password.s) && !users[i].uuid.Str?))
    ensures HasStatus(r, 200) <==>
              exists i :: && FirstWith(users, Email, email, i)
                          && password.Str? && users[i].password.Str?
                          && crypto.compare(password.s, users[i].password.s)
                          && users[i].uuid.Str?
  {
    var i := FindIndex(users, Email, email);
    if i == -1 then Reply(401, Message(WrongCredentialsMessage))
    else
      var user := users[i];
      if !(password.Str? && user.password.Str?) then Crash
      else if !crypto.compare(password.s, user.password.s) then Reply(401, Message(WrongCredentialsMessage))
      else if !user.uuid.Str? then Crash
      else Reply(200, TokenBody(crypto.sign(user.uuid.s)))
  }

  /** An unknown email and a wrong password cannot be told apart by the caller. */
  lemma UnknownEmailLooksLikeWrongPassword(
    users: seq<Record>, unknown: Value, anyPassword: Value,
    email: Value, wrong: string, crypto: Primitives)
    requires forall j :: 0 <= j < |users| ==> users[j].email != unknown
    requires exists i :: FirstWith(users, Email, email, i) && users[i].password.Str?
                         && !crypto.compare(wrong, users[i].password.s)
    ensures Login(users, unknown, anyPassword, crypto) == Login(users, email, Str(wrong), crypto)
    ensures Login(users, unknown, anyPassword, crypto) == Reply(401, Message(WrongCredentialsMessage))
  {
  }

  /**
   * Registering and then logging in with the same email and password yields a
   * token that verifies to the new record's `uuid`, provided no earlier record
   * has that email (login takes the first match).
   */
  lemma SignUpThenLogin(
    users: seq<Record>, data: Record, gen: Generated, crypto: Primitives, e: string, p: string)
    requires Sound(crypto) && FreshFor(users, gen)
    requires data.email == Str(e) && data.password == Str(p)
    requires forall j :: 0 <= j < |users| ==> users[j].name != data.name
    requires forall j :: 0 <= j < |users| ==> users[j].email != Str(e)
    ensures HasStatus(CreateUser(users, data, gen, crypto).reply, 201)
    ensures Login(CreateUser(users, data, gen, crypto).users, Str(e), Str(p), crypto)
            == Reply(200, TokenBody(crypto.sign(gen.uuid)))
    ensures crypto.verify(crypto.sign(gen.uuid)) == Some(Str(gen.uuid))
  {
  }
}
