/** POST /api/auth/login (app/api/auth/login/route.ts). Password checking
    (`bcrypt.compare`) and token signing (`jwt.sign`) are the parameters
    `matches` and `sign`. Nothing is stored. */
module Login {
  import opened Common
  import opened Users
  import Auth

  datatype Session = Session(user: PublicUser, token: string)

  /** The claims the issued token carries. */
  function Claims(u: User): Auth.TokenPayload {
    Auth.TokenPayload(u.id, u.email, u.username)
  }

  function Login(users: seq<User>, email: Option<string>, password: Option<string>,
                 matches: (string, string) -> bool, sign: Auth.TokenPayload -> string): Reply<Session>
  {
    if !Present(email) || !Present(password) then Failure(400, "Email and password are required")
    else match Find(users, Email, email.value)
      case None => Failure(401, "Invalid credentials")
      case Some(u) =>
        if !matches(password.value, u.password) then Failure(401, "Invalid credentials")
        else Success(200, Session(ToPublic(u), sign(Claims(u))))
  }

  /** A missing field is refused before any lookup: the answer is the same
      whatever the store holds. */
  lemma MissingFieldFirst(users: seq<User>, users': seq<User>, email: Option<string>, password: Option<string>,
                          matches: (string, string) -> bool, sign: Auth.TokenPayload -> string)
    requires !Present(email) || !Present(password)
    ensures Login(users, email, password, matches, sign) == Failure(400, "Email and password are required")
    ensures Login(users, email, password, matches, sign) == Login(users', email, password, matches, sign)
  {
  }

  /** An unknown email and a wrong password get the identical answer. */
  lemma FailuresIndistinguishable(users: seq<User>, email: string, password: string,
                                  matches: (string, string) -> bool, sign: Auth.TokenPayload -> string)
    requires email != "" && password != ""
    requires forall u :: u in users && u.email == email ==> !matches(password, u.password)
    ensures Login(users, Some(email), Some(password), matches, sign) == Failure(401, "Invalid credentials")
  {
    FindSpec(users, Email, email);
  }

  /** Success means that a stored user with that email accepts the password,
      and the answer carries a token signed over that user's id, email and
      username, and the user without the password. */
  lemma SuccessSpec(users: seq<User>, email: Option<string>, password: Option<string>,
                    matches: (string, string) -> bool, sign: Auth.TokenPayload -> string)
    requires Login(users, email, password, matches, sign).Success?
    ensures var r := Login(users, email, password, matches, sign);
      && r.status == 200 && email.Some? && password.Some?
      && exists u :: u in users && u.email == email.value && matches(password.value, u.password)
           && r.body == Session(ToPublic(u), sign(Auth.TokenPayload(u.id, u.email, u.username)))
  {
    FindSpec(users, Email, email.value);
  }

  /** Conversely, the first user with the email accepting the password is
      enough for a successful login. */
  lemma FirstMatchLogsIn(users: seq<User>, i: nat, password: string,
                         matches: (string, string) -> bool, sign: Auth.TokenPayload -> string)
    requires i < |users| && users[i].email != "" && password != ""
    requires forall k :: 0 <= k < i ==> users[k].email != users[i].email
    requires matches(password, users[i].password)
    ensures Login(users, Some(users[i].email), Some(password), matches, sign)
         == Success(200, Session(ToPublic(users[i]), sign(Claims(users[i]))))
  {
    assert Key(users[i], Email) == users[i].email;
    assert IndexOf(users, Email, users[i].email) == Some(i);
  }
}
