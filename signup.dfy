/** POST /api/auth/signup (app/api/auth/signup/route.ts). Password hashing
    (`bcrypt.hash`) is the parameter `hash`; `id` is the generated `_id`. */
module Signup {
  import opened Common
  import opened Users

  const MinPasswordLength: nat := 6

  /** `findOne({ $or: [{ email }, { username }] })` finds someone. */
  predicate Taken(users: seq<User>, username: string, email: string) {
    IndexOf(users, Email, email).Some? || IndexOf(users, Username, username).Some?
  }

  /** The validation ladder: the record to store, or the first rejection. */
  function Register(users: seq<User>, username: Option<string>, email: Option<string>, password: Option<string>,
                    hash: string -> string, id: string, now: Time): (r: Reply<User>)
    ensures !Present(username) || !Present(email) || !Present(password) ==>
      r == Failure(400, "Username, email, and password are required")
    ensures Present(username) && Present(email) && Present(password) && |password.value| < MinPasswordLength ==>
      r == Failure(400, "Password must be at least 6 characters long")
    ensures r.Success? ==>
      && r.status == 201 && username.Some? && email.Some? && password.Some?
      && |password.value| >= MinPasswordLength
      && r.body == User(id, username.value, email.value, hash(password.value), false, now)
      && forall u :: u in users ==> u.email != email.value && u.username != username.value
    ensures r.Failure? ==> r.status == 400
    ensures Present(username) && Present(email) && Present(password) && |password.value| >= MinPasswordLength
            && (forall u :: u in users ==> u.email != email.value && u.username != username.value) ==>
      r == Success(201, User(id, username.value, email.value, hash(password.value), false, now))
  {
    if !Present(username) || !Present(email) || !Present(password) then
      Failure(400, "Username, email, and password are required")
    else if |password.value| < MinPasswordLength then
      Failure(400, "Password must be at least 6 characters long")
    else if Taken(users, username.value, email.value) then
      Failure(400, "User with this email or username already exists")
    else
      Success(201, User(id, username.value, email.value, hash(password.value), false, now))
  }

  /** An email or a username already in use is refused, whichever it is. */
  lemma DuplicateRejected(users: seq<User>, username: string, email: string, password: string,
                          hash: string -> string, id: string, now: Time)
    requires username != "" && email != "" && |password| >= MinPasswordLength
    requires exists u :: u in users && (u.email == email || u.username == username)
    ensures Register(users, Some(username), Some(email), Some(password), hash, id, now)
         == Failure(400, "User with this email or username already exists")
  {
    var u :| u in users && (u.email == email || u.username == username);
    var k :| 0 <= k < |users| && users[k] == u;
    if u.email == email {
      assert Key(users[k], Email) == email;
    } else {
      assert Key(users[k], Username) == username;
    }
  }

  /** No two stored users share an email or a username. */
  ghost predicate UniqueAccounts(users: seq<User>) {
    forall i, j :: 0 <= i < j < |users| ==>
      users[i].email != users[j].email && users[i].username != users[j].username
  }

  /** Every account created through signup keeps emails and usernames unique. */
  lemma RegisterKeepsUnique(users: seq<User>, username: Option<string>, email: Option<string>,
                            password: Option<string>, hash: string -> string, id: string, now: Time)
    requires UniqueAccounts(users)
    requires Register(users, username, email, password, hash, id, now).Success?
    ensures UniqueAccounts(users + [Register(users, username, email, password, hash, id, now).body])
  {
    var u := Register(users, username, email, password, hash, id, now).body;
    var s := users + [u];
    forall i, j | 0 <= i < j < |s| ensures s[i].email != s[j].email && s[i].username != s[j].username {
      if j == |users| {
        assert s[i] in users;
      }
    }
  }

  /** The handler: stores exactly the registered record on success, nothing
      otherwise, and answers with the record minus its password. */
  method Post(store: UserStore, username: Option<string>, email: Option<string>, password: Option<string>,
              hash: string -> string, id: string, now: Time)
    returns (reply: Reply<PublicUser>)
    modifies store
    ensures var r := Register(old(store.users), username, email, password, hash, id, now);
      && (r.Failure? ==> reply == Failure(r.status, r.error) && store.users == old(store.users))
      && (r.Success? ==> reply == Success(201, ToPublic(r.body)) && store.users == old(store.users) + [r.body])
  {
    var r := Register(store.users, username, email, password, hash, id, now);
    if r.Failure? {
      return Failure(r.status, r.error);
    }
    store.Add(r.body);
    reply := Success(201, ToPublic(r.body));
  }
}
