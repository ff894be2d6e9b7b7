/** The user record and the user collection the routes read and write.
    The schema file models/User.ts is not part of this model; the fields
    below are the ones the routes use. */
module Users {
  import opened Common

  /** A stored user; `password` holds the hash, never the plaintext. */
  datatype User = User(id: string, username: string, email: string, password: string,
                       isOnline: bool, lastSeen: Time)

  /** A user as every response shows it: the record without its password
      (`.select('-password')`, `delete userObject.password`). */
  datatype PublicUser = PublicUser(id: string, username: string, email: string,
                                   isOnline: bool, lastSeen: Time)

  function ToPublic(u: User): PublicUser {
    PublicUser(u.id, u.username, u.email, u.isOnline, u.lastSeen)
  }

  /** The fields the routes look users up by. */
  datatype Field = Id | Email | Username

  function Key(u: User, f: Field): string {
    match f
    case Id => u.id
    case Email => u.email
    case Username => u.username
  }

  /** The index of the first user whose field `f` equals `v`, as
      `findOne`/`findById` return the first match. */
  function IndexOf(users: seq<User>, f: Field, v: string): (r: Option<nat>)
    ensures r.Some? ==> r.value < |users| && Key(users[r.value], f) == v
    ensures r.Some? ==> forall k :: 0 <= k < r.value ==> Key(users[k], f) != v
    ensures r.None? <==> forall k :: 0 <= k < |users| ==> Key(users[k], f) != v
    decreases |users|
  {
    if users == [] then None
    else if Key(users[0], f) == v then Some(0)
    else match IndexOf(users[1..], f, v)
      case None => None
      case Some(i) => Some(i + 1)
  }

  function Find(users: seq<User>, f: Field, v: string): (r: Option<User>)
  {
    match IndexOf(users, f, v)
    case None => None
    case Some(i) => Some(users[i])
  }

  /** A found user has the sought key; nothing is found only when no user has it. */
  lemma FindSpec(users: seq<User>, f: Field, v: string)
    ensures Find(users, f, v).Some? ==> Find(users, f, v).value in users && Key(Find(users, f, v).value, f) == v
    ensures Find(users, f, v).None? <==> forall u :: u in users ==> Key(u, f) != v
  {
  }

  /** `findByIdAndUpdate(id, { isOnline, lastSeen: now })`: the first record
      with that id gets the new `lastSeen` and, when one is given, the new
      `isOnline` (an undefined field is left out of the update). */
  function Touch(u: User, isOnline: Option<bool>, now: Time): User {
    u.(isOnline := isOnline.GetOr(u.isOnline), lastSeen := now)
  }

  function SetPresence(users: seq<User>, id: string, isOnline: Option<bool>, now: Time): seq<User> {
    match IndexOf(users, Id, id)
    case None => users
    case Some(i) => users[i := Touch(users[i], isOnline, now)]
  }

  /** Only the first record with the caller's id changes, and only its
      `isOnline` and `lastSeen`; with no such record nothing changes. */
  lemma SetPresenceSpec(users: seq<User>, id: string, isOnline: Option<bool>, now: Time)
    ensures |SetPresence(users, id, isOnline, now)| == |users|
    ensures IndexOf(users, Id, id).None? ==> SetPresence(users, id, isOnline, now) == users
    ensures IndexOf(users, Id, id).Some? ==>
      var i := IndexOf(users, Id, id).value;
      var u := SetPresence(users, id, isOnline, now)[i];
      && u.id == id && u.lastSeen == now
      && u.isOnline == (if isOnline.Some? then isOnline.value else users[i].isOnline)
      && u.username == users[i].username && u.email == users[i].email && u.password == users[i].password
      && forall k :: 0 <= k < |users| && k != i ==> SetPresence(users, id, isOnline, now)[k] == users[k]
  {
  }

  /** The user collection. */
  class UserStore {
    var users: seq<User>

    constructor ()
      ensures users == []
    {
      users := [];
    }

    /** `user.save()` of a new document. */
    method Add(u: User)
      modifies this
      ensures users == old(users) + [u]
    {
      users := users + [u];
    }

    /** `User.findByIdAndUpdate(id, {...}, { new: true })`: updates the
        record in place and returns it as it is afterwards, or null. */
    method FindByIdAndUpdate(id: string, isOnline: Option<bool>, now: Time) returns (updated: Option<User>)
      modifies this
      ensures users == SetPresence(old(users), id, isOnline, now)
      ensures updated.Some? <==> IndexOf(old(users), Id, id).Some?
      ensures updated.Some? ==> updated == Some(users[IndexOf(old(users), Id, id).value])
    {
      var i := 0;
      while i < |users| && users[i].id != id
        invariant 0 <= i <= |users|
        invariant forall k :: 0 <= k < i ==> users[k].id != id
      {
        i := i + 1;
      }
      if i < |users| {
        assert IndexOf(users, Id, id) == Some(i);
        users := users[i := Touch(users[i], isOnline, now)];
        updated := Some(users[i]);
      } else {
        updated := None;
      }
    }
  }
}
