/** GET and PATCH /api/users (app/api/users/route.ts). The persisted
    `isOnline`/`lastSeen` here are what clients report; they are not tied
    to the live connection registry. */
module UsersRoute {
  import opened Common
  import Sorting
  import Auth
  import opened Users

  /** `sort({ isOnline: -1, lastSeen: -1 })`: online users first, then the
      most recently seen first. */
  predicate ListedBefore(a: PublicUser, b: PublicUser) {
    (a.isOnline && !b.isOnline) || (a.isOnline == b.isOnline && a.lastSeen >= b.lastSeen)
  }

  lemma ListedBeforeIsPreorder()
    ensures Sorting.TotalPreorder(ListedBefore)
  {
  }

  /** Everyone but the caller, without passwords. */
  function Others(users: seq<User>, callerId: string): (r: seq<PublicUser>)
    ensures forall p :: p in r <==> exists u :: u in users && u.id != callerId && p == ToPublic(u)
    ensures |r| <= |users|
  {
    if users == [] then []
    else
      var rest := Others(users[1..], callerId);
      assert users == [users[0]] + users[1..];
      if users[0].id != callerId then [ToPublic(users[0])] + rest else rest
  }

  /** `find({ _id: { $ne: callerId } }).select('-password').sort(...)`. */
  function Directory(users: seq<User>, callerId: string): (r: seq<PublicUser>)
    ensures Sorting.SortedBy(r, ListedBefore)
    ensures multiset(r) == multiset(Others(users, callerId))
  {
    ListedBeforeIsPreorder();
    Sorting.Sort(Others(users, callerId), ListedBefore)
  }

  /** The listing holds exactly the other users, each without password,
      online ones first and within each group the most recently seen first. */
  lemma DirectorySpec(users: seq<User>, callerId: string)
    ensures var r := Directory(users, callerId);
      forall p :: p in r <==> exists u :: u in users && u.id != callerId && p == ToPublic(u)
    ensures var r := Directory(users, callerId);
      forall i, j :: 0 <= i < j < |r| ==>
        (r[i].isOnline || !r[j].isOnline) && (r[i].isOnline == r[j].isOnline ==> r[i].lastSeen >= r[j].lastSeen)
  {
    var r := Directory(users, callerId);
    forall p ensures p in r <==> p in Others(users, callerId) {
      assert p in r <==> p in multiset(r);
    }
    forall i, j | 0 <= i < j < |r|
      ensures (r[i].isOnline || !r[j].isOnline) && (r[i].isOnline == r[j].isOnline ==> r[i].lastSeen >= r[j].lastSeen)
    {
      assert ListedBefore(r[i], r[j]);
    }
  }

  /** The caller is never in its own listing. */
  lemma CallerNotListed(users: seq<User>, callerId: string)
    ensures forall p :: p in Directory(users, callerId) ==> p.id != callerId
  {
    DirectorySpec(users, callerId);
  }

  datatype Listing = Everyone(users: seq<PublicUser>) | Me(user: PublicUser)

  /** GET /api/users[?all=true]. */
  function Get(users: seq<User>, authorization: Option<string>, verify: Auth.Verifier, all: Option<string>): Reply<Listing>
  {
    match Auth.GetUserFromRequest(authorization, verify)
    case None => Failure(401, "Unauthorized")
    case Some(caller) =>
      if all == Some("true") then Success(200, Everyone(Directory(users, caller.userId)))
      else match Find(users, Id, caller.userId)
        case None => Failure(404, "User not found")
        case Some(u) => Success(200, Me(ToPublic(u)))
  }

  /** Only the exact value `"true"` asks for the listing; otherwise the
      caller's own record comes back, or 404 when it is gone. */
  lemma GetSpec(users: seq<User>, authorization: Option<string>, verify: Auth.Verifier, all: Option<string>)
    ensures Auth.GetUserFromRequest(authorization, verify).None? ==>
      Get(users, authorization, verify, all) == Failure(401, "Unauthorized")
    ensures Auth.GetUserFromRequest(authorization, verify).Some? && all == Some("true") ==>
      Get(users, authorization, verify, all)
        == Success(200, Everyone(Directory(users, Auth.GetUserFromRequest(authorization, verify).value.userId)))
    ensures Auth.GetUserFromRequest(authorization, verify).Some? && all != Some("true") ==>
      var id := Auth.GetUserFromRequest(authorization, verify).value.userId;
      && ((forall u :: u in users ==> u.id != id) <==> Get(users, authorization, verify, all) == Failure(404, "User not found"))
      && (Get(users, authorization, verify, all).Success? ==>
            exists u :: u in users && u.id == id && Get(users, authorization, verify, all) == Success(200, Me(ToPublic(u))))
  {
    var caller := Auth.GetUserFromRequest(authorization, verify);
    if caller.Some? {
      FindSpec(users, Id, caller.value.userId);
    }
  }

  /** PATCH /api/users { isOnline }: stamps the caller's own record and
      answers with it (null when the record is gone). */
  method Patch(store: UserStore, authorization: Option<string>, verify: Auth.Verifier,
               isOnline: Option<bool>, now: Time)
    returns (reply: Reply<Option<PublicUser>>)
    modifies store
    ensures Auth.GetUserFromRequest(authorization, verify).None? ==>
      reply == Failure(401, "Unauthorized") && store.users == old(store.users)
    ensures Auth.GetUserFromRequest(authorization, verify).Some? ==>
      var id := Auth.GetUserFromRequest(authorization, verify).value.userId;
      && store.users == SetPresence(old(store.users), id, isOnline, now)
      && reply.Success? && reply.status == 200
      && (reply.body.Some? <==> IndexOf(old(store.users), Id, id).Some?)
      && (reply.body.Some? ==> reply.body.value == ToPublic(store.users[IndexOf(old(store.users), Id, id).value]))
  {
    var caller := Auth.GetUserFromRequest(authorization, verify);
    if caller.None? {
      return Failure(401, "Unauthorized");
    }
    var updated := store.FindByIdAndUpdate(caller.value.userId, isOnline, now);
    match updated
    case None => reply := Success(200, None);
    case Some(u) => reply := Success(200, Some(ToPublic(u)));
  }
}
