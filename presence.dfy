/** The presence registry of lib/socket.ts as values: user id to the set
    of that user's live socket ids (`onlineUsers`), with the two updates
    `addUserSocket` and `removeUserSocket`. The socket server keeps its
    registry equal to these functions of its previous registry. */
module Presence {

  type Registry = map<string, set<string>>

  /** No user is listed with an empty set of sockets. */
  predicate NoEmptyEntries(m: Registry) {
    forall u :: u in m ==> m[u] != {}
  }

  /** `addUserSocket(u, s)`: creates the user's set when absent, then adds `s`. */
  function AddUserSocket(m: Registry, u: string, s: string): (r: Registry)
    ensures u in r && s in r[u]
    ensures r.Keys == m.Keys + {u}
    ensures u in m ==> r[u] == m[u] + {s}
    ensures u !in m ==> r[u] == {s}
    ensures forall v :: v in m && v != u ==> r[v] == m[v]
    ensures NoEmptyEntries(m) ==> NoEmptyEntries(r)
  {
    m[u := (if u in m then m[u] else {}) + {s}]
  }

  /** `removeUserSocket(u, s)`: drops `s` from the user's set and, when the
      set becomes empty, the user; answers whether the user went offline. */
  function RemoveUserSocket(m: Registry, u: string, s: string): (r: (Registry, bool))
    ensures r.1 <==> u in m && m[u] - {s} == {}
    ensures r.1 ==> r.0 == m - {u}
    ensures !r.1 && u in m ==> r.0 == m[u := m[u] - {s}]
    ensures u !in m ==> r.0 == m
    ensures NoEmptyEntries(m) ==> NoEmptyEntries(r.0)
  {
    if u in m then
      var rest := m[u] - {s};
      if rest == {} then (m - {u}, true) else (m[u := rest], false)
    else (m, false)
  }

  /** The flag is set exactly when the call removes the user's last socket,
      i.e. exactly when the user goes from online to offline. */
  lemma RemoveReportsOffline(m: Registry, u: string, s: string)
    requires NoEmptyEntries(m)
    ensures RemoveUserSocket(m, u, s).1 <==> u in m && m[u] <= {s}
    ensures RemoveUserSocket(m, u, s).1 <==> (u in m && u !in RemoveUserSocket(m, u, s).0)
    ensures u in m && s in m[u] ==> (RemoveUserSocket(m, u, s).1 <==> m[u] == {s})
  {
  }

  // ---------------------------------------------------------------------
  // Connection histories

  datatype Event = Connected(user: string, socket: string) | Disconnected(user: string, socket: string)

  /** One event applied to the registry, with the notification it triggers:
      `userOnline` on a connect when the user had no entry before
      (`wasOffline`), `userOffline` on a disconnect when the remove reports it. */
  function Apply(m: Registry, e: Event): (Registry, bool) {
    match e
    case Connected(u, s) => (AddUserSocket(m, u, s), u !in m)
    case Disconnected(u, s) => RemoveUserSocket(m, u, s)
  }

  function Run(m: Registry, es: seq<Event>): Registry
    decreases |es|
  {
    if es == [] then m else Run(Apply(m, es[0]).0, es[1..])
  }

  function Online(m: Registry, u: string): int {
    if u in m then 1 else 0
  }

  /** The number of `userOnline` (when `connect`) or `userOffline`
      notifications for user `u` along a history. */
  function Notified(m: Registry, es: seq<Event>, u: string, connect: bool): nat
    decreases |es|
  {
    if es == [] then 0
    else
      var (m', fired) := Apply(m, es[0]);
      var here := if fired && es[0].user == u && es[0].Connected? == connect then 1 else 0;
      here + Notified(m', es[1..], u, connect)
  }

  /** The number of times `u`'s presence flips along a history. */
  function Transitions(m: Registry, es: seq<Event>, u: string): nat
    decreases |es|
  {
    if es == [] then 0
    else
      var m' := Apply(m, es[0]).0;
      (if (u in m) != (u in m') then 1 else 0) + Transitions(m', es[1..], u)
  }

  /** One event flips `u`'s presence exactly when it notifies about `u`,
      and an online notice only ever marks going online, an offline notice
      going offline. */
  lemma {:induction false} StepNotifies(m: Registry, e: Event, u: string)
    ensures var (m', fired) := Apply(m, e);
      && ((u in m) != (u in m') <==> fired && e.user == u)
      && (fired && e.user == u && e.Connected? ==> u !in m && u in m')
      && (fired && e.user == u && e.Disconnected? ==> u in m && u !in m')
  {
  }

  /** Along any history of connects and disconnects, for any number of
      sockets per user, the notifications about a user are exactly its
      presence transitions: one per transition, never more. */
  lemma {:induction false} NotificationsAreTransitions(m: Registry, es: seq<Event>, u: string)
    ensures Notified(m, es, u, true) + Notified(m, es, u, false) == Transitions(m, es, u)
    ensures Notified(m, es, u, true) - Notified(m, es, u, false) == Online(Run(m, es), u) - Online(m, u)
    decreases |es|
  {
    if es != [] {
      StepNotifies(m, es[0], u);
      NotificationsAreTransitions(Apply(m, es[0]).0, es[1..], u);
    }
  }

  /** The example history: sockets c1 and c2 of user A connect and
      disconnect; only the first connect and the last disconnect notify. */
  lemma TwoTabsExample()
    ensures var m0: Registry := map[];
      var m1 := AddUserSocket(m0, "A", "c1");
      var m2 := AddUserSocket(m1, "A", "c2");
      var (m3, off1) := RemoveUserSocket(m2, "A", "c1");
      var (m4, off2) := RemoveUserSocket(m3, "A", "c2");
      && "A" !in m0 && "A" in m1 && !off1 && off2 && m4 == map[]
  {
    var m2 := AddUserSocket(AddUserSocket(map[], "A", "c1"), "A", "c2");
    assert m2["A"] == {"c1", "c2"};
    assert m2["A"] - {"c1"} == {"c2"};
  }
}
