// Presence as users see it: the PRESENCE events a hub logs and the Redis set of
// online users, with several connections (tabs) per user.
module HubPresence {
  import opened Messages
  import opened HubMachine

  datatype Status = Unknown | Known(text: string)

  function LastPresence(log: seq<Message>, user: string): Status {
    if log == [] then Unknown
    else
      var m := log[|log| - 1];
      if m.event.Presence? && m.user == user then Known(m.text) else LastPresence(log[..|log| - 1], user)
  }

  lemma LastPresenceAppend(log: seq<Message>, m: Message, user: string)
    ensures LastPresence(log + [m], user)
         == if m.event.Presence? && m.user == user then Known(m.text) else LastPresence(log, user)
  {
  }

  function Connected(h: Hub): set<string> {
    UsersOf(h.conns, h.clients)
  }

  ghost predicate HasRegistered(h: Hub, user: string) {
    exists id :: id in h.conns && h.conns[id].registered && h.conns[id].user == user
  }

  ghost predicate AllUnregistered(h: Hub, user: string) {
    forall id :: id in h.conns && h.conns[id].registered && h.conns[id].user == user ==> h.conns[id].unregistered
  }

  ghost predicate PresenceOk(h: Hub, user: string) {
    && (user in Connected(h) ==> LastPresence(h.log, user) == Known("online"))
    && (HasRegistered(h, user) && AllUnregistered(h, user) ==> LastPresence(h.log, user) == Known("offline"))
  }

  // Actions that only move messages or close channels leave presence alone.
  lemma PresenceFrame(h: Hub, g: Hub, user: string)
    requires Inv(h) && PresenceOk(h, user)
    requires LastPresence(g.log, user) == LastPresence(h.log, user)
    requires Connected(g) <= Connected(h) && SameButGrown(h, g.(log := h.log))
    ensures PresenceOk(g, user)
  {
  }

  lemma RegisterPresence(h: Hub, id: nat, user: string)
    requires Inv(h) && PresenceOk(h, user) && Enabled(h, Register(id))
    ensures PresenceOk(Apply(h, Register(id)), user)
  {
    var g, c := Apply(h, Register(id)), h.conns[id];
    var m := PresenceMessage(c.user, c.room, "online");
    LastPresenceAppend(h.log, m, user);
    assert ConnOk(h, id);
    assert g.log == h.log + [m];
    if user == c.user {
      assert g.conns[id].registered && !g.conns[id].unregistered;
    } else {
      PresenceFrameOther(h, g, id, user);
    }
  }

  // A change to one connection of another user.
  lemma PresenceFrameOther(h: Hub, g: Hub, id: nat, user: string)
    requires PresenceOk(h, user) && id in h.conns && h.conns[id].user != user
    requires LastPresence(g.log, user) == LastPresence(h.log, user)
    requires h.conns.Keys == g.conns.Keys
    requires forall k :: k in h.conns && k != id ==> g.conns[k] == h.conns[k] && (k in g.clients <==> k in h.clients)
    requires g.conns[id].user == h.conns[id].user
    ensures PresenceOk(g, user)
  {
  }

  lemma UnregisterOwn(h: Hub, id: nat)
    requires Inv(h) && Enabled(h, Unregister(id)) && PresenceOk(h, h.conns[id].user)
    ensures PresenceOk(Apply(h, Unregister(id)), h.conns[id].user)
  {
    var g, c, d := Apply(h, Unregister(id)), h.conns[id], Dismissed(h, id);
    if c.user in Connected(d) {
      var k :| k in d.clients && k in d.conns && d.conns[k].user == c.user;
      assert k != id ==> ConnOk(h, k) && h.conns[k].user == c.user;
      assert c.user in Connected(h);
      assert g.conns[k].registered && !g.conns[k].unregistered;
    } else {
      LastPresenceAppend(h.log, PresenceMessage(c.user, c.room, "offline"), c.user);
      assert Connected(g) == Connected(d);
    }
  }

  lemma UnregisterPresence(h: Hub, id: nat, user: string)
    requires Inv(h) && PresenceOk(h, user) && Enabled(h, Unregister(id))
    ensures PresenceOk(Apply(h, Unregister(id)), user)
  {
    var g, c, d := Apply(h, Unregister(id)), h.conns[id], Dismissed(h, id);
    LastPresenceAppend(h.log, PresenceMessage(c.user, c.room, "offline"), user);
    assert ConnOk(h, id);
    if user != c.user {
      PresenceFrameOther(h, g, id, user);
    } else {
      UnregisterOwn(h, id);
    }
  }

  ghost predicate SameButGrown(h: Hub, g: Hub) {
    && g.log == h.log && g.clients <= h.clients && h.conns.Keys <= g.conns.Keys
    && (forall id :: id in g.conns && g.conns[id].registered ==> id in h.conns)
    && forall id :: id in h.conns ==>
         && g.conns[id].user == h.conns[id].user
         && g.conns[id].registered == h.conns[id].registered
         && g.conns[id].unregistered == h.conns[id].unregistered
  }

  lemma SamePeople(h: Hub, a: Action)
    requires h.clients <= h.conns.Keys && Enabled(h, a) && !a.Register? && !a.Unregister? && !a.Incoming?
    ensures SameButGrown(h, Apply(h, a)) && Connected(Apply(h, a)) <= Connected(h)
    ensures !a.Evict? && !a.StopSignal? ==> Connected(Apply(h, a)) == Connected(h)
  {
    if !a.Evict? && !a.StopSignal? {
      SamePeopleOpen(h, a);
    }
    SameConnected(h, Apply(h, a));
  }

  lemma SamePeopleOpen(h: Hub, a: Action)
    requires h.clients <= h.conns.Keys && Enabled(h, a)
    requires a.Connect? || a.Offer? || a.Drain? || a.Caution? || a.Expire? || a.IdleTimeout? || a.Restart?
    ensures SameButGrown(h, Apply(h, a)) && Apply(h, a).clients == h.clients
  {
  }

  lemma SameConnected(h: Hub, g: Hub)
    requires h.clients <= h.conns.Keys && SameButGrown(h, g)
    ensures Connected(g) <= Connected(h)
    ensures g.clients == h.clients ==> Connected(g) == Connected(h)
  {
  }

  lemma PresenceKept(h: Hub, a: Action, user: string)
    requires Inv(h) && PresenceOk(h, user) && Enabled(h, a)
    ensures PresenceOk(Apply(h, a), user)
  {
    var g := Apply(h, a);
    match a {
      case Register(id) => RegisterPresence(h, id, user);
      case Unregister(id) => UnregisterPresence(h, id, user);
      case Incoming(m) =>
        LastPresenceAppend(h.log, m, user);
        PresenceFrame(h, g, user);
      case _ =>
        SamePeople(h, a);
        PresenceFrame(h, g, user);
    }
  }

  // While a user has a connection in Clients the last PRESENCE event logged for
  // them says online; once every connection they registered has been
  // unregistered it says offline.
  lemma {:induction false} MultiTabPresence(hs: seq<Hub>, acts: seq<Action>, i: nat, user: string)
    requires IsRun(hs, acts) && i < |hs|
    ensures user in Connected(hs[i]) ==> LastPresence(hs[i].log, user) == Known("online")
    ensures HasRegistered(hs[i], user) && AllUnregistered(hs[i], user) ==> LastPresence(hs[i].log, user) == Known("offline")
  {
    if i > 0 {
      MultiTabPresence(hs, acts, i - 1, user);
      InvHolds(hs, acts, i - 1);
      assert Enabled(hs[i - 1], acts[i - 1]);
      PresenceKept(hs[i - 1], acts[i - 1], user);
    }
  }

  // ---- the Redis set of online users

  lemma OnlineKept(h: Hub, a: Action)
    requires Inv(h) && Enabled(h, a) && !a.StopSignal?
    requires h.online == Connected(h) - h.dark
    ensures Apply(h, a).online == Connected(Apply(h, a)) - Apply(h, a).dark
  {
    var g := Apply(h, a);
    match a {
      case Register(id) => RegisterConnects(h, id);
      case Unregister(id) => UnregisterOnline(h, id);
      case Evict => EvictOnline(h);
      case Incoming(_) => assert Connected(g) == Connected(h);
      case _ => SamePeople(h, a);
    }
  }

  lemma RegisterConnects(h: Hub, id: nat)
    requires h.clients <= h.conns.Keys && Enabled(h, Register(id))
    ensures Connected(Apply(h, Register(id))) == Connected(h) + {h.conns[id].user}
  {
  }

  lemma UnregisterOnline(h: Hub, id: nat)
    requires Inv(h) && Enabled(h, Unregister(id)) && h.online == Connected(h) - h.dark
    ensures Apply(h, Unregister(id)).online == Connected(Apply(h, Unregister(id))) - Apply(h, Unregister(id)).dark
  {
    var g, d, user := Apply(h, Unregister(id)), Dismissed(h, id), h.conns[id].user;
    assert Connected(g) == Connected(d);
    assert Connected(d) + {user} == Connected(h) + {user} by {
      assert forall k :: k in h.clients && k != id ==> k in d.clients && d.conns[k].user == h.conns[k].user;
      assert forall k :: k in d.clients ==> k in h.clients && d.conns[k].user == h.conns[k].user;
    }
    if user in Connected(d) {
      var k :| k in d.clients && k in d.conns && d.conns[k].user == user;
      assert k in h.clients && h.conns[k].user == user;
      assert Connected(d) == Connected(h);
    }
  }

  lemma EvictOnline(h: Hub)
    requires Inv(h) && Enabled(h, Evict) && h.online == Connected(h) - h.dark
    ensures Apply(h, Evict).online == Connected(Apply(h, Evict)) - Apply(h, Evict).dark
  {
    var g := Apply(h, Evict);
    assert forall k :: k in g.clients ==> k in h.clients && g.conns[k].user == h.conns[k].user;
    assert forall k :: k in h.clients && k !in h.fan.slow ==> k in g.clients && g.conns[k].user == h.conns[k].user;
    assert Connected(g) <= Connected(h);
    assert Connected(h) <= Connected(g) + UsersOf(h.conns, h.fan.slow);
  }

  lemma {:induction false} OnlineUnlessDark(hs: seq<Hub>, acts: seq<Action>, i: nat)
    requires IsRun(hs, acts) && i < |hs|
    requires forall k :: 0 <= k < i ==> !acts[k].StopSignal?
    ensures hs[i].online == Connected(hs[i]) - hs[i].dark
  {
    if i > 0 {
      OnlineUnlessDark(hs, acts, i - 1);
      InvHolds(hs, acts, i - 1);
      assert Enabled(hs[i - 1], acts[i - 1]);
      OnlineKept(hs[i - 1], acts[i - 1]);
    }
  }

  // The step withdraws the user's presence entry: it evicts one of their tabs, or the
  // entry expires.
  predicate Withdraws(h: Hub, a: Action, user: string) {
    a == Expire(user) || (a.Evict? && h.fan.Sending? && user in UsersOf(h.conns, h.fan.slow))
  }

  predicate Registers(h: Hub, a: Action, user: string) {
    a.Register? && a.id in h.conns && h.conns[a.id].user == user
  }

  // Of the steps so far that withdrew the user's entry or registered a tab of theirs,
  // the last one withdrew it.
  predicate Withdrawn(hs: seq<Hub>, acts: seq<Action>, i: nat, user: string)
    requires i < |hs| == |acts| + 1
  {
    i > 0 &&
    (Withdraws(hs[i - 1], acts[i - 1], user)
     || (!Registers(hs[i - 1], acts[i - 1], user) && Withdrawn(hs, acts, i - 1, user)))
  }

  lemma {:induction false} DarkExactly(hs: seq<Hub>, acts: seq<Action>, i: nat, user: string)
    requires IsRun(hs, acts) && i < |hs|
    ensures user in hs[i].dark <==> Withdrawn(hs, acts, i, user)
  {
    if i > 0 {
      DarkExactly(hs, acts, i - 1, user);
      assert Enabled(hs[i - 1], acts[i - 1]);
    }
  }

  // On one server, without forced stops, a user is in the Redis online set if and
  // only if they have a connection in the hub and no tab of theirs was evicted, and
  // their entry did not expire, since one of their tabs last registered. In
  // particular the set never holds a user without a connection, across evictions and
  // idle restarts.
  lemma OnlineExactly(hs: seq<Hub>, acts: seq<Action>, i: nat, user: string)
    requires IsRun(hs, acts) && i < |hs|
    requires forall k :: 0 <= k < i ==> !acts[k].StopSignal?
    ensures user in hs[i].online <==> user in Connected(hs[i]) && !Withdrawn(hs, acts, i, user)
  {
    OnlineUnlessDark(hs, acts, i);
    DarkExactly(hs, acts, i, user);
  }

  // Equality with the connected users fails for one reason: a user who stays
  // connected is missing from Redis after an eviction exactly when they were
  // missing before it or one of their tabs was among the evicted.
  lemma EvictionHidesOtherTabs(h: Hub, user: string)
    requires Inv(h) && Enabled(h, Evict) && user in Connected(Apply(h, Evict))
    ensures user !in Apply(h, Evict).online <==>
              user !in h.online || exists id :: id in h.fan.slow && h.conns[id].user == user
  {
  }
}
