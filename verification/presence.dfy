// Presence and typing state in Redis: a SET of users per room plus one key with a
// time to live per user, cleaned up lazily when somebody asks. Both kinds of
// state are the same structure with a different lifetime.
module Presence {
  import opened Seqs

  const PRESENCE_TTL: nat := 300   // typing marks live for 5
  const PING_PERIOD: nat := 54

  // ---- keys

  const USER_PREFIX := "presence:user:"

  function UserKey(room: string, user: string): string {
    USER_PREFIX + room + ":" + user
  }

  // Room ids are hexadecimal object ids, without a colon; then no two rooms and
  // no two users share a key, and one room can be studied alone.
  lemma KeysDoNotCollide(room: string, user: string, room': string, user': string)
    requires ':' !in room && ':' !in room'
    ensures UserKey(room, user) == UserKey(room', user') <==> room == room' && user == user'
  {
    if UserKey(room, user) == UserKey(room', user') {
      var k := UserKey(room, user);
      var p := |USER_PREFIX|;
      assert k[p..] == room + ":" + user && k[p..] == room' + ":" + user';
      var t := k[p..];
      assert t[|room|] == ':' && t[|room'|] == ':';
      assert forall i :: 0 <= i < |room| ==> t[i] == room[i] && room[i] != ':';
      assert forall i :: 0 <= i < |room'| ==> t[i] == room'[i] && room'[i] != ':';
      assert room == t[..|room|] && room' == t[..|room'|];
      assert user == t[|room| + 1..] && user' == t[|room'| + 1..];
    }
  }

  // ---- one room

  // `keys` maps a user to the time at which the key disappears.
  datatype Redis = Redis(now: nat, members: set<string>, keys: map<string, nat>)

  datatype Op =
    | SetOnline(user: string)
    | SetOffline(user: string)
    | Refresh(user: string)
    | Pass(seconds: nat)
    | Reap(user: string)     // Redis drops an expired key
    | GetUsers

  function Live(r: Redis): set<string> {
    set u | u in r.keys && r.now < r.keys[u]
  }

  function Step(r: Redis, op: Op, ttl: nat): Redis {
    match op
    case SetOnline(u) => r.(members := r.members + {u}, keys := r.keys[u := r.now + ttl])
    case SetOffline(u) => r.(members := r.members - {u}, keys := r.keys - {u})
    case Refresh(u) => if u in Live(r) then r.(keys := r.keys[u := r.now + ttl]) else r
    case Pass(d) => r.(now := r.now + d)
    case Reap(u) => if u in Live(r) then r else r.(keys := r.keys - {u})
    case GetUsers => r.(members := r.members * Live(r))
  }

  function Answer(r: Redis): set<string> {
    r.members * Live(r)
  }

  // What users mean by it: each has a deadline, and asking changes nothing.
  datatype Spec = Spec(now: nat, deadline: map<string, nat>)

  function Present(s: Spec): set<string> {
    set u | u in s.deadline && s.now < s.deadline[u]
  }

  function SpecStep(s: Spec, op: Op, ttl: nat): Spec {
    match op
    case SetOnline(u) => s.(deadline := s.deadline[u := s.now + ttl])
    case SetOffline(u) => s.(deadline := s.deadline - {u})
    case Refresh(u) => if u in Present(s) then s.(deadline := s.deadline[u := s.now + ttl]) else s
    case Pass(d) => s.(now := s.now + d)
    case Reap(_) => s
    case GetUsers => s
  }

  ghost predicate Refines(r: Redis, s: Spec) {
    && r.now == s.now
    && Live(r) <= r.members
    && Live(r) == Present(s)
    && forall u :: u in Live(r) ==> r.keys[u] == s.deadline[u]
  }

  lemma StepRefines(r: Redis, s: Spec, op: Op, ttl: nat)
    requires Refines(r, s)
    ensures Refines(Step(r, op, ttl), SpecStep(s, op, ttl))
    ensures Answer(r) == Present(s)
  {
    var r', s' := Step(r, op, ttl), SpecStep(s, op, ttl);
    forall u ensures u in Live(r') <==> u in Present(s') {
      assert u in Live(r) <==> u in Present(s);
    }
    forall u | u in Live(r') ensures u in r'.members && r'.keys[u] == s'.deadline[u] {
      assert u in Live(r) || (op.SetOnline? && u == op.user);
    }
  }

  function Run(r: Redis, ops: seq<Op>, ttl: nat): Redis {
    if ops == [] then r else Step(Run(r, ops[..|ops| - 1], ttl), ops[|ops| - 1], ttl)
  }

  function SpecRun(s: Spec, ops: seq<Op>, ttl: nat): Spec {
    if ops == [] then s else SpecStep(SpecRun(s, ops[..|ops| - 1], ttl), ops[|ops| - 1], ttl)
  }

  // For every sequence of calls, passing time and expiries, GetOnlineUsers (or
  // GetTypingUsers) answers exactly the users whose deadline has not passed, live
  // keys lie inside the SET, and cleaning up is invisible.
  lemma {:induction false} PresenceRefines(ops: seq<Op>, ttl: nat)
    ensures var r, s := Run(Redis(0, {}, map[]), ops, ttl), SpecRun(Spec(0, map[]), ops, ttl);
            Refines(r, s) && Answer(r) == Present(s)
  {
    if ops == [] {
      StepRefines(Redis(0, {}, map[]), Spec(0, map[]), Pass(0), ttl);
    } else {
      PresenceRefines(ops[..|ops| - 1], ttl);
      var r := Run(Redis(0, {}, map[]), ops[..|ops| - 1], ttl);
      var s := SpecRun(Spec(0, map[]), ops[..|ops| - 1], ttl);
      StepRefines(r, s, ops[|ops| - 1], ttl);
      StepRefines(Run(Redis(0, {}, map[]), ops, ttl), SpecRun(Spec(0, map[]), ops, ttl), Pass(0), ttl);
    }
  }

  // Left alone after an announcement, a user is reported for exactly the lifetime of
  // the key, whatever others do and however often somebody asks.
  lemma {:induction false} ExpiresExactly(r: Redis, user: string, ops: seq<Op>, ttl: nat)
    requires forall k :: 0 <= k < |ops| ==> ops[k] != SetOnline(user) && ops[k] != SetOffline(user) && ops[k] != Refresh(user)
    ensures var q := Run(Step(r, SetOnline(user), ttl), ops, ttl);
            && (user in Answer(q) <==> q.now < r.now + ttl)
            && r.now <= q.now && (user in q.keys ==> q.keys[user] == r.now + ttl)
  {
    if ops != [] {
      ExpiresExactly(r, user, ops[..|ops| - 1], ttl);
    }
  }

  // The time that has passed since the user was last announced or refreshed.
  function Silence(ops: seq<Op>, user: string): nat {
    if ops == [] then 0
    else
      match ops[|ops| - 1]
      case SetOnline(u) => if u == user then 0 else Silence(ops[..|ops| - 1], user)
      case Refresh(u) => if u == user then 0 else Silence(ops[..|ops| - 1], user)
      case Pass(d) => Silence(ops[..|ops| - 1], user) + d
      case _ => Silence(ops[..|ops| - 1], user)
  }

  ghost predicate AlwaysReported(r: Redis, ops: seq<Op>, user: string, ttl: nat) {
    forall k :: 0 <= k <= |ops| ==> user in Answer(Run(r, ops[..k], ttl))
  }

  ghost predicate NeverSilent(ops: seq<Op>, user: string, ttl: nat) {
    forall k :: 0 <= k <= |ops| ==> Silence(ops[..k], user) < ttl
  }

  // writePump refreshes at every ping, 54 seconds apart. Whatever others do and ask
  // meanwhile, a user who is not set offline is reported at every moment if and only
  // if no silence reaches the lifetime of the key.
  lemma {:induction false} PingsKeepOnlineExactly(r: Redis, user: string, ops: seq<Op>, ttl: nat)
    requires Announced(r, user, ttl, 0)
    requires forall k :: 0 <= k < |ops| ==> ops[k] != SetOffline(user)
    ensures AlwaysReported(r, ops, user, ttl) <==> NeverSilent(ops, user, ttl)
    ensures NeverSilent(ops, user, ttl) ==> Announced(Run(r, ops, ttl), user, ttl, Silence(ops, user))
  {
    if ops == [] {
      assert ops[..0] == [];
    } else {
      var init, last := ops[..|ops| - 1], ops[|ops| - 1];
      PingsKeepOnlineExactly(r, user, init, ttl);
      OneMomentMore(r, ops, user, ttl);
      if NeverSilent(init, user, ttl) {
        assert init[..|init|] == init;
        AnnouncedMoves(Run(r, init, ttl), user, ttl, Silence(init, user), last);
      }
    }
  }

  lemma OneMomentMore(r: Redis, ops: seq<Op>, user: string, ttl: nat)
    requires ops != []
    ensures var init := ops[..|ops| - 1];
            && (AlwaysReported(r, ops, user, ttl) <==> AlwaysReported(r, init, user, ttl) && user in Answer(Run(r, ops, ttl)))
            && (NeverSilent(ops, user, ttl) <==> NeverSilent(init, user, ttl) && Silence(ops, user) < ttl)
  {
    var init := ops[..|ops| - 1];
    assert forall k :: 0 <= k <= |init| ==> ops[..k] == init[..k];
    assert ops[..|ops|] == ops;
  }

  // As configured, even four pings in a row may fail.
  lemma PingsKeepOnline(r: Redis, user: string, ops: seq<Op>)
    requires Announced(r, user, PRESENCE_TTL, 0)
    requires forall k :: 0 <= k < |ops| ==> ops[k] != SetOffline(user)
    requires forall k :: 0 <= k <= |ops| ==> Silence(ops[..k], user) <= 5 * PING_PERIOD
    ensures AlwaysReported(r, ops, user, PRESENCE_TTL)
  {
    PingsKeepOnlineExactly(r, user, ops, PRESENCE_TTL);
  }

  // The user's key has `silence` of its lifetime behind it.
  ghost predicate Announced(q: Redis, user: string, ttl: nat, silence: nat) {
    user in q.members && user in q.keys && q.keys[user] + silence == q.now + ttl
  }

  lemma AnnouncedMoves(q: Redis, user: string, ttl: nat, silence: nat, op: Op)
    requires Announced(q, user, ttl, silence) && silence < ttl && op != SetOffline(user)
    ensures var t := match op
                     case SetOnline(u) => if u == user then 0 else silence
                     case Refresh(u) => if u == user then 0 else silence
                     case Pass(d) => silence + d
                     case _ => silence;
            Announced(Step(q, op, ttl), user, ttl, t) && (user in Answer(Step(q, op, ttl)) <==> t < ttl)
  {
  }

  // ---- a query is three round trips

  // SMEMBERS, a pipeline of EXISTS and the final SREM are separate commands, so
  // other servers can act between the EXISTS and the SREM of a stale user.
  function Sweep(r: Redis, stale: set<string>): Redis {
    r.(members := r.members - stale)
  }

  // The last SetOnline or SetOffline of the user is a SetOnline.
  predicate CameOnline(ops: seq<Op>, user: string) {
    ops != [] &&
    match ops[|ops| - 1]
    case SetOnline(u) => u == user || CameOnline(ops[..|ops| - 1], user)
    case SetOffline(u) => u != user && CameOnline(ops[..|ops| - 1], user)
    case _ => CameOnline(ops[..|ops| - 1], user)
  }

  // Over any calls only that can bring a user back whose key was gone, and within
  // the lifetime of a key it does.
  lemma {:induction false} LiveAgainExactly(r: Redis, ops: seq<Op>, ttl: nat, user: string)
    requires user !in Live(r)
    ensures var q := Run(r, ops, ttl);
            && r.now <= q.now
            && (user in Live(q) ==> CameOnline(ops, user))
            && (q.now - r.now < ttl ==> (user in Live(q) <==> CameOnline(ops, user)))
            && (CameOnline(ops, user) && q.now - r.now < ttl ==> q.keys[user] >= r.now + ttl)
  {
    if ops != [] {
      LiveAgainExactly(r, ops[..|ops| - 1], ttl, user);
    }
  }

  // With less than a key's lifetime between EXISTS and SREM, the sweep keeps live
  // keys inside the SET if and only if no user found stale has come online since.
  lemma SweepSafeExactly(r: Redis, ops: seq<Op>, ttl: nat, stale: set<string>)
    requires Live(r) <= r.members && stale !! Live(r) && Run(r, ops, ttl).now < r.now + ttl
    ensures var q := Run(r, ops, ttl);
            Live(q) <= Sweep(q, stale).members <==> forall u :: u in stale ==> !CameOnline(ops, u)
  {
    var q := Run(r, ops, ttl);
    LiveInside(r, ops, ttl);
    forall u | u in stale ensures u in Live(q) <==> CameOnline(ops, u) {
      LiveAgainExactly(r, ops, ttl, u);
    }
    if u :| u in stale && CameOnline(ops, u) {
      assert u in Live(q) && u !in Sweep(q, stale).members;
    }
  }

  lemma {:induction false} LiveInside(r: Redis, ops: seq<Op>, ttl: nat)
    requires Live(r) <= r.members
    ensures Live(Run(r, ops, ttl)) <= Run(r, ops, ttl).members
  {
    if ops != [] {
      LiveInside(r, ops[..|ops| - 1], ttl);
    }
  }

  // Such a user has a live key that nobody will report: after the sweep they appear
  // in an answer only if they are set online once more, however often the key is
  // refreshed.
  lemma SweptUserStaysHidden(r: Redis, ops: seq<Op>, stale: set<string>, later: seq<Op>, ttl: nat, user: string)
    requires user in stale && stale !! Live(r) && Run(r, ops, ttl).now < r.now + ttl && CameOnline(ops, user)
    ensures user in Live(Run(r, ops, ttl))
    ensures var swept := Sweep(Run(r, ops, ttl), stale);
            user in Answer(Run(swept, later, ttl)) ==> SetOnline(user) in later
  {
    LiveAgainExactly(r, ops, ttl, user);
    if SetOnline(user) !in later {
      OutsideStays(Sweep(Run(r, ops, ttl), stale), later, ttl, user);
    }
  }

  lemma {:induction false} OutsideStays(q: Redis, later: seq<Op>, ttl: nat, user: string)
    requires user !in q.members && SetOnline(user) !in later
    ensures user !in Run(q, later, ttl).members
  {
    if later != [] {
      OutsideStays(q, later[..|later| - 1], ttl, user);
      assert later[|later| - 1] in later;
    }
  }

  // ---- the code

  class RoomPresence {
    const ttl: nat
    var now: nat
    var members: set<string>
    var keys: map<string, nat>

    function State(): Redis
      reads this
    {
      Redis(now, members, keys)
    }

    constructor (ttl: nat)
      ensures this.ttl == ttl && State() == Redis(0, {}, map[])
    {
      this.ttl := ttl;
      now, members, keys := 0, {}, map[];
    }

    // EXISTS
    predicate Exists(user: string)
      reads this
    {
      user in keys && now < keys[user]
    }

    method GoOnline(user: string)
      modifies this
      ensures State() == Step(old(State()), SetOnline(user), ttl)
      ensures members == old(members) + {user} && keys == old(keys)[user := now + ttl] && now == old(now)
    {
      members := members + {user};
      keys := keys[user := now + ttl];
    }

    method GoOffline(user: string)
      modifies this
      ensures State() == Step(old(State()), SetOffline(user), ttl)
      ensures user !in members && user !in keys && members == old(members) - {user} && keys == old(keys) - {user}
    {
      members := members - {user};
      keys := keys - {user};
    }

    // EXPIRE acts on an existing key only.
    method RefreshOnline(user: string)
      modifies this
      ensures State() == Step(old(State()), Refresh(user), ttl)
      ensures members == old(members) && now == old(now)
      ensures keys == if user in old(keys) && now < old(keys)[user] then old(keys)[user := now + ttl] else old(keys)
    {
      if Exists(user) {
        keys := keys[user := now + ttl];
      }
    }

    // GetOnlineUsers and GetTypingUsers.
    method GetActiveUsers() returns (active: seq<string>)
      modifies this
      ensures State() == Step(old(State()), GetUsers, ttl)
      ensures Distinct(active) && forall u :: u in active <==> u in Answer(old(State()))
      ensures forall u :: u in active <==> u in old(members) && u in keys && now < keys[u]
      ensures keys == old(keys) && forall u :: u in members <==> u in active
    {
      var listed := members;
      active := [];
      var stale: set<string> := {};
      while listed != {}
        invariant listed <= members && State() == old(State())
        invariant forall u :: u in active <==> u in members - listed && Exists(u)
        invariant stale == set u | u in members - listed && !Exists(u)
        invariant Distinct(active)
        decreases listed
      {
        var username :| username in listed;
        listed := listed - {username};
        if Exists(username) {
          active := active + [username];
        } else {
          stale := stale + {username};
        }
      }
      assert members - stale == Answer(State());
      if stale != {} {
        members := members - stale;
      }
    }
  }
}
