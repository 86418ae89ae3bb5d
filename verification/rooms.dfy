// Chat rooms in MongoDB: membership, capacity and ownership. A conditional
// update of one document is one atomic step.
module Rooms {
  import opened Seqs

  datatype Room = Room(name: string, members: seq<string>, createdBy: string, maxMembers: nat, isDefault: bool)

  datatype Store = Store(rooms: map<nat, Room>, next: nat)

  datatype Result = Done | DuplicateName | NotFound | Forbidden | IsDefaultRoom | Full

  datatype Op =
    | Create(user: string, name: string, maxMembers: nat)
    | Join(id: nat, user: string)
    | Leave(id: nat, user: string)
    | Delete(id: nat, user: string)
    | AdminDelete(id: nat)

  const DEFAULT_NAME := "general"
  const DEFAULT_ROOM := Room(DEFAULT_NAME, [], "system", 0, true)

  predicate NameTaken(s: Store, name: string) {
    exists id :: id in s.rooms && s.rooms[id].name == name
  }

  // $pull: every occurrence goes, the others keep their order.
  function Without(members: seq<string>, user: string): seq<string> {
    if members == [] then []
    else
      var last := members[|members| - 1];
      Without(members[..|members| - 1], user) + (if last != user then [last] else [])
  }

  predicate HasSpace(r: Room) {
    r.maxMembers == 0 || |r.members| < r.maxMembers
  }

  // $addToSet
  function Added(members: seq<string>, user: string): seq<string> {
    if user in members then members else members + [user]
  }

  // ---- the operations, each taken as one step

  function EnsureDefault(s: Store): Store {
    if exists id :: id in s.rooms && DefaultAt(s, id) then s
    else if NameTaken(s, DEFAULT_NAME) then s
    else Store(s.rooms[s.next := DEFAULT_ROOM], s.next + 1)
  }

  function Left(r: Room, user: string): Room {
    var rest := Without(r.members, user);
    if r.createdBy == user && !r.isDefault && rest != [] then r.(members := rest, createdBy := rest[0])
    else r.(members := rest)
  }

  function Outcome(s: Store, op: Op): Result {
    match op
    case Create(_, name, _) => if NameTaken(s, name) then DuplicateName else Done
    case Join(id, user) =>
      if id !in s.rooms then Full
      else if user in s.rooms[id].members || HasSpace(s.rooms[id]) then Done else Full
    case Leave(id, _) => if id in s.rooms then Done else NotFound
    case Delete(id, user) =>
      if id !in s.rooms then NotFound
      else if s.rooms[id].isDefault then IsDefaultRoom
      else if s.rooms[id].createdBy != user then Forbidden else Done
    case AdminDelete(id) =>
      if id !in s.rooms then NotFound else if s.rooms[id].isDefault then IsDefaultRoom else Done
  }

  function Apply(s: Store, op: Op): Store {
    if Outcome(s, op) != Done then s
    else
      match op
      case Create(user, name, max) =>
        Store(s.rooms[s.next := Room(name, [user], user, if max == 0 then 100 else max, false)], s.next + 1)
      case Join(id, user) => s.(rooms := s.rooms[id := s.rooms[id].(members := Added(s.rooms[id].members, user))])
      case Leave(id, user) =>
        var r := s.rooms[id];
        if r.createdBy == user && !r.isDefault && Without(r.members, user) == [] then s.(rooms := s.rooms - {id})
        else s.(rooms := s.rooms[id := Left(r, user)])
      case Delete(id, _) => s.(rooms := s.rooms - {id})
      case AdminDelete(id) => s.(rooms := s.rooms - {id})
  }

  function Run(s: Store, ops: seq<Op>): Store {
    if ops == [] then s else Apply(Run(s, ops[..|ops| - 1]), ops[|ops| - 1])
  }

  // ---- ownership

  ghost predicate RoomOk(r: Room) {
    && Distinct(r.members)
    && (r.maxMembers == 0 || |r.members| <= r.maxMembers)
    && (!r.isDefault ==> r.members != [] && r.createdBy in r.members)
  }

  predicate DefaultAt(s: Store, id: nat) {
    id in s.rooms && s.rooms[id].isDefault
  }

  ghost predicate OneDefault(s: Store) {
    && (exists id :: DefaultAt(s, id))
    && forall i, j :: DefaultAt(s, i) && DefaultAt(s, j) ==> i == j
  }

  ghost predicate Inv(s: Store) {
    && (forall id :: id in s.rooms ==> id < s.next && RoomOk(s.rooms[id]))
    && OneDefault(s)
  }

  lemma {:induction false} WithoutMembers(members: seq<string>, user: string)
    ensures forall m :: m in Without(members, user) <==> m in members && m != user
    ensures |Without(members, user)| <= |members|
  {
    if members != [] {
      WithoutMembers(members[..|members| - 1], user);
      assert members == members[..|members| - 1] + [members[|members| - 1]];
    }
  }

  lemma {:induction false} WithoutDistinct(members: seq<string>, user: string)
    requires Distinct(members)
    ensures Distinct(Without(members, user))
  {
    if members != [] {
      var init, last := members[..|members| - 1], members[|members| - 1];
      WithoutDistinct(init, user);
      WithoutMembers(init, user);
      assert last !in init;
      var rest := Without(init, user);
      assert forall i :: 0 <= i < |rest| ==> rest[i] in rest;
    }
  }

  // The first of those who remain is the earliest member other than the leaver.
  lemma {:induction false} WithoutFirst(members: seq<string>, user: string)
    requires Without(members, user) != []
    ensures exists k :: 0 <= k < |members| && members[k] == Without(members, user)[0] != user
                        && forall j :: 0 <= j < k ==> members[j] == user
  {
    var init, n := members[..|members| - 1], |members| - 1;
    if Without(init, user) == [] {
      WithoutMembers(init, user);
      assert forall j :: 0 <= j < n ==> members[j] == init[j] && init[j] in init;
      assert members[n] == Without(members, user)[0];
    } else {
      WithoutFirst(init, user);
      var k :| 0 <= k < |init| && init[k] == Without(init, user)[0] != user && forall j :: 0 <= j < k ==> init[j] == user;
      assert members[k] == init[k] && forall j :: 0 <= j < k ==> members[j] == init[j];
    }
  }

  lemma DefaultStays(s: Store, t: Store)
    requires OneDefault(s)
    requires forall id :: DefaultAt(s, id) <==> DefaultAt(t, id)
    ensures OneDefault(t)
  {
  }

  lemma LeaveOk(r: Room, user: string)
    requires RoomOk(r) && !(r.createdBy == user && !r.isDefault && Without(r.members, user) == [])
    ensures RoomOk(Left(r, user))
  {
    WithoutMembers(r.members, user);
    WithoutDistinct(r.members, user);
    if !r.isDefault && r.createdBy != user {
      assert r.createdBy in Without(r.members, user);
    }
  }

  lemma InvKept(s: Store, op: Op)
    requires Inv(s)
    ensures Inv(Apply(s, op))
  {
    var t := Apply(s, op);
    if Outcome(s, op) == Done {
      if op.Leave? && op.id in t.rooms {
        LeaveOk(s.rooms[op.id], op.user);
      }
      DefaultStays(s, t);
    }
  }

  lemma StartOk()
    ensures Inv(EnsureDefault(Store(map[], 0)))
  {
    var e := Store(map[], 0);
    assert !NameTaken(e, DEFAULT_NAME) && !exists id :: DefaultAt(e, id);
    var s := EnsureDefault(e);
    assert s.rooms.Keys == {0} && s.rooms[0] == DEFAULT_ROOM && s.next == 1;
    assert RoomOk(s.rooms[0]) && DefaultAt(s, 0);
  }

  // In every run of atomic operations: each room other than the default one is
  // non-empty, has its owner among its members, no member twice and no more than
  // its limit, and exactly one default room exists.
  lemma {:induction false} Ownership(ops: seq<Op>)
    ensures Inv(Run(EnsureDefault(Store(map[], 0)), ops))
  {
    if ops == [] {
      StartOk();
    } else {
      Ownership(ops[..|ops| - 1]);
      InvKept(Run(EnsureDefault(Store(map[], 0)), ops[..|ops| - 1]), ops[|ops| - 1]);
    }
  }

  // Members stand in the order they joined: one step drops some or appends one.
  lemma JoinOrderKept(s: Store, op: Op, id: nat)
    requires Inv(s) && id in s.rooms && id in Apply(s, op).rooms
    ensures var m, n := s.rooms[id].members, Apply(s, op).rooms[id].members;
            n == m || (op.Join? && n == m + [op.user] && op.user !in m) || (op.Leave? && n == Without(m, op.user))
  {
  }

  // When the owner leaves, the room passes to the first other member, or vanishes
  // when there is none; nobody else's leaving changes hands.
  lemma OwnerHandsOver(s: Store, id: nat, user: string)
    requires Inv(s) && id in s.rooms && !s.rooms[id].isDefault
    ensures var t, r := Apply(s, Leave(id, user)), s.rooms[id];
            && (user != r.createdBy ==> id in t.rooms && t.rooms[id].createdBy == r.createdBy)
            && (user == r.createdBy ==>
                  (id !in t.rooms <==> forall m :: m in r.members ==> m == user)
                  && (id in t.rooms ==>
                        user !in t.rooms[id].members
                        && exists k :: 0 <= k < |r.members| && t.rooms[id].createdBy == r.members[k] != user
                                       && forall j :: 0 <= j < k ==> r.members[j] == user))
  {
    WithoutMembers(s.rooms[id].members, user);
    var rest := Without(s.rooms[id].members, user);
    if rest == [] {
      assert forall m :: m in s.rooms[id].members ==> m == user by {
        assert forall m :: m in s.rooms[id].members && m != user ==> m in rest;
      }
    } else {
      WithoutFirst(s.rooms[id].members, user);
      assert rest[0] in rest;
    }
  }

  // ---- what each operation does, field by field

  // A join succeeds exactly when the room exists and has the user or room for them. A
  // newcomer then stands last; nothing else changes, and nothing at all otherwise.
  lemma WhatJoinDoes(s: Store, id: nat, user: string)
    ensures var t := Apply(s, Join(id, user));
            var allowed := id in s.rooms && (user in s.rooms[id].members || s.rooms[id].maxMembers == 0
                                             || |s.rooms[id].members| < s.rooms[id].maxMembers);
            && (Outcome(s, Join(id, user)) == Done <==> allowed)
            && (!allowed || user in s.rooms[id].members ==> t == s)
            && (allowed && user !in s.rooms[id].members ==>
                  && t.rooms.Keys == s.rooms.Keys && t.next == s.next
                  && t.rooms[id] == s.rooms[id].(members := s.rooms[id].members + [user])
                  && forall k :: k in s.rooms && k != id ==> t.rooms[k] == s.rooms[k])
  {
  }

  // A creation succeeds exactly when the name is free, and adds one room with its
  // creator as owner and only member and the limit asked for, or 100.
  lemma WhatCreateDoes(s: Store, user: string, name: string, maxMembers: nat)
    requires forall id :: id in s.rooms ==> id < s.next
    ensures var t := Apply(s, Create(user, name, maxMembers));
            var free := forall id :: id in s.rooms ==> s.rooms[id].name != name;
            && (Outcome(s, Create(user, name, maxMembers)) == if free then Done else DuplicateName)
            && (!free ==> t == s)
            && (free ==>
                  && s.next !in s.rooms && t.rooms.Keys == s.rooms.Keys + {s.next} && t.next == s.next + 1
                  && t.rooms[s.next] == Room(name, [user], user, if maxMembers == 0 then 100 else maxMembers, false)
                  && forall k :: k in s.rooms ==> t.rooms[k] == s.rooms[k])
  {
  }

  // A room vanishes exactly when it is not the default one and an administrator
  // deletes it, its owner deletes it, or its owner leaves it as the last member.
  lemma VanishesExactly(s: Store, op: Op, id: nat)
    requires id in s.rooms
    ensures var r := s.rooms[id];
            id !in Apply(s, op).rooms <==>
              !r.isDefault && (op == AdminDelete(id) || op == Delete(id, r.createdBy)
                               || (op == Leave(id, r.createdBy) && forall m :: m in r.members ==> m == r.createdBy))
  {
    if op.Leave? && op.id == id {
      WithoutMembers(s.rooms[id].members, op.user);
      var rest := Without(s.rooms[id].members, op.user);
      if rest != [] {
        assert rest[0] in rest;
      }
    }
  }

  // What a deletion reports, and that an operation touches the room it names only.
  lemma WhatDeletionsDo(s: Store, id: nat, user: string, k: nat)
    ensures Outcome(s, Delete(id, user)) ==
              if id !in s.rooms then NotFound else if s.rooms[id].isDefault then IsDefaultRoom
              else if s.rooms[id].createdBy == user then Done else Forbidden
    ensures Outcome(s, AdminDelete(id)) ==
              if id !in s.rooms then NotFound else if s.rooms[id].isDefault then IsDefaultRoom else Done
    ensures forall op :: op in [Join(id, user), Leave(id, user), Delete(id, user), AdminDelete(id)] && k != id ==>
              var t := Apply(s, op);
              (k in t.rooms <==> k in s.rooms) && (k in s.rooms ==> t.rooms[k] == s.rooms[k]) && t.next == s.next
  {
  }

  // A leave takes the user, and nobody else, out of the members, and changes no other
  // field but the owner's.
  lemma WhatLeaveDoes(s: Store, id: nat, user: string)
    requires id in s.rooms && id in Apply(s, Leave(id, user)).rooms
    ensures var r, t := s.rooms[id], Apply(s, Leave(id, user)).rooms[id];
            && (forall m :: m in t.members <==> m in r.members && m != user)
            && t == r.(members := t.members, createdBy := t.createdBy)
            && (user != r.createdBy || r.isDefault ==> t.createdBy == r.createdBy)
  {
    WithoutMembers(s.rooms[id].members, user);
  }

  // ---- the same calls with their database round trips interleaved

  datatype Call =
    | Joining(id: nat, user: string)                     // the membership check found nobody
    | Reading(id: nat, user: string, snapshot: Room)     // LeaveRoom has read the room
    | Pulled(id: nat, user: string, snapshot: Room)      // ... and removed the member
    | Deleting(id: nat)                                  // the room was not the default one

  datatype System = System(store: Store, calls: map<nat, Call>)

  datatype Step =
    | Whole(op: Op)
    | JoinCheck(p: nat, id: nat, user: string)
    | JoinUpdate(p: nat)
    | LeaveRead(p: nat, id: nat, user: string)
    | LeavePull(p: nat)
    | LeaveFinish(p: nat)
    | DeleteRead(p: nat, id: nat)
    | DeleteFinish(p: nat)

  predicate Enabled(y: System, e: Step) {
    match e
    case Whole(op) => op.Create?
    case JoinCheck(p, _, _) => p !in y.calls
    case JoinUpdate(p) => p in y.calls && y.calls[p].Joining?
    case LeaveRead(p, id, _) => p !in y.calls && id in y.store.rooms
    case LeavePull(p) => p in y.calls && y.calls[p].Reading?
    case LeaveFinish(p) => p in y.calls && y.calls[p].Pulled?
    case DeleteRead(p, id) => p !in y.calls && id in y.store.rooms && !y.store.rooms[id].isDefault
    case DeleteFinish(p) => p in y.calls && y.calls[p].Deleting?
  }

  function Joined(s: Store, id: nat, user: string): Store {
    if id in s.rooms && HasSpace(s.rooms[id])
    then s.(rooms := s.rooms[id := s.rooms[id].(members := Added(s.rooms[id].members, user))])
    else s
  }

  function PulledFrom(s: Store, id: nat, user: string): Store
    requires id in s.rooms
  {
    s.(rooms := s.rooms[id := s.rooms[id].(members := Without(s.rooms[id].members, user))])
  }

  // The last part of LeaveRoom, decided on the room as it was read at the start.
  function HandedOver(s: Store, id: nat, user: string, snapshot: Room): Store {
    var rest := Without(snapshot.members, user);
    if snapshot.createdBy != user || snapshot.isDefault then s
    else if rest == [] then s.(rooms := s.rooms - {id})
    else if id in s.rooms then s.(rooms := s.rooms[id := s.rooms[id].(createdBy := rest[0])])
    else s
  }

  function Next(y: System, e: Step): System
    requires Enabled(y, e)
  {
    match e
    case Whole(op) => y.(store := Apply(y.store, op))
    case JoinCheck(p, id, user) =>
      if id in y.store.rooms && user in y.store.rooms[id].members then y else y.(calls := y.calls[p := Joining(id, user)])
    case JoinUpdate(p) => System(Joined(y.store, y.calls[p].id, y.calls[p].user), y.calls - {p})
    case LeaveRead(p, id, user) => y.(calls := y.calls[p := Reading(id, user, y.store.rooms[id])])
    case LeavePull(p) =>
      var c := y.calls[p];
      System(if c.id in y.store.rooms
             then PulledFrom(y.store, c.id, c.user)
             else y.store,
             y.calls[p := Pulled(c.id, c.user, c.snapshot)])
    case LeaveFinish(p) =>
      var c := y.calls[p];
      System(HandedOver(y.store, c.id, c.user, c.snapshot), y.calls - {p})
    case DeleteRead(p, id) => y.(calls := y.calls[p := Deleting(id)])
    case DeleteFinish(p) => System(y.store.(rooms := y.store.rooms - {y.calls[p].id}), y.calls - {p})
  }

  ghost predicate IsRun(ys: seq<System>, es: seq<Step>) {
    && |ys| == |es| + 1 && ys[0] == System(EnsureDefault(Store(map[], 0)), map[])
    && forall k {:trigger es[k]} :: 0 <= k < |es| ==> Enabled(ys[k], es[k]) && ys[k + 1] == Next(ys[k], es[k])
  }

  ghost predicate Bounded(s: Store) {
    forall id :: id in s.rooms ==>
      && id < s.next && Distinct(s.rooms[id].members)
      && (s.rooms[id].maxMembers == 0 || |s.rooms[id].members| <= s.rooms[id].maxMembers)
  }

  // An id that is, was, or never again will be a room other than the default one.
  predicate NeverDefault(s: Store, id: nat) {
    id < s.next && (id in s.rooms ==> !s.rooms[id].isDefault)
  }

  // No pending call will touch the existence of a default room.
  ghost predicate CallsSpareDefault(y: System) {
    forall p :: p in y.calls ==>
      && (y.calls[p].Deleting? ==> NeverDefault(y.store, y.calls[p].id))
      && ((y.calls[p].Reading? || y.calls[p].Pulled?) && !y.calls[p].snapshot.isDefault ==>
            NeverDefault(y.store, y.calls[p].id))
  }

  ghost predicate SystemInv(y: System) {
    Bounded(y.store) && OneDefault(y.store) && CallsSpareDefault(y)
  }

  lemma SystemKept(y: System, e: Step)
    requires SystemInv(y) && Enabled(y, e)
    ensures SystemInv(Next(y, e))
  {
    var z := Next(y, e);
    if e.LeavePull? && y.calls[e.p].id in y.store.rooms {
      WithoutMembers(y.store.rooms[y.calls[e.p].id].members, y.calls[e.p].user);
      WithoutDistinct(y.store.rooms[y.calls[e.p].id].members, y.calls[e.p].user);
    }
    DefaultStays(y.store, z.store);
  }

  // However the round trips of any number of joins, leaves, deletes and creates
  // interleave, no room exceeds its limit or lists a member twice, and exactly one
  // default room exists.
  lemma {:induction false} CapacityUnderConcurrency(ys: seq<System>, es: seq<Step>, k: nat)
    requires IsRun(ys, es) && k < |ys|
    ensures SystemInv(ys[k])
  {
    if k == 0 {
      StartOk();
    } else {
      CapacityUnderConcurrency(ys, es, k - 1);
      assert Enabled(ys[k - 1], es[k - 1]);
      SystemKept(ys[k - 1], es[k - 1]);
    }
  }

  // Run without interruption, the three round trips of a leave are the atomic one.
  lemma UninterruptedLeaveIsAtomic(y: System, p: nat, id: nat, user: string)
    requires p !in y.calls && id in y.store.rooms
    ensures Next(Next(Next(y, LeaveRead(p, id, user)), LeavePull(p)), LeaveFinish(p)).store == Apply(y.store, Leave(id, user))
  {
  }

  lemma UninterruptedJoinIsAtomic(y: System, p: nat, id: nat, user: string)
    requires p !in y.calls
    ensures var checked := Next(y, JoinCheck(p, id, user));
            if id in y.store.rooms && user in y.store.rooms[id].members
            then checked == y && Apply(y.store, Join(id, user)) == y.store
            else Enabled(checked, JoinUpdate(p)) && Next(checked, JoinUpdate(p)).store == Apply(y.store, Join(id, user))
  {
  }

  lemma UninterruptedDeleteIsAtomic(y: System, p: nat, id: nat)
    requires p !in y.calls && id in y.store.rooms && !y.store.rooms[id].isDefault
    ensures Next(Next(y, DeleteRead(p, id)), DeleteFinish(p)).store == Apply(y.store, AdminDelete(id))
  {
  }

  // ---- the code

  class RoomCollection {
    var rooms: map<nat, Room>
    var next: nat

    function State(): Store
      reads this
    {
      Store(rooms, next)
    }

    constructor ()
      ensures State() == EnsureDefault(Store(map[], 0))
      ensures rooms == map[0 := Room("general", [], "system", 0, true)] && next == 1
    {
      rooms, next := map[], 0;
      new;
      EnsureDefaultRoom();
    }

    // Also what a restart does to a collection that already has rooms.
    method EnsureDefaultRoom()
      modifies this
      ensures State() == EnsureDefault(old(State()))
      ensures var missing := forall id :: id in old(rooms) ==> !old(rooms)[id].isDefault && old(rooms)[id].name != "general";
              if missing then rooms == old(rooms)[old(next) := Room("general", [], "system", 0, true)] && next == old(next) + 1
              else rooms == old(rooms) && next == old(next)
    {
      if !(exists id :: id in rooms && DefaultAt(State(), id)) && !NameTaken(State(), DEFAULT_NAME) {
        rooms, next := rooms[next := Room("general", [], "system", 0, true)], next + 1;
      }
    }

    // CreateRoomHandler's room literal and CreateRoom.
    method CreateRoom(username: string, name: string, maxMembers: nat) returns (r: Result)
      modifies this
      ensures State() == Apply(old(State()), Create(username, name, maxMembers))
      ensures r == Outcome(old(State()), Create(username, name, maxMembers))
      ensures r == Done <==> forall id :: id in old(rooms) ==> old(rooms)[id].name != name
      ensures if r == Done
              then rooms == old(rooms)[old(next) :=
                     Room(name, [username], username, if maxMembers == 0 then 100 else maxMembers, false)]
              else r == DuplicateName && rooms == old(rooms)
    {
      var room := Room(name, [username], username, maxMembers, false);
      if room.maxMembers == 0 {
        room := room.(maxMembers := 100);
      }
      if NameTaken(State(), room.name) {
        return DuplicateName;
      }
      rooms, next := rooms[next := room], next + 1;
      return Done;
    }

    method JoinRoom(id: nat, username: string) returns (r: Result)
      modifies this
      ensures State() == Apply(old(State()), Join(id, username))
      ensures r == Outcome(old(State()), Join(id, username))
      ensures r == Done <==> id in old(rooms) && (username in old(rooms)[id].members || old(rooms)[id].maxMembers == 0
                                                  || |old(rooms)[id].members| < old(rooms)[id].maxMembers)
      ensures if r == Done && username !in old(rooms)[id].members
              then rooms == old(rooms)[id := old(rooms)[id].(members := old(rooms)[id].members + [username])]
              else rooms == old(rooms)
    {
      if id in rooms && username in rooms[id].members {
        assert rooms == rooms[id := rooms[id].(members := rooms[id].members)];
        return Done;
      }
      if id in rooms && (rooms[id].maxMembers == 0 || |rooms[id].members| < rooms[id].maxMembers) {
        rooms := rooms[id := rooms[id].(members := Added(rooms[id].members, username))];
        return Done;
      }
      return Full;
    }

    method LeaveRoom(id: nat, username: string) returns (r: Result)
      modifies this
      ensures State() == Apply(old(State()), Leave(id, username))
      ensures r == Outcome(old(State()), Leave(id, username))
      ensures r == Done <==> id in old(rooms)
      ensures rooms - {id} == old(rooms) - {id} && next == old(next)
      ensures id in rooms ==> username !in rooms[id].members
    {
      if id !in rooms {
        return NotFound;
      }
      var room := rooms[id];
      WithoutMembers(room.members, username);
      rooms := rooms[id := room.(members := Without(room.members, username))];
      if room.createdBy == username && !room.isDefault {
        var remainingMembers := RemainingMembers(room.members, username);
        if |remainingMembers| == 0 {
          rooms := rooms - {id};
        } else {
          rooms := rooms[id := rooms[id].(createdBy := remainingMembers[0])];
        }
      }
      return Done;
    }

    method RemainingMembers(members: seq<string>, username: string) returns (remainingMembers: seq<string>)
      ensures remainingMembers == Without(members, username)
    {
      remainingMembers := [];
      for i := 0 to |members|
        invariant remainingMembers == Without(members[..i], username)
      {
        assert members[..i + 1][..i] == members[..i];
        if members[i] != username {
          remainingMembers := remainingMembers + [members[i]];
        }
      }
      assert members[..|members|] == members;
    }

    method DeleteRoom(id: nat, username: string) returns (r: Result)
      modifies this
      ensures State() == Apply(old(State()), Delete(id, username))
      ensures r == Outcome(old(State()), Delete(id, username))
      ensures r == Done <==> id in old(rooms) && !old(rooms)[id].isDefault && old(rooms)[id].createdBy == username
      ensures rooms == if r == Done then old(rooms) - {id} else old(rooms)
    {
      if id !in rooms {
        return NotFound;
      }
      if rooms[id].isDefault {
        return IsDefaultRoom;
      }
      if rooms[id].createdBy != username {
        return Forbidden;
      }
      rooms := rooms - {id};
      return Done;
    }

    method AdminDeleteRoom(id: nat) returns (r: Result)
      modifies this
      ensures State() == Apply(old(State()), AdminDelete(id))
      ensures r == Outcome(old(State()), AdminDelete(id))
      ensures r == Done <==> id in old(rooms) && !old(rooms)[id].isDefault
      ensures rooms == if r == Done then old(rooms) - {id} else old(rooms)
    {
      if id !in rooms {
        return NotFound;
      }
      if rooms[id].isDefault {
        return IsDefaultRoom;
      }
      rooms := rooms - {id};
      return Done;
    }
  }
}
