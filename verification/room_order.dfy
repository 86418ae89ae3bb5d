// When members entered their room. A run of atomic operations is followed back to
// the operation that last brought each member in.
module RoomOrder {
  import opened Rooms
  import opened Seqs

  function After(ops: seq<Op>): Store {
    Run(EnsureDefault(Store(map[], 0)), ops)
  }

  predicate Present(s: Store, id: nat, user: string) {
    id in s.rooms && user in s.rooms[id].members
  }

  // The last operation that made `user` a member of the room, -1 if there is none.
  function Entered(ops: seq<Op>, id: nat, user: string): int {
    if ops == [] then -1
    else
      var init := ops[..|ops| - 1];
      if Present(After(ops), id, user) && !Present(After(init), id, user) then |ops| - 1 else Entered(init, id, user)
  }

  // It is the user's own join or creation of the room, and they stayed since.
  lemma {:induction false} EnteredByJoining(ops: seq<Op>, id: nat, user: string)
    requires Present(After(ops), id, user)
    ensures var e := Entered(ops, id, user);
            && 0 <= e < |ops|
            && (ops[e] == Join(id, user) || (ops[e].Create? && ops[e].user == user))
            && forall k :: e < k <= |ops| ==> Present(After(ops[..k]), id, user)
  {
    if ops == [] {
      StartOk();
      assert false;
    } else {
      var init, op := ops[..|ops| - 1], ops[|ops| - 1];
      var e := Entered(ops, id, user);
      assert ops[..|ops|] == ops;
      Ownership(init);
      if Present(After(init), id, user) {
        EnteredByJoining(init, id, user);
        forall k | e < k <= |ops| ensures Present(After(ops[..k]), id, user) {
          if k < |ops| {
            assert ops[..k] == init[..k];
          }
        }
      } else {
        OnlyJoiningEnters(After(init), op, id, user);
      }
    }
  }

  lemma OnlyJoiningEnters(s: Store, op: Op, id: nat, user: string)
    requires Inv(s) && !Present(s, id, user) && Present(Apply(s, op), id, user)
    ensures op == Join(id, user) || (op.Create? && op.user == user)
  {
    if op.Leave? && op.id == id {
      WithoutMembers(s.rooms[id].members, op.user);
    }
  }

  function EntryTime(ops: seq<Op>, id: nat): string -> int {
    (user: string) => Entered(ops, id, user)
  }

  ghost predicate Rising(members: seq<string>, time: string -> int) {
    forall i, j :: 0 <= i < j < |members| ==> time(members[i]) < time(members[j])
  }

  // After every run the members of a room stand in the order in which they entered
  // it, a member who left and came back counting from their return.
  lemma {:induction false} JoinOrder(ops: seq<Op>, id: nat)
    requires id in After(ops).rooms
    ensures Rising(After(ops).rooms[id].members, EntryTime(ops, id))
  {
    if ops == [] {
      StartOk();
    } else {
      var init, op := ops[..|ops| - 1], ops[|ops| - 1];
      Ownership(init);
      if id in After(init).rooms {
        var m := After(init).rooms[id].members;
        JoinOrder(init, id);
        JoinOrderKept(After(init), op, id);
        EarlierBefore(ops, id, m);
        StepRises(m, After(ops).rooms[id].members, op, EntryTime(init, id), EntryTime(ops, id), |ops| - 1);
      }
    }
  }

  // Whoever is still in the room entered it before the last operation.
  lemma EarlierBefore(ops: seq<Op>, id: nat, m: seq<string>)
    requires ops != [] && id in After(ops).rooms && id in After(ops[..|ops| - 1]).rooms
    requires m == After(ops[..|ops| - 1]).rooms[id].members
    ensures forall u :: u in m ==> EntryTime(ops[..|ops| - 1], id)(u) < |ops| - 1
    ensures forall u :: u in After(ops).rooms[id].members ==>
              EntryTime(ops, id)(u) == if u in m then EntryTime(ops[..|ops| - 1], id)(u) else |ops| - 1
  {
    forall u | u in m ensures EntryTime(ops[..|ops| - 1], id)(u) < |ops| - 1 {
      EnteredByJoining(ops[..|ops| - 1], id, u);
    }
  }

  lemma StepRises(m: seq<string>, n: seq<string>, op: Op, was: string -> int, now: string -> int, last: int)
    requires n == m || (op.Join? && n == m + [op.user] && op.user !in m) || (op.Leave? && n == Without(m, op.user))
    requires Rising(m, was) && forall u :: u in m ==> was(u) < last
    requires forall u :: u in n ==> now(u) == if u in m then was(u) else last
    ensures Rising(n, now)
  {
    if op.Leave? && n == Without(m, op.user) {
      WithoutRises(m, op.user, was);
      WithoutMembers(m, op.user);
    }
    assert forall i :: 0 <= i < |n| ==> n[i] in n;
  }

  lemma {:induction false} WithoutRises(members: seq<string>, user: string, time: string -> int)
    requires Rising(members, time)
    ensures Rising(Without(members, user), time)
  {
    if members != [] {
      var init := members[..|members| - 1];
      WithoutRises(init, user, time);
      WithoutMembers(init, user);
      var rest := Without(init, user);
      assert forall i :: 0 <= i < |rest| ==> rest[i] in rest;
    }
  }

  // After every run, when an owner leaves and the room goes on, the new owner is the
  // remaining member who entered it first.
  lemma HeirEnteredFirst(ops: seq<Op>, id: nat, user: string, m: string)
    requires id in After(ops).rooms && !After(ops).rooms[id].isDefault && After(ops).rooms[id].createdBy == user
    requires Present(Apply(After(ops), Leave(id, user)), id, m)
    ensures Entered(ops, id, Apply(After(ops), Leave(id, user)).rooms[id].createdBy) <= Entered(ops, id, m)
  {
    var s := After(ops);
    Ownership(ops);
    JoinOrder(ops, id);
    HeirIsFirst(s, id, user, m);
    var members := s.rooms[id].members;
    var k, l :| 0 <= k <= l < |members| && members[k] == Apply(s, Leave(id, user)).rooms[id].createdBy && members[l] == m;
    assert k < l ==> EntryTime(ops, id)(members[k]) < EntryTime(ops, id)(members[l]);
  }

  lemma HeirIsFirst(s: Store, id: nat, user: string, m: string)
    requires Inv(s) && id in s.rooms && !s.rooms[id].isDefault && s.rooms[id].createdBy == user
    requires Present(Apply(s, Leave(id, user)), id, m)
    ensures var members := s.rooms[id].members;
            exists k, l :: 0 <= k <= l < |members|
                           && members[k] == Apply(s, Leave(id, user)).rooms[id].createdBy && members[l] == m
  {
    var members, t := s.rooms[id].members, Apply(s, Leave(id, user));
    OwnerHandsOver(s, id, user);
    var k :| 0 <= k < |members| && t.rooms[id].createdBy == members[k] != user && forall j :: 0 <= j < k ==> members[j] == user;
    WithoutMembers(members, user);
    var l :| 0 <= l < |members| && members[l] == m;
    assert k <= l;
  }

  // ---- who is a member

  // The operation makes `user` a member: a join of the room while it has the user or
  // room for them, or the creation of it under a free name.
  predicate Enters(s: Store, op: Op, id: nat, user: string) {
    (op == Join(id, user) && id in s.rooms
     && (user in s.rooms[id].members || s.rooms[id].maxMembers == 0 || |s.rooms[id].members| < s.rooms[id].maxMembers))
    || (op.Create? && op.user == user && id == s.next && forall k :: k in s.rooms ==> s.rooms[k].name != op.name)
  }

  lemma MemberMoves(s: Store, op: Op, id: nat, user: string)
    requires Inv(s)
    ensures Present(Apply(s, op), id, user) <==>
              id in Apply(s, op).rooms && (Enters(s, op, id, user) || (Present(s, id, user) && op != Leave(id, user)))
  {
    if op.Leave? && op.id == id && id in s.rooms {
      WithoutMembers(s.rooms[id].members, op.user);
    }
  }

  // The room existed after every operation later than the `e`-th, and none of them was
  // the user's leave.
  ghost predicate Lasted(ops: seq<Op>, e: nat, id: nat) {
    forall k :: e < k <= |ops| ==> id in After(ops[..k]).rooms
  }

  ghost predicate NeverLeft(ops: seq<Op>, e: nat, id: nat, user: string) {
    forall k :: e < k < |ops| ==> ops[k] != Leave(id, user)
  }

  ghost predicate EnteredAndStayed(ops: seq<Op>, e: nat, id: nat, user: string)
    requires e < |ops|
  {
    Enters(After(ops[..e]), ops[e], id, user) && Lasted(ops, e, id) && NeverLeft(ops, e, id, user)
  }

  ghost predicate HasEntered(ops: seq<Op>, id: nat, user: string) {
    exists e: nat :: e < |ops| && EnteredAndStayed(ops, e, id, user)
  }

  // Over every run a user is a member of a room if and only if some operation made them
  // one and since then they have not left and the room has not vanished.
  lemma {:induction false} MemberExactly(ops: seq<Op>, id: nat, user: string)
    ensures Present(After(ops), id, user) <==> HasEntered(ops, id, user)
  {
    if ops == [] {
      StartOk();
    } else {
      var init := ops[..|ops| - 1];
      Ownership(init);
      MemberExactly(init, id, user);
      MemberMoves(After(init), ops[|ops| - 1], id, user);
      EntryMoves(ops, id, user);
    }
  }

  lemma LastedMore(ops: seq<Op>, e: nat, id: nat)
    requires e < |ops|
    ensures Lasted(ops, e, id) <==> Lasted(ops[..|ops| - 1], e, id) && id in After(ops).rooms
  {
    var init, n := ops[..|ops| - 1], |ops| - 1;
    assert ops[..|ops|] == ops;
    assert forall k :: 0 <= k <= n ==> ops[..k] == init[..k];
  }

  lemma OneOperationMore(ops: seq<Op>, e: nat, id: nat, user: string)
    requires e < |ops| - 1
    ensures EnteredAndStayed(ops, e, id, user) <==>
              EnteredAndStayed(ops[..|ops| - 1], e, id, user)
              && ops[|ops| - 1] != Leave(id, user) && id in After(ops).rooms
  {
    var init := ops[..|ops| - 1];
    LastedMore(ops, e, id);
    assert ops[..e] == init[..e] && ops[e] == init[e];
    assert NeverLeft(ops, e, id, user) <==> NeverLeft(init, e, id, user) && ops[|ops| - 1] != Leave(id, user);
  }

  lemma EntryMoves(ops: seq<Op>, id: nat, user: string)
    requires ops != []
    ensures var init, op := ops[..|ops| - 1], ops[|ops| - 1];
            HasEntered(ops, id, user) <==>
              id in After(ops).rooms && (Enters(After(init), op, id, user) || (HasEntered(init, id, user) && op != Leave(id, user)))
  {
    var init, op, n := ops[..|ops| - 1], ops[|ops| - 1], |ops| - 1;
    LastedMore(ops, n, id);
    assert EnteredAndStayed(ops, n, id, user) <==> Enters(After(init), op, id, user) && id in After(ops).rooms;
    if HasEntered(init, id, user) && op != Leave(id, user) && id in After(ops).rooms {
      var e: nat :| e < n && EnteredAndStayed(init, e, id, user);
      OneOperationMore(ops, e, id, user);
    }
    if HasEntered(ops, id, user) {
      var e: nat :| e < |ops| && EnteredAndStayed(ops, e, id, user);
      if e < n {
        OneOperationMore(ops, e, id, user);
      }
    }
  }
}
