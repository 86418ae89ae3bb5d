// Who owns a room when the round trips of leaves, joins and deletes interleave:
// what every step keeps, and the three steps that decide on an outdated snapshot.
module RoomRaces {
  import opened Rooms

  // A pending leave that read its own user as the owner of the room.
  predicate LeavesAsOwner(c: Call, id: nat, user: string) {
    (c.Reading? || c.Pulled?) && c.id == id && c.user == user && c.snapshot.createdBy == user && !c.snapshot.isDefault
  }

  predicate OwnerLeaving(y: System, id: nat, user: string) {
    exists p :: p in y.calls && LeavesAsOwner(y.calls[p], id, user)
  }

  // A room has its owner among its members, or the owner is on the way out and will
  // hand the room over or remove it.
  ghost predicate Owned(y: System, id: nat)
    requires id in y.store.rooms
  {
    var r := y.store.rooms[id];
    r.isDefault || r.createdBy in r.members || OwnerLeaving(y, id, r.createdBy)
  }

  ghost predicate AllOwned(y: System) {
    forall id :: id in y.store.rooms ==> Owned(y, id)
  }

  // A step that leads to owned rooms and, if it is a leave, removes a room only when
  // nobody is in it.
  ghost predicate Sound(y: System, e: Step, z: System) {
    && AllOwned(z)
    && (e.LeaveFinish? ==>
          forall id :: id in y.store.rooms && id !in z.store.rooms ==> y.store.rooms[id].members == [])
  }

  // The room's owner is pulled out, but no leave of theirs has read them as owner.
  predicate StalePull(y: System, e: Step) {
    e.LeavePull? && e.p in y.calls && y.calls[e.p].Reading? &&
    var c := y.calls[e.p];
    c.id in y.store.rooms && !y.store.rooms[c.id].isDefault
    && y.store.rooms[c.id].createdBy == c.user && !OwnerLeaving(y, c.id, c.user)
  }

  predicate Finishing(y: System, e: Step) {
    e.LeaveFinish? && e.p in y.calls && y.calls[e.p].Pulled?
    && y.calls[e.p].snapshot.createdBy == y.calls[e.p].user && !y.calls[e.p].snapshot.isDefault
    && y.calls[e.p].id in y.store.rooms
  }

  function Rest(c: Call): seq<string>
    requires c.Reading? || c.Pulled?
  {
    Without(c.snapshot.members, c.user)
  }

  // The room goes to somebody who has left it, and whose leaves read another owner.
  predicate StaleHeir(y: System, e: Step) {
    Finishing(y, e) &&
    var c := y.calls[e.p];
    Rest(c) != [] && Rest(c)[0] !in y.store.rooms[c.id].members && !OwnerLeaving(y, c.id, Rest(c)[0])
  }

  // The room is removed although somebody has joined it.
  predicate StaleRemoval(y: System, e: Step) {
    Finishing(y, e) && Rest(y.calls[e.p]) == [] && y.store.rooms[y.calls[e.p].id].members != []
  }

  predicate Stale(y: System, e: Step) {
    StalePull(y, e) || StaleHeir(y, e) || StaleRemoval(y, e)
  }

  // ---- each step

  // A step that leaves owners and their leaves alone and takes no owner out.
  lemma OwnersUntouched(y: System, z: System)
    requires AllOwned(y)
    requires forall id :: id in z.store.rooms ==>
               Owned(z, id) || (id in y.store.rooms && SameOwner(y.store.rooms[id], z.store.rooms[id]))
    requires forall p :: p in y.calls && (y.calls[p].Reading? || y.calls[p].Pulled?) ==> p in z.calls && z.calls[p] == y.calls[p]
    ensures AllOwned(z)
  {
    forall id | id in z.store.rooms ensures Owned(z, id) {
      if !Owned(z, id) {
        assert Owned(y, id);
      }
    }
  }

  ghost predicate SameOwner(r: Room, t: Room) {
    t.createdBy == r.createdBy && t.isDefault == r.isDefault && (r.createdBy in r.members ==> r.createdBy in t.members)
  }

  lemma PullKeepsExactly(y: System, e: Step)
    requires SystemInv(y) && AllOwned(y) && Enabled(y, e) && e.LeavePull?
    ensures AllOwned(Next(y, e)) <==> !StalePull(y, e)
  {
    var z, c := Next(y, e), y.calls[e.p];
    forall id, user ensures OwnerLeaving(z, id, user) <==> OwnerLeaving(y, id, user) {
      LeavingMoves(y, z, e.p, id, user);
    }
    if c.id in y.store.rooms {
      WithoutMembers(y.store.rooms[c.id].members, c.user);
      assert Owned(y, c.id);
      assert Owned(z, c.id) <==> !StalePull(y, e);
    }
    forall id | id in z.store.rooms && id != c.id ensures Owned(z, id) {
      assert Owned(y, id);
    }
  }

  lemma LeavingMoves(y: System, z: System, p: nat, id: nat, user: string)
    requires p in y.calls && y.calls[p].Reading?
    requires z.calls == y.calls[p := Pulled(y.calls[p].id, y.calls[p].user, y.calls[p].snapshot)]
    ensures OwnerLeaving(z, id, user) <==> OwnerLeaving(y, id, user)
  {
    if q :| q in y.calls && LeavesAsOwner(y.calls[q], id, user) {
      assert LeavesAsOwner(z.calls[q], id, user);
    }
    if q :| q in z.calls && LeavesAsOwner(z.calls[q], id, user) {
      assert LeavesAsOwner(y.calls[q], id, user);
    }
  }

  lemma FinishKeepsExactly(y: System, e: Step)
    requires SystemInv(y) && AllOwned(y) && Enabled(y, e) && e.LeaveFinish?
    ensures AllOwned(Next(y, e)) <==> !StaleHeir(y, e)
  {
    var z, c := Next(y, e), y.calls[e.p];
    forall id, user ensures OwnerLeaving(z, id, user) <==> exists q :: q in y.calls && q != e.p && LeavesAsOwner(y.calls[q], id, user) {
      LeavingEnds(y, z, e.p, id, user);
    }
    forall id | id in z.store.rooms && id != c.id ensures Owned(z, id) {
      assert Owned(y, id);
    }
    if c.id in z.store.rooms {
      assert Owned(y, c.id);
      if Finishing(y, e) {
        WithoutMembers(c.snapshot.members, c.user);
        assert Rest(c)[0] in Rest(c);
        assert OwnerLeaving(z, c.id, Rest(c)[0]) <==> OwnerLeaving(y, c.id, Rest(c)[0]);
      }
      assert Owned(z, c.id) <==> !StaleHeir(y, e);
    }
  }

  lemma LeavingEnds(y: System, z: System, p: nat, id: nat, user: string)
    requires p in y.calls && z.calls == y.calls - {p}
    ensures OwnerLeaving(z, id, user) <==> exists q :: q in y.calls && q != p && LeavesAsOwner(y.calls[q], id, user)
  {
    if q :| q in y.calls && q != p && LeavesAsOwner(y.calls[q], id, user) {
      assert LeavesAsOwner(z.calls[q], id, user);
    }
    if q :| q in z.calls && LeavesAsOwner(z.calls[q], id, user) {
      assert LeavesAsOwner(y.calls[q], id, user);
    }
  }

  // One step keeps every room owned, and removes no room that somebody is in, if and
  // only if it is not stale.
  lemma StepKeepsExactly(y: System, e: Step)
    requires SystemInv(y) && AllOwned(y) && Enabled(y, e)
    ensures Sound(y, e, Next(y, e)) <==> !Stale(y, e)
  {
    match e {
      case LeavePull(_) => PullKeepsExactly(y, e);
      case LeaveFinish(_) => FinishKeepsExactly(y, e);
      case _ => OwnersUntouched(y, Next(y, e));
    }
  }

  lemma StepInRun(ys: seq<System>, es: seq<Step>, k: nat)
    requires IsRun(ys, es) && k < |es| && AllOwned(ys[k])
    ensures Sound(ys[k], es[k], ys[k + 1]) <==> !Stale(ys[k], es[k])
  {
    CapacityUnderConcurrency(ys, es, k);
    assert Enabled(ys[k], es[k]);
    StepKeepsExactly(ys[k], es[k]);
  }

  ghost predicate SoundUpto(ys: seq<System>, es: seq<Step>, k: nat)
    requires |ys| == |es| + 1 && k <= |es|
  {
    forall j :: 0 <= j < k ==> Sound(ys[j], es[j], ys[j + 1])
  }

  ghost predicate NoneStale(ys: seq<System>, es: seq<Step>, k: nat)
    requires |ys| == |es| + 1 && k <= |es|
  {
    forall j :: 0 <= j < k ==> !Stale(ys[j], es[j])
  }

  // Over a whole run: all rooms are owned at all times, and no leave removes a room
  // that somebody is in, if and only if no step is stale.
  lemma {:induction false} OwnershipExactly(ys: seq<System>, es: seq<Step>, k: nat)
    requires IsRun(ys, es) && k < |ys|
    ensures SoundUpto(ys, es, k) <==> NoneStale(ys, es, k)
    ensures NoneStale(ys, es, k) ==> AllOwned(ys[k])
  {
    if k == 0 {
      StartOk();
    } else {
      OwnershipExactly(ys, es, k - 1);
      if AllOwned(ys[k - 1]) {
        StepInRun(ys, es, k - 1);
      }
      assert SoundUpto(ys, es, k) <==> SoundUpto(ys, es, k - 1) && Sound(ys[k - 1], es[k - 1], ys[k]);
      assert NoneStale(ys, es, k) <==> NoneStale(ys, es, k - 1) && !Stale(ys[k - 1], es[k - 1]);
    }
  }

  // In particular: when no leave of the owner is pending, the owner is a member, so
  // the room is not empty.
  lemma OwnedWhenQuiet(ys: seq<System>, es: seq<Step>, k: nat, id: nat)
    requires IsRun(ys, es) && k < |ys| && id in ys[k].store.rooms && !ys[k].store.rooms[id].isDefault
    requires NoneStale(ys, es, k)
    requires !OwnerLeaving(ys[k], id, ys[k].store.rooms[id].createdBy)
    ensures ys[k].store.rooms[id].createdBy in ys[k].store.rooms[id].members
  {
    OwnershipExactly(ys, es, k);
    assert AllOwned(ys[k]) && Owned(ys[k], id);
  }

  // ---- all three stale steps happen

  ghost predicate Reachable(y: System) {
    exists ys: seq<System>, es: seq<Step> :: IsRun(ys, es) && ys[|es|] == y
  }

  lemma StartReachable()
    ensures Reachable(System(EnsureDefault(Store(map[], 0)), map[]))
  {
    var ys, es: seq<Step> := [System(EnsureDefault(Store(map[], 0)), map[])], [];
    assert IsRun(ys, es) && ys[|es|] == System(EnsureDefault(Store(map[], 0)), map[]);
  }

  lemma Reach(y: System, e: Step)
    requires Reachable(y) && Enabled(y, e)
    ensures Reachable(Next(y, e))
  {
    var ys: seq<System>, es: seq<Step> :| IsRun(ys, es) && ys[|es|] == y;
    RunMore(ys, es, e);
    assert (ys + [Next(y, e)])[|es + [e]|] == Next(y, e);
  }

  lemma RunMore(ys: seq<System>, es: seq<Step>, e: Step)
    requires IsRun(ys, es) && Enabled(ys[|es|], e)
    ensures IsRun(ys + [Next(ys[|es|], e)], es + [e])
  {
    var zs, fs := ys + [Next(ys[|es|], e)], es + [e];
    forall i | 0 <= i < |fs| ensures Enabled(zs[i], fs[i]) && zs[i + 1] == Next(zs[i], fs[i]) {
      assert zs[i] == ys[i];
      if i < |es| {
        assert fs[i] == es[i] && zs[i + 1] == ys[i + 1];
      }
    }
  }

  // The state after the three steps of an undisturbed leave.
  function Gone(y: System, p: nat, id: nat, user: string): System
    requires p !in y.calls && id in y.store.rooms
  {
    Next(Next(Next(y, LeaveRead(p, id, user)), LeavePull(p)), LeaveFinish(p))
  }

  lemma GoneReachable(y: System, p: nat, id: nat, user: string)
    requires Reachable(y) && p !in y.calls && id in y.store.rooms
    ensures Reachable(Gone(y, p, id, user)) && Gone(y, p, id, user).calls == y.calls
    ensures Gone(y, p, id, user).store == Apply(y.store, Leave(id, user))
  {
    Reach(y, LeaveRead(p, id, user));
    Reach(Next(y, LeaveRead(p, id, user)), LeavePull(p));
    Reach(Next(Next(y, LeaveRead(p, id, user)), LeavePull(p)), LeaveFinish(p));
    UninterruptedLeaveIsAtomic(y, p, id, user);
    assert Gone(y, p, id, user).calls == y.calls;
  }

  // What two leaves can do to a room of several: an owner who is not a member, with
  // no leave pending.
  ghost predicate Ownerless(z: System, id: nat, owner: string, members: seq<string>) {
    && Reachable(z) && id in z.store.rooms && !z.store.rooms[id].isDefault
    && z.store.rooms[id].createdBy == owner && z.store.rooms[id].members == members && owner !in members
  }

  // The owner's leave reads the room; the heir leaves; the owner's leave goes on.
  lemma HeirLeavesMeanwhile(y: System, id: nat, p: nat, q: nat)
    requires Reachable(y) && id in y.store.rooms && !y.store.rooms[id].isDefault
    requires p !in y.calls && q !in y.calls && p != q
    requires Without(y.store.rooms[id].members, y.store.rooms[id].createdBy) != []
    ensures var r := y.store.rooms[id];
            var heir := Without(r.members, r.createdBy)[0];
            exists z: System :: z.calls == y.calls && Ownerless(z, id, heir, Without(Without(r.members, heir), r.createdBy))
  {
    var r := y.store.rooms[id];
    var rest := Without(r.members, r.createdBy);
    WithoutMembers(r.members, r.createdBy);
    assert rest[0] in rest;
    var y1 := Next(y, LeaveRead(p, id, r.createdBy));
    Reach(y, LeaveRead(p, id, r.createdBy));
    var y2 := Gone(y1, q, id, rest[0]);
    GoneReachable(y1, q, id, rest[0]);
    assert y2.store.rooms[id] == r.(members := Without(r.members, rest[0]));
    var y3 := Next(y2, LeavePull(p));
    Reach(y2, LeavePull(p));
    var z := Next(y3, LeaveFinish(p));
    Reach(y3, LeaveFinish(p));
    WithoutMembers(r.members, rest[0]);
    WithoutMembers(Without(r.members, rest[0]), r.createdBy);
    assert z.calls == y.calls;
    assert Ownerless(z, id, rest[0], Without(Without(r.members, rest[0]), r.createdBy));
  }

  // The heir's leave reads the room; the owner leaves, which makes the heir owner;
  // the heir's leave goes on as that of a plain member.
  lemma LeaverBecomesOwner(y: System, id: nat, p: nat, q: nat)
    requires Reachable(y) && id in y.store.rooms && !y.store.rooms[id].isDefault
    requires p !in y.calls && q !in y.calls && p != q
    requires Without(y.store.rooms[id].members, y.store.rooms[id].createdBy) != []
    ensures var r := y.store.rooms[id];
            var rest := Without(r.members, r.createdBy);
            exists z: System :: z.calls == y.calls && Ownerless(z, id, rest[0], Without(rest, rest[0]))
  {
    var r := y.store.rooms[id];
    var rest := Without(r.members, r.createdBy);
    WithoutMembers(r.members, r.createdBy);
    assert rest[0] in rest;
    var y1 := Next(y, LeaveRead(q, id, rest[0]));
    Reach(y, LeaveRead(q, id, rest[0]));
    var y2 := Gone(y1, p, id, r.createdBy);
    GoneReachable(y1, p, id, r.createdBy);
    assert y2.store.rooms[id] == r.(members := rest, createdBy := rest[0]);
    var y3 := Next(y2, LeavePull(q));
    Reach(y2, LeavePull(q));
    var z := Next(y3, LeaveFinish(q));
    Reach(y3, LeaveFinish(q));
    WithoutMembers(rest, rest[0]);
    assert z.calls == y.calls;
    assert Ownerless(z, id, rest[0], Without(rest, rest[0]));
  }

  // The last member's leave reads the room; somebody joins; the leave removes the
  // room with the new member in it.
  lemma JoinerLosesRoom(y: System, id: nat, p: nat, q: nat, joiner: string)
    requires Reachable(y) && id in y.store.rooms && !y.store.rooms[id].isDefault
    requires p !in y.calls && q !in y.calls && p != q && HasSpace(y.store.rooms[id])
    requires Without(y.store.rooms[id].members, y.store.rooms[id].createdBy) == [] && joiner != y.store.rooms[id].createdBy
    ensures exists z: System, e: Step :: Reachable(z) && Enabled(z, e) && e.LeaveFinish? && id in z.store.rooms
                           && joiner in z.store.rooms[id].members && id !in Next(z, e).store.rooms
  {
    var r := y.store.rooms[id];
    WithoutMembers(r.members, r.createdBy);
    var y1 := Next(y, LeaveRead(p, id, r.createdBy));
    Reach(y, LeaveRead(p, id, r.createdBy));
    assert joiner !in r.members by {
      assert joiner in r.members ==> joiner in Without(r.members, r.createdBy);
    }
    var y2 := Next(y1, JoinCheck(q, id, joiner));
    Reach(y1, JoinCheck(q, id, joiner));
    var y3 := Next(y2, JoinUpdate(q));
    Reach(y2, JoinUpdate(q));
    assert y3.store.rooms[id].members == r.members + [joiner];
    var z := Next(y3, LeavePull(p));
    Reach(y3, LeavePull(p));
    WithoutMembers(r.members + [joiner], r.createdBy);
    assert Enabled(z, LeaveFinish(p)) && joiner in z.store.rooms[id].members && id !in Next(z, LeaveFinish(p)).store.rooms;
  }

  lemma JoinedReachable(y: System, id: nat, p: nat, user: string)
    requires Reachable(y) && p !in y.calls && id in y.store.rooms
    requires HasSpace(y.store.rooms[id]) && user !in y.store.rooms[id].members
    ensures var r := y.store.rooms[id];
            Reachable(y.(store := y.store.(rooms := y.store.rooms[id := r.(members := r.members + [user])])))
  {
    Reach(y, JoinCheck(p, id, user));
    var y1 := Next(y, JoinCheck(p, id, user));
    Reach(y1, JoinUpdate(p));
    assert Next(y1, JoinUpdate(p)).calls == y.calls;
  }

  lemma ThreeMembersReachable(a: string, b: string, c: string)
    requires a != b && a != c && b != c
    ensures exists y: System :: Reachable(y) && y.calls == map[] && 1 in y.store.rooms
                                && y.store.rooms[1] == Room("r", [a, b, c], a, 100, false)
  {
    StartOk();
    StartReachable();
    var y0 := System(EnsureDefault(Store(map[], 0)), map[]);
    assert y0.store == Store(map[0 := DEFAULT_ROOM], 1);
    var y1 := Next(y0, Whole(Create(a, "r", 0)));
    assert !NameTaken(y0.store, "r");
    Reach(y0, Whole(Create(a, "r", 0)));
    assert y1.store.rooms[1] == Room("r", [a], a, 100, false) && y1.calls == map[];
    var y2 := y1.(store := y1.store.(rooms := y1.store.rooms[1 := Room("r", [a, b], a, 100, false)]));
    JoinedReachable(y1, 1, 0, b);
    assert [a] + [b] == [a, b];
    var y3 := y2.(store := y2.store.(rooms := y2.store.rooms[1 := Room("r", [a, b, c], a, 100, false)]));
    JoinedReachable(y2, 1, 0, c);
    assert [a, b] + [c] == [a, b, c];
    assert Reachable(y3) && y3.store.rooms[1] == Room("r", [a, b, c], a, 100, false);
  }

  // So a run from the empty database ends, with no call pending, in a room that c is
  // in and that b, who is not, owns.
  lemma OwnerlessRoomHappens(a: string, b: string, c: string)
    requires a != b && a != c && b != c
    ensures exists z: System :: z.calls == map[] && Ownerless(z, 1, b, [c])
  {
    ThreeMembersReachable(a, b, c);
    var y: System :| Reachable(y) && y.calls == map[] && 1 in y.store.rooms
                     && y.store.rooms[1] == Room("r", [a, b, c], a, 100, false);
    WithoutOne(a, b, c);
    HeirLeavesMeanwhile(y, 1, 0, 1);
  }

  lemma WithoutOne(a: string, b: string, c: string)
    requires a != b && a != c && b != c
    ensures Without([a, b, c], a) == [b, c] && Without(Without([a, b, c], b), a) == [c]
  {
    assert [a, b, c][..2] == [a, b] && [a, b][..1] == [a] && [a][..0] == [] && [a, c][..1] == [a];
    assert Without([a], a) == [] && Without([a], b) == [a];
    assert Without([a, b], a) == [b] && Without([a, b], b) == [a];
    assert Without([a, b, c], b) == [a, c];
  }
}
