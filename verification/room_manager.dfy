// Which hub serves a room. Hubs end by idle timeout, by RemoveHub or by
// ShutdownAll; each takes the hub out of the map in one locked section and
// closes its stop channel in another step, so the three can overlap.
module RoomManager {
  // `closing` counts the goroutines that have committed to closing `stop` and not
  // yet done so; `closed` how often it has been closed. Go panics at the second.
  datatype Hub = Hub(room: string, clients: set<nat>, closing: nat, closed: nat, exited: bool)

  datatype State = State(hubs: map<string, nat>, made: seq<Hub>)

  datatype Step =
    | GetOrCreate(room: string)
    | Register(h: nat, c: nat)
    | Unregister(h: nat, c: nat)
    | SeeEmpty(h: nat)        // idle timer: the first emptiness check
    | ConfirmIdle(h: nat)     // the second check and the delete, under RoomMgr.mu
    | StillBusy(h: nat)       // the second check failed; the timer is reset
    | SeeStop(h: nat)         // the stop branch: close every client and leave
    | TakeOut(room: string)   // RemoveHub's locked section
    | Shutdown                // ShutdownAll, one locked section
    | CloseStop(h: nat)       // a committed close(h.stop)

  const INIT := State(map[], [])

  function With(s: State, h: nat, hub: Hub): State
    requires h < |s.made|
  {
    s.(made := s.made[h := hub])
  }

  // The Run goroutine of `h` is still in its select loop (Go may pick any ready
  // branch, so a closed stop does not end it at once).
  predicate Looping(s: State, h: nat) {
    h < |s.made| && !s.made[h].exited
  }

  predicate Mapped(s: State, h: nat)
    requires h < |s.made|
  {
    s.made[h].room in s.hubs && s.hubs[s.made[h].room] == h
  }

  predicate Enabled(s: State, e: Step) {
    match e
    case GetOrCreate(_) => true
    case Register(h, _) => Looping(s, h)
    case Unregister(h, _) => Looping(s, h)
    case SeeEmpty(h) => Looping(s, h) && s.made[h].clients == {}
    case ConfirmIdle(h) => Looping(s, h) && s.made[h].clients == {}
    case StillBusy(h) => Looping(s, h) && s.made[h].clients != {}
    case SeeStop(h) => Looping(s, h) && s.made[h].closed > 0
    case TakeOut(_) => true
    case Shutdown => true
    case CloseStop(h) => h < |s.made| && s.made[h].closing > 0
  }

  function Apply(s: State, e: Step): State
    requires Enabled(s, e)
  {
    match e
    case GetOrCreate(room) =>
      if room in s.hubs then s
      else State(s.hubs[room := |s.made|], s.made + [Hub(room, {}, 0, 0, false)])
    case Register(h, c) => With(s, h, s.made[h].(clients := s.made[h].clients + {c}))
    case Unregister(h, c) => With(s, h, s.made[h].(clients := s.made[h].clients - {c}))
    case SeeEmpty(_) => s
    case ConfirmIdle(h) =>
      var hub := s.made[h];
      With(s.(hubs := s.hubs - {hub.room}), h, hub.(exited := true, closing := hub.closing + 1))
    case StillBusy(_) => s
    case SeeStop(h) => With(s, h, s.made[h].(clients := {}, exited := true))
    case TakeOut(room) =>
      if room in s.hubs && s.hubs[room] < |s.made| then
        var hub := s.made[s.hubs[room]];
        With(s.(hubs := s.hubs - {room}), s.hubs[room], hub.(closing := hub.closing + 1))
      else s
    case Shutdown =>
      State(map[], seq(|s.made|, h requires 0 <= h < |s.made| =>
        if Mapped(s, h) then s.made[h].(closed := s.made[h].closed + 1) else s.made[h]))
    case CloseStop(h) =>
      With(s, h, s.made[h].(closing := s.made[h].closing - 1, closed := s.made[h].closed + 1))
  }

  ghost predicate IsRun(ss: seq<State>, es: seq<Step>) {
    && |ss| == |es| + 1 && ss[0] == INIT
    && forall k {:trigger es[k]} :: 0 <= k < |es| ==> Enabled(ss[k], es[k]) && ss[k + 1] == Apply(ss[k], es[k])
  }

  // How often a hub's stop will have been closed once every committed close ran.
  function Closes(hub: Hub): nat {
    hub.closing + hub.closed
  }

  // Every room maps to its own hub, whose stop nobody has closed or will close;
  // every other hub has been closed, or committed to, exactly once.
  ghost predicate Inv(s: State) {
    && (forall r :: r in s.hubs ==> s.hubs[r] < |s.made| && s.made[s.hubs[r]].room == r)
    && (forall h :: 0 <= h < |s.made| ==> Closes(s.made[h]) == if Mapped(s, h) then 0 else 1)
    && (forall h :: 0 <= h < |s.made| && s.made[h].exited ==> !Mapped(s, h))
  }

  // The check the idle branch leaves out: is this hub still the room's hub?
  predicate Guarded(s: State, e: Step) {
    e.ConfirmIdle? && e.h < |s.made| ==> Mapped(s, e.h)
  }

  lemma GuardedKeeps(s: State, e: Step)
    requires Inv(s) && Enabled(s, e) && Guarded(s, e)
    ensures Inv(Apply(s, e))
  {
    var t := Apply(s, e);
    match e {
      case GetOrCreate(room) => CreatedKeeps(s, room);
      case ConfirmIdle(h) => RemovedKeeps(s, t, h);
      case TakeOut(room) => if room in s.hubs { RemovedKeeps(s, t, s.hubs[room]); }
      case Shutdown => ShutdownKeeps(s);
      case _ => OneHubKeeps(s, t, e.h);
    }
  }

  lemma CreatedKeeps(s: State, room: string)
    requires Inv(s)
    ensures Inv(Apply(s, GetOrCreate(room)))
  {
  }

  lemma ShutdownKeeps(s: State)
    requires Inv(s)
    ensures Inv(Apply(s, Shutdown))
  {
  }

  // Changing one hub without mapping it anew or committing another close.
  lemma OneHubKeeps(s: State, t: State, h: nat)
    requires Inv(s) && h < |s.made| && t.hubs == s.hubs && |t.made| == |s.made|
    requires t.made[h].room == s.made[h].room && Closes(t.made[h]) == Closes(s.made[h])
    requires t.made[h].exited ==> s.made[h].exited || Closes(s.made[h]) > 0
    requires forall k :: 0 <= k < |s.made| && k != h ==> t.made[k] == s.made[k]
    ensures Inv(t)
  {
    forall k | 0 <= k < |t.made| ensures Mapped(t, k) <==> Mapped(s, k) {
    }
  }

  // Taking the mapped hub `h` out of the map while committing one close.
  lemma RemovedKeeps(s: State, t: State, h: nat)
    requires Inv(s) && h < |s.made| == |t.made| && Mapped(s, h) && t.hubs == s.hubs - {s.made[h].room}
    requires t.made[h].room == s.made[h].room && Closes(t.made[h]) == 1
    requires forall k :: 0 <= k < |s.made| && k != h ==> t.made[k] == s.made[k]
    ensures Inv(t)
  {
  }

  // An unguarded idle exit commits the hub's stop to a second close, and if the
  // room has a new hub in the meantime it throws that one out of the map.
  lemma UnguardedBreaks(s: State, e: Step)
    requires Inv(s) && Enabled(s, e) && !Guarded(s, e)
    ensures Closes(Apply(s, e).made[e.h]) == 2
    ensures s.made[e.h].room in s.hubs ==> s.hubs[s.made[e.h].room] != e.h && s.made[e.h].room !in Apply(s, e).hubs
  {
  }

  // Exactly when: the lifecycle invariant survives a step if and only if that
  // step is not the idle exit of a hub that is no longer its room's hub.
  lemma KeptExactlyWhenGuarded(s: State, e: Step)
    requires Inv(s) && Enabled(s, e)
    ensures Inv(Apply(s, e)) <==> Guarded(s, e)
  {
    if Guarded(s, e) {
      GuardedKeeps(s, e);
    } else {
      UnguardedBreaks(s, e);
    }
  }

  lemma {:induction false} InvHolds(ss: seq<State>, es: seq<Step>, k: nat)
    requires IsRun(ss, es) && k < |ss| && forall j :: 0 <= j < k ==> Guarded(ss[j], es[j])
    ensures Inv(ss[k])
  {
    if k > 0 {
      InvHolds(ss, es, k - 1);
      assert Enabled(ss[k - 1], es[k - 1]);
      GuardedKeeps(ss[k - 1], es[k - 1]);
    }
  }

  // A hub whose Run is in its loop is its room's hub as long as hubs only end idle.
  ghost predicate LoopingIsMapped(s: State) {
    forall h :: 0 <= h < |s.made| && Looping(s, h) ==> Mapped(s, h)
  }

  lemma {:induction false} IdleOnly(ss: seq<State>, es: seq<Step>, k: nat)
    requires IsRun(ss, es) && k < |ss|
    requires forall j :: 0 <= j < k ==> !es[j].TakeOut? && !es[j].Shutdown?
    ensures Inv(ss[k]) && LoopingIsMapped(ss[k])
  {
    if k > 0 {
      IdleOnly(ss, es, k - 1);
      var s, e := ss[k - 1], es[k - 1];
      assert Enabled(s, e);
      assert Guarded(s, e);
      GuardedKeeps(s, e);
      if e.ConfirmIdle? {
        var t := Apply(s, e);
        forall h | 0 <= h < |t.made| && Looping(t, h) ensures Mapped(t, h) {
          assert Mapped(s, h) && h != e.h;
        }
      }
    }
  }

  // When hubs end only by idle timeout: each room maps to its own hub with stop
  // open, each stop is closed at most once, and a hub leaves the map only empty.
  lemma HubLifecycle(ss: seq<State>, es: seq<Step>, k: nat, room: string)
    requires IsRun(ss, es) && k < |es|
    requires forall j :: 0 <= j <= k ==> !es[j].TakeOut? && !es[j].Shutdown?
    ensures room in ss[k].hubs ==>
              var h := ss[k].hubs[room];
              && h < |ss[k].made| && ss[k].made[h].room == room && ss[k].made[h].closed == 0
              && (room in ss[k + 1].hubs ==> ss[k + 1].hubs[room] == h)
              && (room !in ss[k + 1].hubs ==> ss[k].made[h].clients == {})
    ensures forall h :: 0 <= h < |ss[k].made| ==> ss[k].made[h].closed <= 1
  {
    IdleOnly(ss, es, k);
    assert Enabled(ss[k], es[k]);
    assert forall h :: 0 <= h < |ss[k].made| ==> Closes(ss[k].made[h]) <= 1;
  }

  // With RemoveHub the overlap happens to any empty hub: RemoveHub takes it out,
  // its idle timer fires before it sees stop, and stop is closed twice.
  lemma OverlapClosesTwice(s: State, h: nat)
    requires Inv(s) && Looping(s, h) && Mapped(s, h) && s.made[h].clients == {}
    ensures var t := Apply(Apply(s, TakeOut(s.made[h].room)), ConfirmIdle(h));
            Enabled(t, CloseStop(h)) && Enabled(Apply(t, CloseStop(h)), CloseStop(h))
            && Apply(Apply(t, CloseStop(h)), CloseStop(h)).made[h].closed == 2
  {
  }

  // A hub that has exited takes no client any more: a websocket handler that took
  // it from the map before and registers afterwards waits for ever.
  lemma {:induction false} ExitIsFinal(ss: seq<State>, es: seq<Step>, j: nat, k: nat, h: nat, c: nat)
    requires IsRun(ss, es) && j <= k < |ss| && h < |ss[j].made| && ss[j].made[h].exited
    ensures h < |ss[k].made| && ss[k].made[h].exited && !Enabled(ss[k], Register(h, c))
    ensures ss[k].made[h].clients <= ss[j].made[h].clients
  {
    if j < k {
      ExitIsFinal(ss, es, j, k - 1, h, c);
      assert Enabled(ss[k - 1], es[k - 1]);
    }
  }

  // ---- what each step does, field by field

  lemma WhatGetOrCreateDoes(s: State, room: string)
    ensures var t := Apply(s, GetOrCreate(room));
            && room in t.hubs && (forall r :: r in s.hubs ==> r in t.hubs && t.hubs[r] == s.hubs[r])
            && (if room in s.hubs then t == s
                else t.hubs.Keys == s.hubs.Keys + {room} && t.made == s.made + [Hub(room, {}, 0, 0, false)]
                     && t.hubs[room] == |s.made|)
  {
  }

  // The other hubs and rooms are as before.
  ghost predicate Only(s: State, t: State, h: nat, room: string) {
    && |t.made| == |s.made| && (forall k :: 0 <= k < |s.made| && k != h ==> t.made[k] == s.made[k])
    && (forall r :: r != room ==> (r in t.hubs <==> r in s.hubs) && (r in t.hubs && r in s.hubs ==> t.hubs[r] == s.hubs[r]))
  }

  // Clients come and go while the hub loops; an idle exit unmaps the hub's room id and
  // owes one close; a stop ends the hub without clients; a close is carried out once.
  lemma WhatHubsDo(s: State, h: nat, c: nat)
    requires h < |s.made|
    ensures var hub := s.made[h];
            && (Enabled(s, Register(h, c)) ==>
                  var t := Apply(s, Register(h, c));
                  Only(s, t, h, "") && t.hubs == s.hubs && t.made[h] == hub.(clients := hub.clients + {c}))
            && (Enabled(s, Unregister(h, c)) ==>
                  var t := Apply(s, Unregister(h, c));
                  Only(s, t, h, "") && t.hubs == s.hubs && t.made[h] == hub.(clients := hub.clients - {c}))
            && (Enabled(s, ConfirmIdle(h)) ==>
                  var t := Apply(s, ConfirmIdle(h));
                  Only(s, t, h, hub.room) && hub.room !in t.hubs && hub.clients == {}
                  && t.made[h] == hub.(exited := true, closing := hub.closing + 1))
            && (Enabled(s, SeeStop(h)) ==>
                  var t := Apply(s, SeeStop(h));
                  t.hubs == s.hubs && Only(s, t, h, "") && t.made[h] == hub.(clients := {}, exited := true))
            && (Enabled(s, CloseStop(h)) ==>
                  var t := Apply(s, CloseStop(h));
                  t.hubs == s.hubs && Only(s, t, h, "")
                  && t.made[h] == hub.(closing := hub.closing - 1, closed := hub.closed + 1))
  {
  }

  // RemoveHub unmaps the room and owes its hub one close; ShutdownAll unmaps all rooms
  // and closes every mapped hub.
  lemma WhatRemovalsDo(s: State, room: string, h: nat)
    requires Inv(s) && h < |s.made|
    ensures var t := Apply(s, TakeOut(room));
            && room !in t.hubs && (room !in s.hubs ==> t == s)
            && (room in s.hubs ==>
                  Only(s, t, s.hubs[room], room)
                  && t.made[s.hubs[room]] == s.made[s.hubs[room]].(closing := s.made[s.hubs[room]].closing + 1))
    ensures var t := Apply(s, Shutdown);
            && t.hubs == map[] && |t.made| == |s.made|
            && t.made[h] == if s.made[h].room in s.hubs && s.hubs[s.made[h].room] == h
                            then s.made[h].(closed := s.made[h].closed + 1) else s.made[h]
  {
  }

  // ---- the code

  class HubRef {
    ghost const index: nat   // its place in the order of creation
    const roomId: string
    var clients: set<nat>
    var stopClosed: bool

    constructor (ghost index: nat, roomId: string)
      ensures this.index == index && this.roomId == roomId && clients == {} && !stopClosed
    {
      this.index, this.roomId, clients, stopClosed := index, roomId, {}, false;
    }
  }

  class RoomManagerObject {
    var hubs: map<string, HubRef>
    ghost var all: seq<HubRef>
    ghost var model: State

    ghost predicate Coupled()
      reads this, all
    {
      && |all| == |model.made|
      && (forall h :: 0 <= h < |all| ==> all[h].index == h && all[h].roomId == model.made[h].room)
      && (forall h :: 0 <= h < |all| ==> all[h].clients == model.made[h].clients)
      && (forall h :: 0 <= h < |all| ==> (all[h].stopClosed <==> model.made[h].closed > 0))
      && hubs.Keys == model.hubs.Keys
      && forall r :: r in hubs ==> model.hubs[r] < |all| && all[model.hubs[r]] == hubs[r]
    }

    ghost predicate Valid()
      reads this, all
    {
      Coupled() && Inv(model)
    }

    constructor ()
      ensures Valid() && model == INIT
    {
      hubs, all, model := map[], [], INIT;
    }

    method GetOrCreateHub(roomId: string) returns (hub: HubRef)
      requires Valid()
      modifies this
      ensures Valid() && model == Apply(old(model), GetOrCreate(roomId))
      ensures roomId in hubs && hubs[roomId] == hub && hub.roomId == roomId && !hub.stopClosed
      ensures if roomId in old(hubs) then hub == old(hubs)[roomId] && hubs == old(hubs)
              else fresh(hub) && hubs == old(hubs)[roomId := hub]
    {
      GuardedKeeps(model, GetOrCreate(roomId));
      hub := FindOrMake(roomId);
    }

    method FindOrMake(roomId: string) returns (hub: HubRef)
      requires Coupled()
      modifies this
      ensures Coupled() && model == Apply(old(model), GetOrCreate(roomId))
      ensures roomId in hubs && hubs[roomId] == hub
      ensures if roomId in old(hubs) then hub == old(hubs)[roomId] && hubs == old(hubs)
              else fresh(hub) && hubs == old(hubs)[roomId := hub]
    {
      model := Apply(model, GetOrCreate(roomId));
      if roomId in hubs {
        return hubs[roomId];
      }
      hub := new HubRef(|all|, roomId);
      hubs := hubs[roomId := hub];
      all := all + [hub];
    }

    method GetHub(roomId: string) returns (hub: HubRef?)
      requires Valid()
      ensures hub == null <==> roomId !in model.hubs
      ensures hub != null ==> hub.roomId == roomId && hub.index == model.hubs[roomId]
    {
      hub := if roomId in hubs then hubs[roomId] else null;
    }

    // RemoveHub's locked section; its caller then closes the hub's stop.
    method TakeOutHub(roomId: string) returns (hub: HubRef?)
      requires Valid()
      modifies this
      ensures Valid() && model == Apply(old(model), TakeOut(roomId))
      ensures hub == if roomId in old(hubs) then old(hubs)[roomId] else null
      ensures hubs == old(hubs) - {roomId}
    {
      GuardedKeeps(model, TakeOut(roomId));
      hub := Unmap(roomId);
    }

    method Unmap(roomId: string) returns (hub: HubRef?)
      requires Coupled()
      modifies this`hubs, this`model
      ensures Coupled() && model == Apply(old(model), TakeOut(roomId))
      ensures hub == if roomId in old(hubs) then old(hubs)[roomId] else null
      ensures hubs == old(hubs) - {roomId}
    {
      model := Apply(model, TakeOut(roomId));
      hub := null;
      if roomId in hubs {
        hub := hubs[roomId];
        hubs := hubs - {roomId};
      }
    }

    // The idle branch's locked section. It deletes by room id without looking at
    // whose entry that is, so the invariant survives only for the room's own hub.
    method TryIdle(hub: HubRef) returns (leaving: bool)
      requires Valid() && hub in all && Looping(model, hub.index)
      modifies this
      ensures Coupled() && leaving == (hub.clients == {})
      ensures model == if leaving then Apply(old(model), ConfirmIdle(hub.index)) else old(model)
      ensures Valid() <==> !leaving || Mapped(old(model), hub.index)
      ensures hubs == if leaving then old(hubs) - {hub.roomId} else old(hubs)
    {
      leaving := hub.clients == {};
      if leaving {
        KeptExactlyWhenGuarded(model, ConfirmIdle(hub.index));
        DropIdle(hub);
      }
    }

    method DropIdle(hub: HubRef)
      requires Coupled() && hub in all && Enabled(model, ConfirmIdle(hub.index))
      modifies this`hubs, this`model
      ensures Coupled() && model == Apply(old(model), ConfirmIdle(hub.index)) && hubs == old(hubs) - {hub.roomId}
    {
      model := Apply(model, ConfirmIdle(hub.index));
      hubs := hubs - {hub.roomId};
    }

    method ShutdownAll()
      requires Valid()
      modifies this`hubs, this`model, (set r | r in hubs :: hubs[r])`stopClosed
      ensures Valid() && model == Apply(old(model), Shutdown) && hubs == map[]
      ensures forall r :: r in old(hubs) ==> old(hubs)[r].stopClosed
    {
      ShutdownKeeps(model);
      MappedAreListed();
      StopMapped();
    }

    ghost predicate Lists(h: nat)
      reads this
    {
      h < |all| && exists r :: r in hubs && hubs[r] == all[h]
    }

    method StopMapped()
      requires Coupled() && forall h :: 0 <= h < |all| ==> (Lists(h) <==> Mapped(model, h))
      modifies this`hubs, this`model, (set r | r in hubs :: hubs[r])`stopClosed
      ensures Coupled() && model == Apply(old(model), Shutdown) && hubs == map[]
      ensures forall r :: r in old(hubs) ==> old(hubs)[r].stopClosed
    {
      StopAll();
      model := Apply(model, Shutdown);
      forall h | 0 <= h < |all| ensures all[h].stopClosed <==> model.made[h].closed > 0 {
        if old(Lists(h)) {
          assert Mapped(old(model), h) && all[h].stopClosed;
        } else {
          assert !Mapped(old(model), h) && all[h].stopClosed == old(all[h].stopClosed);
        }
      }
    }

    lemma MappedAreListed()
      requires Valid()
      ensures forall h :: 0 <= h < |all| ==> (Lists(h) <==> Mapped(model, h))
    {
      forall h | 0 <= h < |all| ensures Lists(h) <==> Mapped(model, h) {
        if Mapped(model, h) {
          assert hubs[model.made[h].room] == all[h];
        }
      }
    }

    method StopAll()
      modifies this`hubs, (set r | r in hubs :: hubs[r])`stopClosed
      ensures hubs == map[] && forall r :: r in old(hubs) ==> old(hubs)[r].stopClosed
    {
      var ids := hubs.Keys;
      while ids != {}
        invariant hubs.Keys == ids <= old(hubs).Keys && forall r :: r in hubs ==> hubs[r] == old(hubs)[r]
        invariant forall r :: r in old(hubs).Keys - ids ==> old(hubs)[r].stopClosed
        decreases ids
      {
        var id :| id in ids;
        var hub := hubs[id];
        hub.stopClosed := true;
        hubs, ids := hubs - {id}, ids - {id};
      }
    }
  }
}
