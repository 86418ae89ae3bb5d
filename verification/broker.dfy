// The Redis broker: which rooms are subscribed while the connection fails and
// recovers. Every locked section of the code is one step; the recovery loop
// gives up the lock between rooms, so other calls interleave with it.
module Broker {
  // A room's PubSub connection is identified by the order of its creation.
  datatype Outcome = Subscribed | NotActive

  // Where the monitor goroutine is: waiting for its ticker or re-subscribing.
  datatype Monitor = Waiting | Recovering(pending: set<string>)

  // `open` holds every PubSub that was created and not closed; it belongs to Redis.
  // A hub's handler fills a channel. The hub reads that channel only if its Subscribe
  // returned no error; otherwise it selects on one that is never ready.
  datatype Handler = Handler(hub: nat, listening: bool)

  datatype State = State(fallback: bool, subscriptions: map<string, nat>, handlers: map<string, Handler>,
                         monitor: Monitor, open: set<nat>, created: nat)

  datatype Step =
    | Subscribe(room: string, hub: nat)
    | Unsubscribe(room: string)
    | PingFailed
    | PingOk
    | Resubscribe(room: string)
    | LoopEnd

  const INIT := State(false, map[], map[], Waiting, {}, 0)

  function Opened(s: State, room: string): State {
    s.(subscriptions := s.subscriptions[room := s.created], open := s.open + {s.created}, created := s.created + 1)
  }

  predicate Enabled(s: State, e: Step) {
    match e
    case PingFailed => s.monitor.Waiting?
    case PingOk => s.monitor.Waiting?
    case Resubscribe(room) => s.monitor.Recovering? && room in s.monitor.pending
    case LoopEnd => s.monitor.Recovering? && s.monitor.pending == {}
    case _ => true
  }

  function Apply(s: State, e: Step): State
    requires Enabled(s, e)
  {
    match e
    case Subscribe(room, hub) =>
      var t := s.(handlers := s.handlers[room := Handler(hub, !s.fallback)]);
      if s.fallback || room in s.subscriptions then t else Opened(t, room)
    case Unsubscribe(room) =>
      var t := s.(handlers := s.handlers - {room});
      if room in s.subscriptions
      then t.(subscriptions := s.subscriptions - {room}, open := s.open - {s.subscriptions[room]})
      else t
    case PingFailed =>
      if s.fallback then s else s.(fallback := true, subscriptions := map[], open := s.open - s.subscriptions.Values)
    case PingOk =>
      if s.fallback then s.(fallback := false, monitor := Recovering(s.handlers.Keys)) else s
    case Resubscribe(room) => Opened(s, room).(monitor := Recovering(s.monitor.pending - {room}))
    case LoopEnd => s.(monitor := Waiting)
  }

  ghost predicate IsRunFrom(s: State, ss: seq<State>, es: seq<Step>) {
    && |ss| == |es| + 1 && ss[0] == s
    && forall k {:trigger es[k]} :: 0 <= k < |es| ==> Enabled(ss[k], es[k]) && ss[k + 1] == Apply(ss[k], es[k])
  }

  // ---- no handled room is deaf

  // In fallback there are no subscriptions; otherwise each room with a handler is
  // subscribed or waits in the recovery loop. Recorded PubSubs are open and distinct.
  ghost predicate Inv(s: State) {
    && (s.monitor.Recovering? ==> !s.fallback)
    && (s.fallback ==> s.subscriptions == map[])
    && (!s.fallback ==> forall room :: room in s.handlers ==>
          room in s.subscriptions || (s.monitor.Recovering? && room in s.monitor.pending))
    && (forall room :: room in s.subscriptions ==> s.subscriptions[room] in s.open)
    && (forall p :: p in s.open ==> p < s.created)
    && (forall q, r :: q in s.subscriptions && r in s.subscriptions && q != r ==> s.subscriptions[q] != s.subscriptions[r])
  }

  lemma InvKept(s: State, e: Step)
    requires Inv(s) && Enabled(s, e)
    ensures Inv(Apply(s, e))
  {
  }

  lemma {:induction false} NeverDeaf(ss: seq<State>, es: seq<Step>, k: nat)
    requires IsRunFrom(INIT, ss, es) && k < |ss|
    ensures Inv(ss[k])
    ensures ss[k].monitor.Waiting? ==>
              if ss[k].fallback then ss[k].subscriptions == map[] else ss[k].handlers.Keys <= ss[k].subscriptions.Keys
  {
    if k > 0 {
      NeverDeaf(ss, es, k - 1);
      assert Enabled(ss[k - 1], es[k - 1]);
      InvKept(ss[k - 1], es[k - 1]);
    }
  }

  // ---- what one recovery leaves behind

  // The rooms still to be re-subscribed, seen from inside a recovery that began in
  // fallback. `dropped` are the rooms unsubscribed since.
  ghost predicate Restoring(s: State, dropped: set<string>) {
    && Inv(s) && s.monitor.Recovering?
    && s.subscriptions.Keys <= s.handlers.Keys + dropped
    && s.monitor.pending <= s.handlers.Keys + dropped
  }

  function Dropped(es: seq<Step>): set<string> {
    set k | 0 <= k < |es| && es[k].Unsubscribe? :: es[k].room
  }

  lemma RestoringKept(s: State, e: Step, dropped: set<string>)
    requires Restoring(s, dropped) && Enabled(s, e) && !e.LoopEnd?
    ensures Restoring(Apply(s, e), dropped + if e.Unsubscribe? then {e.room} else {})
  {
  }

  lemma {:induction false} RecoveryInside(s: State, ss: seq<State>, es: seq<Step>, k: nat)
    requires Inv(s) && s.fallback && s.monitor.Waiting? && IsRunFrom(s, ss, es)
    requires 0 < k < |ss| && es[0].PingOk? && forall j :: 0 <= j < k ==> !es[j].LoopEnd?
    ensures Restoring(ss[k], Dropped(es[..k]))
  {
    if k == 1 {
      InvKept(s, es[0]);
      assert Dropped(es[..1]) == {};
    } else {
      RecoveryInside(s, ss, es, k - 1);
      var e := es[k - 1];
      assert Enabled(ss[k - 1], e);
      RestoringKept(ss[k - 1], e, Dropped(es[..k - 1]));
      assert Dropped(es[..k]) == Dropped(es[..k - 1]) + if e.Unsubscribe? then {e.room} else {} by {
        assert es[..k][k - 1] == e;
        assert forall j :: 0 <= j < k - 1 ==> es[..k][j] == es[..k - 1][j];
      }
    }
  }

  // When the recovery loop ends no room with a handler is deaf; the subscriptions
  // are exactly the handled rooms if no Unsubscribe overlapped the loop, and a
  // subscription without a handler belongs to a room unsubscribed during it.
  lemma RecoveryRestores(s: State, ss: seq<State>, es: seq<Step>)
    requires Inv(s) && s.fallback && s.monitor.Waiting? && IsRunFrom(s, ss, es)
    requires |es| >= 2 && es[0].PingOk? && es[|es| - 1].LoopEnd? && forall j :: 0 <= j < |es| - 1 ==> !es[j].LoopEnd?
    ensures var t := ss[|es|];
            && t.monitor.Waiting? && !t.fallback
            && t.handlers.Keys <= t.subscriptions.Keys <= t.handlers.Keys + Dropped(es)
            && (Dropped(es) == {} ==> t.subscriptions.Keys == t.handlers.Keys)
  {
    var n := |es| - 1;
    RecoveryInside(s, ss, es, n);
    assert Enabled(ss[n], es[n]);
    assert Dropped(es[..n]) == Dropped(es) by {
      assert forall j :: 0 <= j < n ==> es[..n][j] == es[j];
    }
  }

  // An Unsubscribe that overlaps the loop can leave a subscription nobody handles.
  lemma OverlappedUnsubscribeLeavesOrphan(s: State, room: string)
    requires Inv(s) && s.monitor.Recovering? && room in s.monitor.pending
    ensures var t := Apply(Apply(s, Unsubscribe(room)), Resubscribe(room));
            room in t.subscriptions && room !in t.handlers
  {
  }

  // ---- duplicated subscriptions

  // PubSubs that nobody can close any more; their listeners keep dispatching.
  function Leaked(s: State): set<nat> {
    s.open - s.subscriptions.Values
  }

  predicate Overwrites(s: State, e: Step) {
    e.Resubscribe? && e.room in s.subscriptions
  }

  // A PubSub leaks exactly when the recovery loop re-subscribes a room that a
  // Subscribe call has subscribed in the meantime: the loop overwrites the entry
  // without looking.
  lemma LeaksExactlyOnOverwrite(s: State, e: Step)
    requires Inv(s) && Enabled(s, e)
    ensures Leaked(Apply(s, e)) ==
              Leaked(s) + if Overwrites(s, e) then {s.subscriptions[e.room]} else {}
  {
    var t := Apply(s, e);
    match e {
      case Subscribe(room, _) =>
        if !s.fallback && room !in s.subscriptions {
          NewValue(s, room);
        }
      case Unsubscribe(room) =>
        if room in s.subscriptions {
          GoneValue(s, room);
        }
      case Resubscribe(room) => NewValue(s, room);
      case PingFailed => assert t.subscriptions.Values == {} || t == s;
      case _ =>
    }
  }

  lemma NewValue(s: State, room: string)
    requires Inv(s)
    ensures var t := Opened(s, room);
            t.subscriptions.Values ==
              s.subscriptions.Values - (if room in s.subscriptions then {s.subscriptions[room]} else {}) + {s.created}
  {
    var t := Opened(s, room);
    forall v | v in s.subscriptions.Values && !(room in s.subscriptions && v == s.subscriptions[room])
      ensures v in t.subscriptions.Values
    {
      var r :| r in s.subscriptions && s.subscriptions[r] == v;
      assert t.subscriptions[r] == v;
    }
    assert t.subscriptions[room] == s.created;
  }

  lemma GoneValue(s: State, room: string)
    requires Inv(s) && room in s.subscriptions
    ensures (s.subscriptions - {room}).Values == s.subscriptions.Values - {s.subscriptions[room]}
  {
    forall v | v in s.subscriptions.Values && v != s.subscriptions[room] ensures v in (s.subscriptions - {room}).Values {
      var r :| r in s.subscriptions && s.subscriptions[r] == v;
      assert (s.subscriptions - {room})[r] == v;
    }
  }

  // It happens whenever a pending room is subscribed before the loop reaches it:
  // two PubSubs then dispatch the room's messages to the same handler.
  lemma OverlappedSubscribeLeaks(s: State, room: string, hub: nat)
    requires Inv(s) && s.monitor.Recovering? && room in s.monitor.pending && room !in s.subscriptions
    ensures var t := Apply(Apply(s, Subscribe(room, hub)), Resubscribe(room));
            && room in t.handlers && s.created in Leaked(t)
            && t.subscriptions[room] in t.open && t.subscriptions[room] != s.created
  {
  }

  ghost predicate NeverOverwrites(ss: seq<State>, es: seq<Step>, k: nat)
    requires |ss| == |es| + 1 && k <= |es|
  {
    forall j :: 0 <= j < k ==> !Overwrites(ss[j], es[j])
  }

  lemma LeakInRun(ss: seq<State>, es: seq<Step>, k: nat)
    requires IsRunFrom(INIT, ss, es) && k < |es|
    ensures Leaked(ss[k + 1]) == {} <==> Leaked(ss[k]) == {} && !Overwrites(ss[k], es[k])
  {
    NeverDeaf(ss, es, k);
    assert Enabled(ss[k], es[k]);
    LeaksExactlyOnOverwrite(ss[k], es[k]);
  }

  lemma OneStepMore(ss: seq<State>, es: seq<Step>, k: nat)
    requires |ss| == |es| + 1 && k < |es|
    ensures NeverOverwrites(ss, es, k + 1) <==> NeverOverwrites(ss, es, k) && !Overwrites(ss[k], es[k])
  {
  }

  lemma LeaksAlike(ss: seq<State>, es: seq<Step>, k: nat)
    requires IsRunFrom(INIT, ss, es) && k < |es| && (Leaked(ss[k]) == {} <==> NeverOverwrites(ss, es, k))
    ensures Leaked(ss[k + 1]) == {} <==> NeverOverwrites(ss, es, k + 1)
  {
    LeakInRun(ss, es, k);
    OneStepMore(ss, es, k);
  }

  lemma {:induction false} LeaksOverRun(ss: seq<State>, es: seq<Step>, k: nat)
    requires IsRunFrom(INIT, ss, es) && k < |ss|
    ensures Leaked(ss[k]) == {} <==> NeverOverwrites(ss, es, k)
  {
    if k > 0 {
      LeaksOverRun(ss, es, k - 1);
      LeaksAlike(ss, es, k - 1);
    }
  }

  // Hence a run leaks nothing if and only if it never overwrites: each open PubSub
  // is the recorded one of its room exactly as long as no room was subscribed while
  // it was pending in the loop.
  lemma NoLeakExactly(ss: seq<State>, es: seq<Step>, k: nat)
    requires IsRunFrom(INIT, ss, es) && k < |ss|
    ensures ss[k].open == ss[k].subscriptions.Values <==> NeverOverwrites(ss, es, k)
  {
    NeverDeaf(ss, es, k);
    LeaksOverRun(ss, es, k);
    RecordedAreOpen(ss[k]);
  }

  lemma RecordedAreOpen(s: State)
    requires Inv(s)
    ensures s.open == s.subscriptions.Values <==> Leaked(s) == {}
  {
    assert s.subscriptions.Values <= s.open;
    if Leaked(s) == {} {
      forall p | p in s.open ensures p in s.subscriptions.Values {
        assert p !in Leaked(s);
      }
    }
  }

  // ---- what each call does, field by field

  ghost predicate OthersSame<V>(m: map<string, V>, n: map<string, V>, room: string) {
    forall r :: r != room ==> (r in n <==> r in m) && (r in m && r in n ==> n[r] == m[r])
  }

  lemma WhatSubscribeDoes(s: State, room: string, hub: nat)
    requires Inv(s)
    ensures var t := Apply(s, Subscribe(room, hub));
            && room in t.handlers && t.handlers[room] == Handler(hub, !s.fallback) && OthersSame(s.handlers, t.handlers, room)
            && OthersSame(s.subscriptions, t.subscriptions, room) && t.fallback == s.fallback && t.monitor == s.monitor
            && if s.fallback || room in s.subscriptions then t.subscriptions == s.subscriptions && t.open == s.open
               else room in t.subscriptions && t.subscriptions[room] !in s.open && t.open == s.open + {t.subscriptions[room]}
  {
  }

  // An Unsubscribe leaves the room in neither map and closes its PubSub; every other
  // room, handler and PubSub is as before.
  lemma WhatUnsubscribeDoes(s: State, room: string)
    requires Inv(s)
    ensures var t := Apply(s, Unsubscribe(room));
            && room !in t.handlers && room !in t.subscriptions
            && OthersSame(s.handlers, t.handlers, room) && OthersSame(s.subscriptions, t.subscriptions, room)
            && (forall p :: p in t.open <==> p in s.open && !(room in s.subscriptions && s.subscriptions[room] == p))
            && t.fallback == s.fallback && t.monitor == s.monitor
  {
  }

  // A failed ping means fallback: every recorded PubSub is closed, every handler kept.
  // A ping that succeeds in fallback ends it and hands all handled rooms to the loop,
  // each turn of which opens a new PubSub for one room.
  lemma WhatTheMonitorDoes(s: State, room: string)
    requires Inv(s)
    ensures Enabled(s, PingFailed) ==>
              var t := Apply(s, PingFailed);
              && t.fallback && t.subscriptions == map[] && t.handlers == s.handlers && t.monitor == s.monitor
              && t.open == s.open - s.subscriptions.Values
    ensures Enabled(s, PingOk) ==>
              var t := Apply(s, PingOk);
              && !t.fallback && t.subscriptions == s.subscriptions && t.handlers == s.handlers && t.open == s.open
              && t.monitor == if s.fallback then Recovering(s.handlers.Keys) else Waiting
    ensures Enabled(s, Resubscribe(room)) ==>
              var t := Apply(s, Resubscribe(room));
              && room in t.subscriptions && t.subscriptions[room] !in s.open && t.open == s.open + {t.subscriptions[room]}
              && OthersSame(s.subscriptions, t.subscriptions, room) && t.handlers == s.handlers
              && t.monitor == Recovering(s.monitor.pending - {room}) && t.fallback == s.fallback
    ensures Enabled(s, LoopEnd) ==> Apply(s, LoopEnd) == s.(monitor := Waiting)
  {
  }

  // ---- who hears

  predicate Calls(e: Step, room: string) {
    (e.Subscribe? || e.Unsubscribe?) && e.room == room
  }

  // The last Subscribe or Unsubscribe for a room among the first `k` steps, or -1.
  function LastCall(es: seq<Step>, k: nat, room: string): (j: int)
    requires k <= |es|
    ensures -1 <= j < k && (j >= 0 ==> Calls(es[j], room))
    ensures forall l :: j < l < k ==> !Calls(es[l], room)
  {
    if k == 0 then -1 else if Calls(es[k - 1], room) then k - 1 else LastCall(es, k - 1, room)
  }

  // A room has a handler if and only if that call was a Subscribe; the handler is the
  // caller's, and the caller listens unless the broker was in fallback then.
  lemma {:induction false} HandledExactly(ss: seq<State>, es: seq<Step>, k: nat, room: string)
    requires IsRunFrom(INIT, ss, es) && k < |ss|
    ensures var j := LastCall(es, k, room);
            if j >= 0 && es[j].Subscribe?
            then room in ss[k].handlers && ss[k].handlers[room] == Handler(es[j].hub, !ss[j].fallback)
            else room !in ss[k].handlers
  {
    if k > 0 {
      HandledExactly(ss, es, k - 1, room);
      assert Enabled(ss[k - 1], es[k - 1]);
    }
  }

  // ---- subscriptions nobody handles

  // The last Subscribe or Unsubscribe for the room was an Unsubscribe made while the
  // room was waiting in a recovery loop.
  ghost predicate DroppedWhilePending(ss: seq<State>, es: seq<Step>, k: nat, room: string)
    requires |ss| == |es| + 1 && k <= |es|
  {
    var j := LastCall(es, k, room);
    j >= 0 && es[j] == Unsubscribe(room) && ss[j].monitor.Recovering? && room in ss[j].monitor.pending
  }

  // At all times a room is subscribed, or waits in the loop, without a handler only if
  // it was unsubscribed while it was waiting there and not called for since.
  lemma {:induction false} OrphansWereDropped(ss: seq<State>, es: seq<Step>, k: nat, room: string)
    requires IsRunFrom(INIT, ss, es) && k < |ss| && room !in ss[k].handlers
    requires room in ss[k].subscriptions || (ss[k].monitor.Recovering? && room in ss[k].monitor.pending)
    ensures DroppedWhilePending(ss, es, k, room)
  {
    if k > 0 {
      var s, e := ss[k - 1], es[k - 1];
      assert Enabled(s, e) && ss[k] == Apply(s, e);
      if !Calls(e, room) {
        OrphansWereDropped(ss, es, k - 1, room);
      } else {
        NeverDeaf(ss, es, k - 1);
        WhatUnsubscribeDoes(s, room);
      }
    }
  }

  ghost predicate NeverDropsPending(ss: seq<State>, es: seq<Step>, k: nat)
    requires |ss| == |es| + 1 && k <= |es|
  {
    forall j :: 0 <= j < k && es[j].Unsubscribe? ==> !(ss[j].monitor.Recovering? && es[j].room in ss[j].monitor.pending)
  }

  // So in runs whose recovery loops neither overwrite nor outlive an Unsubscribe, a
  // settled and healthy broker has exactly the handled rooms subscribed, and Redis
  // serves exactly their PubSubs.
  lemma SubscribedExactlyHandled(ss: seq<State>, es: seq<Step>, k: nat)
    requires IsRunFrom(INIT, ss, es) && k < |ss| && ss[k].monitor.Waiting? && !ss[k].fallback
    requires NeverDropsPending(ss, es, k) && NeverOverwrites(ss, es, k)
    ensures ss[k].subscriptions.Keys == ss[k].handlers.Keys
    ensures ss[k].open == set room | room in ss[k].handlers && room in ss[k].subscriptions :: ss[k].subscriptions[room]
  {
    NeverDeaf(ss, es, k);
    NoLeakExactly(ss, es, k);
    forall room | room in ss[k].subscriptions ensures room in ss[k].handlers {
      if room !in ss[k].handlers {
        OrphansWereDropped(ss, es, k, room);
        assert false;
      }
    }
  }

  // What a hub needs to hear its room through Redis: an open subscription, its own
  // handler, and a channel that it reads.
  predicate Hears(s: State, room: string, hub: nat) {
    && room in s.subscriptions && s.subscriptions[room] in s.open
    && room in s.handlers && s.handlers[room] == Handler(hub, true)
  }

  // Whenever the broker is healthy and no recovery is running, a hub hears its room
  // exactly when the last Subscribe or Unsubscribe for the room was its own Subscribe
  // at a moment outside fallback, through all failures and recoveries since.
  lemma HearsExactly(ss: seq<State>, es: seq<Step>, k: nat, room: string, hub: nat)
    requires IsRunFrom(INIT, ss, es) && k < |ss| && ss[k].monitor.Waiting? && !ss[k].fallback
    ensures Hears(ss[k], room, hub) <==>
              var j := LastCall(es, k, room); j >= 0 && es[j] == Subscribe(room, hub) && !ss[j].fallback
  {
    NeverDeaf(ss, es, k);
    HandledExactly(ss, es, k, room);
  }

  // So a hub stays deaf after every recovery, although it publishes to Redis again,
  // if it found the broker in fallback: whether it saw that and never subscribed, or
  // the ping failed between its look and its Subscribe, which then only stored the
  // handler and returned an error.
  lemma StartedInFallbackStaysDeaf(ss: seq<State>, es: seq<Step>, k: nat, room: string, hub: nat)
    requires IsRunFrom(INIT, ss, es) && k < |ss| && ss[k].monitor.Waiting? && !ss[k].fallback
    requires forall j :: 0 <= j < k && es[j] == Subscribe(room, hub) ==> ss[j].fallback
    ensures !Hears(ss[k], room, hub)
  {
    HearsExactly(ss, es, k, room, hub);
  }

  // The second kind exists: the stored handler makes the room look served.
  lemma FailedSubscribeLooksServed(s: State, room: string, hub: nat)
    requires Inv(s) && s.monitor.Waiting? && !s.fallback && room !in s.handlers
    ensures var down := Apply(s, PingFailed);
            var stored := Apply(down, Subscribe(room, hub));
            var loop := Apply(stored, PingOk);
            && loop.monitor.Recovering? && room in loop.monitor.pending
            && var back := Apply(loop, Resubscribe(room));
               room in back.handlers && room in back.subscriptions && !Hears(back, room, hub)
  {
  }

  // And a hub whose predecessor's deferred Unsubscribe runs after its own Subscribe
  // is deaf for as long as it lives.
  lemma LateUnsubscribeDeafens(ss: seq<State>, es: seq<Step>, j: nat, k: nat, room: string, hub: nat)
    requires IsRunFrom(INIT, ss, es) && j < k < |ss| && ss[k].monitor.Waiting? && !ss[k].fallback
    requires es[j] == Unsubscribe(room) && forall l :: j < l < k ==> es[l] != Subscribe(room, hub)
    ensures !Hears(ss[k], room, hub)
  {
    HearsExactly(ss, es, k, room, hub);
  }

  // ---- the code

  class BrokerObject {
    const hasClient: bool
    var subscriptions: map<string, nat>
    var handlers: map<string, nat>
    var fallback: bool
    var pubsubs: set<nat>   // the PubSubs Redis serves
    ghost var model: State

    ghost predicate Valid()
      reads this
    {
      && hasClient && Inv(model)
      && subscriptions == model.subscriptions && fallback == model.fallback && pubsubs == model.open
      && handlers.Keys == model.handlers.Keys && forall r :: r in handlers ==> handlers[r] == model.handlers[r].hub
    }

    constructor ()
      ensures Valid() && model == INIT
    {
      hasClient := true;
      subscriptions, handlers, fallback, pubsubs, model := map[], map[], false, {}, INIT;
    }

    // `ps` is the PubSub the client would hand out.
    method Subscribe(roomId: string, handler: nat, ps: nat) returns (r: Outcome)
      requires Valid() && ps == model.created
      modifies this
      ensures Valid() && model == Apply(old(model), Step.Subscribe(roomId, handler))
      ensures r.NotActive? <==> old(fallback)
      ensures model.handlers[roomId] == Handler(handler, r.Subscribed?)
      ensures handlers == old(handlers)[roomId := handler] && fallback == old(fallback)
      ensures var opens := !fallback && roomId !in old(subscriptions);
              && subscriptions == (if opens then old(subscriptions)[roomId := ps] else old(subscriptions))
              && pubsubs == old(pubsubs) + if opens then {ps} else {}
    {
      InvKept(model, Step.Subscribe(roomId, handler));
      model := Apply(model, Step.Subscribe(roomId, handler));
      if fallback || !hasClient {
        handlers := handlers[roomId := handler];
        return NotActive;
      }
      if roomId in subscriptions {
        handlers := handlers[roomId := handler];
        return Subscribed;
      }
      pubsubs := pubsubs + {ps};
      subscriptions := subscriptions[roomId := ps];
      handlers := handlers[roomId := handler];
      return Subscribed;
    }

    method Unsubscribe(roomId: string)
      requires Valid()
      modifies this
      ensures Valid() && model == Apply(old(model), Step.Unsubscribe(roomId))
      ensures subscriptions == old(subscriptions) - {roomId} && handlers == old(handlers) - {roomId}
      ensures pubsubs == old(pubsubs) - if roomId in old(subscriptions) then {old(subscriptions)[roomId]} else {}
      ensures fallback == old(fallback)
    {
      InvKept(model, Step.Unsubscribe(roomId));
      model := Apply(model, Step.Unsubscribe(roomId));
      if roomId !in subscriptions {
        handlers := handlers - {roomId};
        return;
      }
      pubsubs := pubsubs - {subscriptions[roomId]};
      subscriptions := subscriptions - {roomId};
      handlers := handlers - {roomId};
    }

    // Publish's own decision, before it reaches Redis.
    method MayPublish() returns (ok: bool)
      requires Valid()
      ensures ok == !model.fallback
    {
      var fb := fallback;
      ok := !(fb || !hasClient);
    }

    // The monitor's locked section after a ping that failed.
    method OnPingFailed()
      requires Valid() && model.monitor.Waiting?
      modifies this
      ensures Valid() && model == Apply(old(model), PingFailed)
      ensures fallback && subscriptions == map[] && handlers == old(handlers)
      ensures pubsubs == old(pubsubs) - old(subscriptions).Values
    {
      InvKept(model, PingFailed);
      model := Apply(model, PingFailed);
      if !fallback {
        fallback := true;
        CloseSubscriptions();
      }
    }

    // Closes and forgets every recorded PubSub.
    method CloseSubscriptions()
      modifies this`subscriptions, this`pubsubs
      ensures subscriptions == map[] && pubsubs == old(pubsubs) - old(subscriptions).Values
    {
      var rooms := subscriptions.Keys;
      while rooms != {}
        invariant subscriptions.Keys == rooms <= old(subscriptions).Keys
        invariant forall r :: r in rooms ==> subscriptions[r] == old(subscriptions)[r]
        invariant pubsubs == old(pubsubs) - set r | r in old(subscriptions).Keys - rooms :: old(subscriptions)[r]
        decreases rooms
      {
        var roomId :| roomId in rooms;
        pubsubs := pubsubs - {subscriptions[roomId]};
        subscriptions := subscriptions - {roomId};
        rooms := rooms - {roomId};
      }
    }

    // The monitor's locked section after a ping that succeeded; the result is the
    // copy of the handlers that the recovery loop will walk.
    method OnPingOk() returns (wasDown: bool, rooms: set<string>)
      requires Valid() && model.monitor.Waiting?
      modifies this
      ensures Valid() && model == Apply(old(model), PingOk) && wasDown == old(fallback)
      ensures wasDown ==> model.monitor == Recovering(rooms)
    {
      InvKept(model, PingOk);
      wasDown, rooms := fallback, {};
      if wasDown {
        fallback := false;
        rooms := handlers.Keys;
      }
      model := Apply(model, PingOk);
    }

    // One turn of the recovery loop.
    method RestoreRoom(roomId: string, ps: nat)
      requires Valid() && Enabled(model, Resubscribe(roomId)) && ps == model.created
      modifies this
      ensures Valid() && model == Apply(old(model), Resubscribe(roomId))
    {
      InvKept(model, Resubscribe(roomId));
      pubsubs := pubsubs + {ps};
      subscriptions := subscriptions[roomId := ps];
      model := Apply(model, Resubscribe(roomId));
    }

    // A recovery nobody interrupts re-subscribes every handled room and no other.
    method MonitorRecovers(firstPs: nat)
      requires Valid() && fallback && model.monitor.Waiting? && firstPs == model.created
      modifies this
      ensures Valid() && model.monitor.Waiting? && !fallback
      ensures handlers == old(handlers) && subscriptions.Keys == handlers.Keys
    {
      var down, rooms := OnPingOk();
      var ps := firstPs;
      while rooms != {}
        invariant Valid() && model.monitor == Recovering(rooms) && ps == model.created
        invariant handlers == old(handlers) && rooms <= handlers.Keys && !fallback
        invariant subscriptions.Keys == handlers.Keys - rooms
        decreases rooms
      {
        var roomId :| roomId in rooms;
        RestoreRoom(roomId, ps);
        rooms, ps := rooms - {roomId}, ps + 1;
      }
      InvKept(model, LoopEnd);
      model := Apply(model, LoopEnd);
    }
  }
}
