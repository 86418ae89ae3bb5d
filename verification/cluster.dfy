// Several servers sharing one room through Redis Pub/Sub. Redis gives the room
// one order of published messages; each server's subscription walks that order,
// its handler keeps at most 256 messages waiting and drops the rest, and the
// hub takes the waiting messages in order.
module Cluster {
  import opened Messages
  import opened Seqs
  import M = HubMachine

  const REDIS_BUFFER: nat := 256

  // `accepted` are the positions of the published order that entered the server's
  // channel; the hub has taken the first `taken` of them.
  datatype Server = Server(hub: M.Hub, cursor: nat, accepted: seq<nat>, taken: nat)

  datatype State = State(published: seq<Message>, next: nat, servers: seq<Server>)

  datatype Step =
    | HubAction(i: nat, action: M.Action)
    | Submit(i: nat, message: Message, healthy: bool)   // the Broadcast branch; healthy: Publish succeeded
    | Deliver(i: nat)                                   // the subscription calls the handler
    | Consume(i: nat)                                   // the redisCh branch

  function Init(n: nat): State {
    State([], 0, seq(n, _ => Server(M.INIT, 0, [], 0)))
  }

  predicate Enabled(s: State, e: Step) {
    e.i < |s.servers| &&
    var v := s.servers[e.i];
    match e
    case HubAction(_, a) => M.Enabled(v.hub, a) && !a.Incoming?
    case Submit(_, m, _) => M.Enabled(v.hub, M.Incoming(m))
    case Deliver(_) => v.hub.running && v.cursor < |s.published|
    case Consume(_) => M.AtSelect(v.hub) && !v.hub.panicked && v.taken < |v.accepted| && v.accepted[v.taken] < |s.published|
  }

  // A hub that leaves drops its subscription and whatever still waits in its
  // channel; a hub that starts subscribes at the current end of the order.
  function Moved(v: Server, a: M.Action, published: seq<Message>): Server
    requires M.Enabled(v.hub, a) && v.taken <= |v.accepted|
  {
    var w := v.(hub := M.Apply(v.hub, a));
    if a.StopSignal? || a.IdleTimeout? then w.(accepted := v.accepted[..v.taken])
    else if a.Restart? then w.(cursor := |published|)
    else w
  }

  function Heard(v: Server): Server {
    if |v.accepted| < v.taken + REDIS_BUFFER then v.(cursor := v.cursor + 1, accepted := v.accepted + [v.cursor])
    else v.(cursor := v.cursor + 1)
  }

  function Consumed(v: Server, m: Message): Server {
    var hub := if Allowed(m.event) then M.StartFan(v.hub, m) else v.hub;
    v.(hub := hub, taken := v.taken + 1)
  }

  function Apply(s: State, e: Step): State
    requires Enabled(s, e) && s.servers[e.i].taken <= |s.servers[e.i].accepted|
  {
    var v := s.servers[e.i];
    match e
    case HubAction(i, a) => s.(servers := s.servers[i := Moved(v, a, s.published)])
    case Submit(i, m, true) => s.(published := s.published + [m.(via := Redis(s.next))], next := s.next + 1)
    case Submit(i, m, false) =>
      s.(next := s.next + 1, servers := s.servers[i := v.(hub := M.StartFan(v.hub, m.(via := Direct(s.next))))])
    case Deliver(i) => s.(servers := s.servers[i := Heard(v)])
    case Consume(i) => s.(servers := s.servers[i := Consumed(v, s.published[v.accepted[v.taken]])])
  }

  ghost predicate IsRun(ss: seq<State>, es: seq<Step>) {
    && |ss| == |es| + 1
    && (exists n: nat :: ss[0] == Init(n))
    && forall k {:trigger es[k]} :: 0 <= k < |es| ==>
         Enabled(ss[k], es[k]) && ss[k].servers[es[k].i].taken <= |ss[k].servers[es[k].i].accepted|
         && ss[k + 1] == Apply(ss[k], es[k])
  }

  // ---- streams of shared messages

  function Pick(published: seq<Message>, at: seq<nat>): seq<Message>
    requires forall k :: 0 <= k < |at| ==> at[k] < |published|
  {
    seq(|at|, k requires 0 <= k < |at| => published[at[k]])
  }

  function FromRedis(): Message -> bool {
    (m: Message) => m.via.Redis?
  }

  function Passes(): Message -> bool {
    (m: Message) => Allowed(m.event)
  }

  // Messages that came through Redis appear in the order of their numbers.
  ghost predicate Ordered(s: seq<Message>) {
    forall i, j :: 0 <= i < j < |s| && s[i].via.Redis? && s[j].via.Redis? ==> s[i].via.id < s[j].via.id
  }

  // No number occurs twice, whichever way the messages came.
  ghost predicate OnceEach(s: seq<Message>) {
    forall i, j :: 0 <= i < j < |s| && !s[i].via.Internal? && !s[j].via.Internal? ==> s[i].via.id != s[j].via.id
  }

  ghost predicate PublishedOk(s: State) {
    && (forall k :: 0 <= k < |s.published| ==>
          s.published[k].via.Redis? && s.published[k].via.id < s.next && !s.published[k].event.Presence?)
    && Ordered(s.published)
  }

  ghost predicate ChannelOk(v: Server, published: seq<Message>) {
    && v.taken <= |v.accepted| <= v.taken + REDIS_BUFFER
    && v.cursor <= |published|
    && (forall k :: 0 <= k < |v.accepted| ==> v.accepted[k] < v.cursor)
    && Increasing(v.accepted)
  }

  ghost predicate StreamOk(v: Server, published: seq<Message>)
    requires ChannelOk(v, published)
  {
    Filter(v.hub.log, FromRedis()) == Filter(Pick(published, v.accepted[..v.taken]), Passes())
  }

  // `m` is one of the published messages the hub has taken from its channel.
  ghost predicate Came(m: Message, v: Server, published: seq<Message>) {
    exists j :: 0 <= j < v.taken <= |v.accepted| && v.accepted[j] < |published| && published[v.accepted[j]] == m
  }

  ghost predicate NotPublished(published: seq<Message>, id: nat) {
    forall k :: 0 <= k < |published| ==> published[k].via != Redis(id)
  }

  ghost predicate LogOk(v: Server, published: seq<Message>, next: nat) {
    && Ordered(v.hub.log) && OnceEach(v.hub.log)
    && (forall m :: m in v.hub.log && m.via.Redis? ==> Came(m, v, published))
    && (forall m :: m in v.hub.log && m.via.Direct? ==> m.via.id < next && NotPublished(published, m.via.id))
  }

  ghost predicate DirectApart(v: Server, w: Server) {
    forall m, n :: m in v.hub.log && n in w.hub.log && m.via.Direct? && n.via.Direct? ==> m.via.id != n.via.id
  }

  ghost predicate ServerOk(v: Server, published: seq<Message>, next: nat) {
    M.Inv(v.hub) && ChannelOk(v, published) && StreamOk(v, published) && LogOk(v, published, next)
  }

  ghost predicate Inv(s: State) {
    && PublishedOk(s)
    && (forall i :: 0 <= i < |s.servers| ==> ServerOk(s.servers[i], s.published, s.next))
    && forall i, j :: 0 <= i < |s.servers| && 0 <= j < |s.servers| && i != j ==> DirectApart(s.servers[i], s.servers[j])
  }

  // A hub action other than Incoming logs nothing or one internal message.
  ghost predicate GrowsInternally(log: seq<Message>, more: seq<Message>) {
    more == log || exists m :: more == log + [m] && m.via.Internal?
  }

  lemma HubActionsLogInternally(h: M.Hub, a: M.Action)
    requires M.Enabled(h, a) && !a.Incoming?
    ensures GrowsInternally(h.log, M.Apply(h, a).log)
  {
  }

  lemma GrowingInternally(v: Server, w: Server, published: seq<Message>, next: nat)
    requires ChannelOk(v, published) && StreamOk(v, published) && LogOk(v, published, next)
    requires GrowsInternally(v.hub.log, w.hub.log)
    requires ChannelOk(w, published) && w.taken == v.taken && w.accepted[..w.taken] == v.accepted[..v.taken]
    ensures StreamOk(w, published) && LogOk(w, published, next)
  {
    StillOrdered(v.hub.log, w.hub.log);
    if w.hub.log != v.hub.log {
      var m :| w.hub.log == v.hub.log + [m] && m.via.Internal?;
      FilterAppend(v.hub.log, m, FromRedis());
    }
    forall m | m in w.hub.log && m.via.Redis? ensures Came(m, w, published) {
      assert m in v.hub.log;
      StillCame(m, v, w, published, published);
    }
  }

  lemma StillOrdered(log: seq<Message>, more: seq<Message>)
    requires Ordered(log) && OnceEach(log) && GrowsInternally(log, more)
    ensures Ordered(more) && OnceEach(more)
    ensures forall m :: m in more && !m.via.Internal? ==> m in log
  {
  }

  lemma StillCame(m: Message, v: Server, w: Server, published: seq<Message>, more: seq<Message>)
    requires Came(m, v, published) && published <= more
    requires v.taken <= w.taken <= |w.accepted| && w.accepted[..v.taken] == v.accepted[..v.taken]
    ensures Came(m, w, more)
  {
  }

  // A server that did not move still fits a state whose order only grew.
  lemma SameView(v: Server, s: State, t: State)
    requires ServerOk(v, s.published, s.next)
    requires s.published <= t.published && s.next <= t.next
    requires forall k :: |s.published| <= k < |t.published| ==> t.published[k].via == Redis(s.next)
    ensures ServerOk(v, t.published, t.next)
  {
    assert Pick(t.published, v.accepted[..v.taken]) == Pick(s.published, v.accepted[..v.taken]);
    forall m | m in v.hub.log && m.via.Redis? ensures Came(m, v, t.published) {
      StillCame(m, v, v, s.published, t.published);
    }
  }

  // Only server `i` moved, and it logged no foreign directly delivered message.
  ghost predicate MovedOnly(s: State, t: State, i: nat) {
    && i < |s.servers| == |t.servers|
    && s.published <= t.published && s.next <= t.next
    && (forall k :: |s.published| <= k < |t.published| ==> t.published[k].via == Redis(s.next))
    && (forall j :: 0 <= j < |s.servers| && j != i ==> t.servers[j] == s.servers[j])
    && (forall m :: m in t.servers[i].hub.log && m.via.Direct? ==> m.via.id == s.next || m in s.servers[i].hub.log)
  }

  lemma MovedOnlyKeeps(s: State, t: State, i: nat)
    requires Inv(s) && MovedOnly(s, t, i) && PublishedOk(t) && ServerOk(t.servers[i], t.published, t.next)
    ensures Inv(t)
  {
    forall j | 0 <= j < |s.servers| && j != i ensures ServerOk(t.servers[j], t.published, t.next) {
      SameView(s.servers[j], s, t);
    }
    forall j, k | 0 <= j < |t.servers| && 0 <= k < |t.servers| && j != k
      ensures DirectApart(t.servers[j], t.servers[k])
    {
      ApartKept(s, t, i, j, k);
    }
  }

  lemma ApartKept(s: State, t: State, i: nat, j: nat, k: nat)
    requires MovedOnly(s, t, i) && j < |s.servers| && k < |s.servers| && j != k
    requires DirectApart(s.servers[j], s.servers[k])
    requires LogOk(s.servers[j], s.published, s.next) && LogOk(s.servers[k], s.published, s.next)
    ensures DirectApart(t.servers[j], t.servers[k])
  {
  }

  lemma HubActionKeeps(s: State, e: Step)
    requires Inv(s) && Enabled(s, e) && e.HubAction?
    ensures Inv(Apply(s, e))
  {
    var t, v := Apply(s, e), s.servers[e.i];
    var w := t.servers[e.i];
    assert ServerOk(v, s.published, s.next);
    M.InvKept(v.hub, e.action);
    HubActionsLogInternally(v.hub, e.action);
    MovedChannel(v, e.action, s.published);
    GrowingInternally(v, w, s.published, s.next);
    MovedOnlyKeeps(s, t, e.i);
  }

  lemma MovedChannel(v: Server, a: M.Action, published: seq<Message>)
    requires M.Enabled(v.hub, a) && ChannelOk(v, published)
    ensures var w := Moved(v, a, published);
            ChannelOk(w, published) && w.taken == v.taken && w.accepted[..w.taken] == v.accepted[..v.taken]
  {
  }

  lemma PublishKeeps(s: State, e: Step)
    requires Inv(s) && Enabled(s, e) && e.Submit? && e.healthy
    ensures Inv(Apply(s, e))
  {
    var t := Apply(s, e);
    PublishedMore(s, e.message.(via := Redis(s.next)));
    assert t.servers == s.servers && ServerOk(s.servers[e.i], s.published, s.next);
    SameView(s.servers[e.i], s, t);
    MovedOnlyKeeps(s, t, e.i);
  }

  lemma PublishedMore(s: State, m: Message)
    requires PublishedOk(s) && m.via == Redis(s.next) && !m.event.Presence?
    ensures PublishedOk(s.(published := s.published + [m], next := s.next + 1))
  {
  }

  lemma FallBackKeeps(s: State, e: Step)
    requires Inv(s) && Enabled(s, e) && e.Submit? && !e.healthy
    ensures Inv(Apply(s, e))
  {
    var t, v, m := Apply(s, e), s.servers[e.i], e.message.(via := Direct(s.next));
    assert ServerOk(v, s.published, s.next);
    DirectServerOk(v, m, s);
    MovedOnlyKeeps(s, t, e.i);
  }

  lemma DirectServerOk(v: Server, m: Message, s: State)
    requires PublishedOk(s) && ServerOk(v, s.published, s.next) && m.via == Direct(s.next)
    requires M.AtSelect(v.hub)
    ensures ServerOk(v.(hub := M.StartFan(v.hub, m)), s.published, s.next + 1)
  {
    M.StartFanKeeps(v.hub, m);
    FilterAppend(v.hub.log, m, FromRedis());
    DirectLogOk(v, m, s);
  }

  lemma DirectLogOk(v: Server, m: Message, s: State)
    requires PublishedOk(s) && ChannelOk(v, s.published) && LogOk(v, s.published, s.next) && m.via == Direct(s.next)
    ensures LogOk(v.(hub := M.StartFan(v.hub, m)), s.published, s.next + 1)
  {
    var w := v.(hub := M.StartFan(v.hub, m));
    forall n | n in v.hub.log && !n.via.Internal? ensures n.via.id < s.next {
      if n.via.Redis? {
        assert Came(n, v, s.published);
      }
    }
    forall n | n in w.hub.log && n.via.Redis? ensures Came(n, w, s.published) {
      StillCame(n, v, w, s.published, s.published);
    }
  }

  lemma DeliverKeeps(s: State, e: Step)
    requires Inv(s) && Enabled(s, e) && e.Deliver?
    ensures Inv(Apply(s, e))
  {
    var t, v := Apply(s, e), s.servers[e.i];
    var w := t.servers[e.i];
    assert ServerOk(v, s.published, s.next);
    HeardChannel(v, s.published);
    GrowingInternally(v, w, s.published, s.next);
    MovedOnlyKeeps(s, t, e.i);
  }

  lemma HeardChannel(v: Server, published: seq<Message>)
    requires ChannelOk(v, published) && v.cursor < |published|
    ensures ChannelOk(Heard(v), published) && Heard(v).accepted[..v.taken] == v.accepted[..v.taken]
  {
  }

  lemma ConsumeKeeps(s: State, e: Step)
    requires Inv(s) && Enabled(s, e) && e.Consume?
    ensures Inv(Apply(s, e))
  {
    var t, v := Apply(s, e), s.servers[e.i];
    var m := s.published[v.accepted[v.taken]];
    assert ServerOk(v, s.published, s.next);
    if Allowed(m.event) {
      M.StartFanKeeps(v.hub, m);
    }
    ConsumedStreamOk(v, s.published);
    ConsumedLogOk(v, s);
    MovedOnlyKeeps(s, t, e.i);
  }

  lemma ConsumedStreamOk(v: Server, published: seq<Message>)
    requires ChannelOk(v, published) && StreamOk(v, published) && v.taken < |v.accepted|
    requires published[v.accepted[v.taken]].via.Redis?
    ensures var w := Consumed(v, published[v.accepted[v.taken]]);
            ChannelOk(w, published) && StreamOk(w, published)
  {
    var m := published[v.accepted[v.taken]];
    assert v.accepted[..v.taken + 1] == v.accepted[..v.taken] + [v.accepted[v.taken]];
    assert Pick(published, v.accepted[..v.taken + 1]) == Pick(published, v.accepted[..v.taken]) + [m];
    FilterAppend(Pick(published, v.accepted[..v.taken]), m, Passes());
    FilterAppend(v.hub.log, m, FromRedis());
  }

  lemma ConsumedLogOk(v: Server, s: State)
    requires PublishedOk(s) && ChannelOk(v, s.published) && LogOk(v, s.published, s.next) && v.taken < |v.accepted|
    ensures LogOk(Consumed(v, s.published[v.accepted[v.taken]]), s.published, s.next)
  {
  }

  lemma {:induction false} InvHolds(ss: seq<State>, es: seq<Step>, k: nat)
    requires IsRun(ss, es) && k < |ss|
    ensures Inv(ss[k])
  {
    if k > 0 {
      InvHolds(ss, es, k - 1);
      var s, e := ss[k - 1], es[k - 1];
      assert Enabled(s, e);
      match e {
        case HubAction(_, _) => HubActionKeeps(s, e);
        case Submit(_, _, true) => PublishKeeps(s, e);
        case Submit(_, _, false) => FallBackKeeps(s, e);
        case Deliver(_) => DeliverKeeps(s, e);
        case Consume(_) => ConsumeKeeps(s, e);
      }
    }
  }

  // What each hub fans out from Redis is the published order, thinned to the
  // positions its channel accepted and filtered by the event whitelist. Nothing
  // is missing when the channel accepted every position it was offered.
  lemma {:induction false} RedisStreamIsPublishedOrder(ss: seq<State>, es: seq<Step>, k: nat, i: nat)
    requires IsRun(ss, es) && k < |ss| && i < |ss[k].servers|
    ensures ChannelOk(ss[k].servers[i], ss[k].published)
    ensures var v := ss[k].servers[i];
            && Filter(v.hub.log, FromRedis()) == Filter(Pick(ss[k].published, v.accepted[..v.taken]), Passes())
            && (|v.accepted| == v.cursor ==> Filter(v.hub.log, FromRedis()) == Filter(ss[k].published[..v.taken], Passes()))
  {
    InvHolds(ss, es, k);
    var v := ss[k].servers[i];
    if |v.accepted| == v.cursor {
      NothingSkipped(v.accepted, v.cursor);
      assert Pick(ss[k].published, v.accepted[..v.taken]) == ss[k].published[..v.taken];
    }
  }

  lemma {:induction false} NothingSkipped(at: seq<nat>, n: nat)
    requires Increasing(at) && |at| == n && forall k :: 0 <= k < n ==> at[k] < n
    ensures forall k :: 0 <= k < n ==> at[k] == k
  {
    if n > 0 {
      assert forall k :: 0 <= k < n - 1 ==> at[k] < at[n - 1] <= n - 1;
      NothingSkipped(at[..n - 1], n - 1);
      assert forall k :: 0 <= k < n - 1 ==> at[k] == at[..n - 1][k];
      assert n > 1 ==> at[n - 2] == n - 2 && at[n - 2] < at[n - 1];
    }
  }

  // ---- what clients see

  lemma {:induction false} ProjectionOrdered(log: seq<Message>, reader: string)
    requires Ordered(log)
    ensures Ordered(Projection(log, reader))
    ensures forall x :: x in Projection(log, reader) ==> exists m :: m in log && x == Personalise(m, reader)
  {
    if log != [] {
      var init, m := log[..|log| - 1], log[|log| - 1];
      assert m in log;
      ProjectionOrdered(init, reader);
      var p := Projection(init, reader);
      forall i | 0 <= i < |p| && p[i].via.Redis? && m.via.Redis? ensures p[i].via.id < m.via.id {
        assert p[i] in p;
        var n :| n in init && p[i] == Personalise(n, reader);
        var k :| 0 <= k < |init| && init[k] == n;
        assert log[k] == n;
      }
    }
  }

  function Stream(s: State, i: nat, id: nat): seq<Message>
    requires i < |s.servers| && id in s.servers[i].hub.conns
  {
    M.HubPart(s.servers[i].hub.conns[id].put)
  }

  lemma StreamOrdered(s: State, i: nat, id: nat)
    requires Inv(s) && i < |s.servers| && id in s.servers[i].hub.conns
    ensures Ordered(Stream(s, i, id))
    ensures forall x :: x in Stream(s, i, id) && x.via.Redis? ==>
              exists m :: m in s.published && x == Personalise(m, s.servers[i].hub.conns[id].user)
  {
    var h := s.servers[i].hub;
    assert M.ConnOk(h, id);
    if h.conns[id].registered {
      StretchOrdered(s, i, h.conns[id].first, M.Served(h, id), h.conns[id].user);
    }
  }

  lemma StretchOrdered(s: State, i: nat, from: nat, to: nat, reader: string)
    requires Inv(s) && i < |s.servers| && from <= to <= |s.servers[i].hub.log|
    ensures var seen := Projection(s.servers[i].hub.log[from..to], reader);
            && Ordered(seen)
            && forall x :: x in seen && x.via.Redis? ==> exists m :: m in s.published && x == Personalise(m, reader)
  {
    var v := s.servers[i];
    var part := v.hub.log[from..to];
    assert LogOk(v, s.published, s.next);
    assert Ordered(part);
    ProjectionOrdered(part, reader);
    forall x | x in Projection(part, reader) && x.via.Redis?
      ensures exists m :: m in s.published && x == Personalise(m, reader)
    {
      var m :| m in part && x == Personalise(m, reader);
      assert m in v.hub.log && Came(m, v, s.published);
    }
  }

  lemma StreamsOf(ss: seq<State>, es: seq<Step>, t: nat, i: nat, x: nat)
    requires IsRun(ss, es) && t < |ss| && i < |ss[t].servers| && x in ss[t].servers[i].hub.conns
    ensures Ordered(Stream(ss[t], i, x))
    ensures forall m :: m in Stream(ss[t], i, x) && m.via.Redis? ==>
              exists n :: n in ss[t].published && m == Personalise(n, ss[t].servers[i].hub.conns[x].user)
  {
    InvHolds(ss, es, t);
    StreamOrdered(ss[t], i, x);
  }

  // No two clients, on any servers, see two shared messages in opposite order.
  lemma ClientsAgreeOnOrder(ss: seq<State>, es: seq<Step>, t: nat, i: nat, x: nat, j: nat, y: nat,
                            p: nat, q: nat, p': nat, q': nat)
    requires IsRun(ss, es) && t < |ss| && i < |ss[t].servers| && j < |ss[t].servers|
    requires x in ss[t].servers[i].hub.conns && y in ss[t].servers[j].hub.conns
    requires p < |Stream(ss[t], i, x)| && q < |Stream(ss[t], i, x)|
    requires p' < |Stream(ss[t], j, y)| && q' < |Stream(ss[t], j, y)|
    requires Stream(ss[t], i, x)[p].via == Stream(ss[t], j, y)[p'].via && Stream(ss[t], i, x)[p].via.Redis?
    requires Stream(ss[t], i, x)[q].via == Stream(ss[t], j, y)[q'].via && Stream(ss[t], i, x)[q].via.Redis?
    ensures p < q <==> p' < q'
  {
    StreamsOf(ss, es, t, i, x);
    StreamsOf(ss, es, t, j, y);
    OrdersAgree(Stream(ss[t], i, x), Stream(ss[t], j, y), p, q, p', q');
  }

  lemma OrdersAgree(a: seq<Message>, b: seq<Message>, p: nat, q: nat, p': nat, q': nat)
    requires Ordered(a) && Ordered(b) && p < |a| && q < |a| && p' < |b| && q' < |b|
    requires a[p].via == b[p'].via && a[p].via.Redis? && a[q].via == b[q'].via && a[q].via.Redis?
    ensures p < q <==> p' < q'
  {
  }

  // Two clients that see the same shared message both see the one published,
  // each personalised for its own user.
  lemma ClientsSeeThePublished(ss: seq<State>, es: seq<Step>, t: nat, i: nat, x: nat, j: nat, y: nat,
                               a: Message, b: Message)
    requires IsRun(ss, es) && t < |ss| && i < |ss[t].servers| && j < |ss[t].servers|
    requires x in ss[t].servers[i].hub.conns && y in ss[t].servers[j].hub.conns
    requires a in Stream(ss[t], i, x) && b in Stream(ss[t], j, y) && a.via == b.via && a.via.Redis?
    ensures exists m :: m in ss[t].published && a == Personalise(m, ss[t].servers[i].hub.conns[x].user)
                        && b == Personalise(m, ss[t].servers[j].hub.conns[y].user)
  {
    StreamsOf(ss, es, t, i, x);
    StreamsOf(ss, es, t, j, y);
    InvHolds(ss, es, t);
    var m :| m in ss[t].published && a == Personalise(m, ss[t].servers[i].hub.conns[x].user);
    var n :| n in ss[t].published && b == Personalise(n, ss[t].servers[j].hub.conns[y].user);
    assert m.via == n.via;
    PublishedOnce(ss[t].published, m, n);
  }

  lemma PublishedOnce(published: seq<Message>, m: Message, n: Message)
    requires Ordered(published) && m in published && n in published && m.via == n.via && m.via.Redis?
    ensures m == n
  {
  }

  // A message that was fanned out locally because it could not be published is
  // never fanned out again, by this server or another, locally or from Redis.
  lemma LocalOrSharedNotBoth(ss: seq<State>, es: seq<Step>, t: nat, i: nat, k: nat, j: nat, l: nat)
    requires IsRun(ss, es) && t < |ss| && i < |ss[t].servers| && j < |ss[t].servers|
    requires k < |ss[t].servers[i].hub.log| && ss[t].servers[i].hub.log[k].via.Direct?
    requires l < |ss[t].servers[j].hub.log| && !ss[t].servers[j].hub.log[l].via.Internal?
    requires i != j || k != l
    ensures ss[t].servers[i].hub.log[k].via.id != ss[t].servers[j].hub.log[l].via.id
  {
    InvHolds(ss, es, t);
    var s := ss[t];
    var a, b := s.servers[i].hub.log[k], s.servers[j].hub.log[l];
    assert LogOk(s.servers[i], s.published, s.next) && LogOk(s.servers[j], s.published, s.next);
    if i != j {
      assert DirectApart(s.servers[i], s.servers[j]);
      if b.via.Redis? {
        assert Came(b, s.servers[j], s.published) && NotPublished(s.published, a.via.id);
      }
    }
  }

  // ---- events outside the whitelist

  // Some hub has fanned out the message that was numbered `id`.
  ghost predicate Reached(s: State, id: nat) {
    exists j: nat, l: nat :: j < |s.servers| && l < |s.servers[j].hub.log|
                             && !s.servers[j].hub.log[l].via.Internal? && s.servers[j].hub.log[l].via.id == id
  }

  ghost predicate Grown(s: State, t: State) {
    && s.published <= t.published && |s.servers| == |t.servers|
    && forall j :: 0 <= j < |s.servers| ==> s.servers[j].hub.log <= t.servers[j].hub.log
  }

  lemma StepGrows(s: State, e: Step)
    requires Enabled(s, e) && s.servers[e.i].taken <= |s.servers[e.i].accepted|
    ensures Grown(s, Apply(s, e))
  {
    if e.HubAction? {
      HubActionsLogInternally(s.servers[e.i].hub, e.action);
    }
  }

  lemma {:induction false} RunGrows(ss: seq<State>, es: seq<Step>, j: nat, k: nat)
    requires IsRun(ss, es) && j <= k < |ss|
    ensures Grown(ss[j], ss[k])
  {
    if j < k {
      RunGrows(ss, es, j, k - 1);
      assert Enabled(ss[k - 1], es[k - 1]);
      StepGrows(ss[k - 1], es[k - 1]);
    }
  }

  lemma OnlyWhitelistedThroughRedis(ss: seq<State>, es: seq<Step>, t: nat, i: nat, m: Message)
    requires IsRun(ss, es) && t < |ss| && i < |ss[t].servers| && m in ss[t].servers[i].hub.log && m.via.Redis?
    ensures Allowed(m.event) && !m.event.Announce? && !m.event.Other?
  {
    RedisStreamIsPublishedOrder(ss, es, t, i);
    var v := ss[t].servers[i];
    FilterMembers(v.hub.log, FromRedis());
    FilterMembers(Pick(ss[t].published, v.accepted[..v.taken]), Passes());
    assert FromRedis()(m);
    assert Passes()(m);
  }

  lemma TakenAreLogged(ss: seq<State>, es: seq<Step>, t: nat, i: nat, j: nat)
    requires IsRun(ss, es) && t < |ss| && i < |ss[t].servers| && j < ss[t].servers[i].taken
    ensures var v, published := ss[t].servers[i], ss[t].published;
            && v.taken <= |v.accepted| && v.accepted[j] < |published|
            && (published[v.accepted[j]] in v.hub.log <==> Allowed(published[v.accepted[j]].event))
  {
    InvHolds(ss, es, t);
    RedisStreamIsPublishedOrder(ss, es, t, i);
    var v, published := ss[t].servers[i], ss[t].published;
    var taken, m := Pick(published, v.accepted[..v.taken]), published[v.accepted[j]];
    FilterMembers(v.hub.log, FromRedis());
    FilterMembers(taken, Passes());
    assert taken[j] == m && m in taken && FromRedis()(m);
    assert m in v.hub.log <==> m in Filter(v.hub.log, FromRedis());
    assert Passes()(m) <==> Allowed(m.event);
  }

  // Written out: a message that a hub has taken from its channel is in its log if it
  // is of one of these eleven events, and otherwise never.
  lemma WhitelistExactly(ss: seq<State>, es: seq<Step>, t: nat, i: nat, j: nat)
    requires IsRun(ss, es) && t < |ss| && i < |ss[t].servers| && j < ss[t].servers[i].taken
    ensures var v, published := ss[t].servers[i], ss[t].published;
            && v.taken <= |v.accepted| && v.accepted[j] < |published|
            && var e := published[v.accepted[j]].event;
               published[v.accepted[j]] in v.hub.log <==>
                 (e == Msg || e == MsgFile || e == MsgEdit || e == MsgDelete || e == Open || e == Close || e == ChatLog
                  || e == Presence || e == TypingStart || e == TypingStop || e == Warn)
  {
    TakenAreLogged(ss, es, t, i, j);
  }

  lemma PublishedUnlistedUnseen(ss: seq<State>, es: seq<Step>, t: nat, p: nat)
    requires IsRun(ss, es) && t < |ss| && p < |ss[t].published| && !Allowed(ss[t].published[p].event)
    ensures ss[t].published[p].via.Redis? ==> !Reached(ss[t], ss[t].published[p].via.id)
  {
    InvHolds(ss, es, t);
    var s, m := ss[t], ss[t].published[p];
    forall j: nat, l: nat | j < |s.servers| && l < |s.servers[j].hub.log| && !s.servers[j].hub.log[l].via.Internal?
      ensures s.servers[j].hub.log[l].via.id != m.via.id
    {
      var n := s.servers[j].hub.log[l];
      assert LogOk(s.servers[j], s.published, s.next);
      if n.via.Redis? {
        OnlyWhitelistedThroughRedis(ss, es, t, j, n);
        assert Came(n, s.servers[j], s.published);
        if n.via.id == m.via.id {
          PublishedOnce(s.published, n, m);
          assert false;
        }
      } else {
        assert NotPublished(s.published, n.via.id);
      }
    }
  }

  // An ANNOUNCE (or any event outside the whitelist) is seen by some hub exactly
  // when it could not be published: what a healthy Redis carries is rejected by
  // every hub that hears it, the sender's included.
  lemma UnlistedSeenExactlyWhenUnpublished(ss: seq<State>, es: seq<Step>, k: nat, t: nat,
                                           i: nat, m: Message, healthy: bool)
    requires IsRun(ss, es) && k < t < |ss| && es[k] == Submit(i, m, healthy) && !Allowed(m.event)
    ensures Reached(ss[t], ss[k].next) <==> !healthy
  {
    var s := ss[k];
    assert Enabled(s, es[k]) && ss[k + 1] == Apply(s, es[k]);
    RunGrows(ss, es, k + 1, t);
    if healthy {
      var p := |s.published|;
      assert ss[k + 1].published[p] == m.(via := Redis(s.next)) == ss[t].published[p];
      PublishedUnlistedUnseen(ss, es, t, p);
    } else {
      var l := |s.servers[i].hub.log|;
      assert ss[k + 1].servers[i].hub.log[l] == m.(via := Direct(s.next)) == ss[t].servers[i].hub.log[l];
    }
  }

  // ---- what each step does, field by field

  ghost predicate OthersSame(s: State, t: State, i: nat) {
    |t.servers| == |s.servers| && forall j :: 0 <= j < |s.servers| && j != i ==> t.servers[j] == s.servers[j]
  }

  // A healthy submission joins the end of the published order, as it is but for its
  // number, and reaches no hub yet; an unhealthy one is fanned out at home only.
  lemma WhatSubmitDoes(s: State, i: nat, m: Message, healthy: bool)
    requires Enabled(s, Submit(i, m, healthy)) && s.servers[i].taken <= |s.servers[i].accepted|
    ensures var t := Apply(s, Submit(i, m, healthy));
            && t.next == s.next + 1
            && (healthy ==> t.published == s.published + [m.(via := Redis(s.next))] && t.servers == s.servers)
            && (!healthy ==>
                  && t.published == s.published && OthersSame(s, t, i)
                  && t.servers[i].hub.log == s.servers[i].hub.log + [m.(via := Direct(s.next))]
                  && t.servers[i].accepted == s.servers[i].accepted && t.servers[i].taken == s.servers[i].taken)
  {
  }

  // A subscription offers the next published message to its hub's channel, which drops
  // it if and only if 256 messages wait.
  lemma WhatDeliverDoes(s: State, i: nat)
    requires Enabled(s, Deliver(i)) && s.servers[i].taken <= |s.servers[i].accepted|
    ensures var t, v := Apply(s, Deliver(i)), s.servers[i];
            && OthersSame(s, t, i) && t.published == s.published && t.servers[i].hub == v.hub && t.servers[i].taken == v.taken
            && t.servers[i].cursor == v.cursor + 1
            && t.servers[i].accepted == if |v.accepted| - v.taken < 256 then v.accepted + [v.cursor] else v.accepted
  {
  }

  // The hub takes the oldest waiting message, and fans it out unless its event is
  // ANNOUNCE or unknown.
  lemma WhatConsumeDoes(s: State, i: nat)
    requires Enabled(s, Consume(i))
    ensures var t, v := Apply(s, Consume(i)), s.servers[i];
            var m := s.published[v.accepted[v.taken]];
            && OthersSame(s, t, i) && t.published == s.published && t.servers[i].taken == v.taken + 1
            && t.servers[i].accepted == v.accepted && t.servers[i].cursor == v.cursor
            && t.servers[i].hub.log == if m.event == Announce || m.event.Other? then v.hub.log else v.hub.log + [m]
  {
  }

  // A hub that ends loses what waits in its channel; one that starts hears what is
  // published from then on.
  lemma WhatMovingDoes(s: State, i: nat, a: M.Action)
    requires Enabled(s, HubAction(i, a)) && s.servers[i].taken <= |s.servers[i].accepted|
    ensures var t, v := Apply(s, HubAction(i, a)), s.servers[i];
            && OthersSame(s, t, i) && t.published == s.published && t.servers[i].hub == M.Apply(v.hub, a)
            && t.servers[i].taken == v.taken
            && t.servers[i].accepted == (if a.StopSignal? || a.IdleTimeout? then v.accepted[..v.taken] else v.accepted)
            && t.servers[i].cursor == if a.Restart? then |s.published| else v.cursor
  {
  }
}
