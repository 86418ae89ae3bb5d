// A room hub as a state machine. The hub goroutine's select branches, the
// single sends of a fan-out, the readers and the writers of the clients are
// separate actions, so they interleave freely.
module HubMachine {
  import opened Messages

  const SEND_BUFFER: nat := 256

  datatype Item = History(message: Message) | FromHub(message: Message) | Warning(message: Message)

  // A websocket client and its Send channel. `put` is everything ever placed in
  // the channel and `taken` how much of it writePump has removed, so what the
  // channel holds is put[taken..].
  datatype Conn = Conn(user: string, room: string, put: seq<Item>, taken: nat, closed: bool,
                       registered: bool, first: nat, last: nat, unregistered: bool)
  {
    predicate Sound() {
      taken <= |put| <= taken + SEND_BUFFER
    }

    function Queue(): seq<Item>
      requires Sound()
    {
      put[taken..]
    }

    predicate Full() {
      |put| >= taken + SEND_BUFFER
    }
  }

  // Where the hub goroutine is: at its select, or inside a fan-out.
  datatype Fan = Quiet | Sending(todo: set<nat>, slow: set<nat>)

  // `dark` remembers the users whose presence entry was withdrawn (by an eviction
  // or by expiry) since they last registered.
  datatype Hub = Hub(conns: map<nat, Conn>, clients: set<nat>, log: seq<Message>, fan: Fan,
                     online: set<string>, dark: set<string>, running: bool, panicked: bool)

  datatype Action =
    | Connect(id: nat, user: string, room: string, past: seq<Message>)
    | Register(id: nat)
    | Unregister(id: nat)
    | Incoming(message: Message)
    | Offer(id: nat)
    | Evict
    | Drain(id: nat)
    | Caution(id: nat, warning: Message)
    | Expire(user: string)
    | StopSignal
    | IdleTimeout
    | Restart

  const INIT := Hub(map[], {}, [], Quiet, {}, {}, true, false)

  function UsersOf(conns: map<nat, Conn>, ids: set<nat>): set<string> {
    set id | id in ids && id in conns :: conns[id].user
  }

  // ---- the client's life before registration

  function LastOf(past: seq<Message>): seq<Message> {
    if |past| > SEND_BUFFER then past[|past| - SEND_BUFFER..] else past
  }

  // A stored message as history: its id and time survive, the other extras do not.
  function AsHistory(m: Message, reader: string): Message {
    m.(event := ChatLog, owner := m.user == reader,
       extras := Extras(m.extras.messageId, m.extras.createdAt, "", false, ""))
  }

  function HistoryItems(past: seq<Message>, reader: string): seq<Item> {
    seq(|past|, i requires 0 <= i < |past| => History(AsHistory(past[i], reader)))
  }

  function NewConn(user: string, room: string, past: seq<Message>): Conn {
    Conn(user, room, HistoryItems(LastOf(past), user), 0, false, false, 0, 0, false)
  }

  // The history of a new client, field by field: the latest 256 of the stored messages,
  // in their order, each marked as history and as owned by its sender only.
  lemma HistoryIsFaithful(user: string, room: string, past: seq<Message>)
    ensures var c := NewConn(user, room, past);
            && c.user == user && c.room == room && c.taken == 0 && !c.closed && !c.registered && !c.unregistered
            && |c.put| == (if |past| < 256 then |past| else 256)
            && forall k :: 0 <= k < |c.put| ==>
                 var m := past[|past| - |c.put| + k];
                 c.put[k].History? && var x := c.put[k].message;
                 x.event == ChatLog && x.user == m.user && x.text == m.text && x.room == m.room
                 && (x.owner <==> m.user == user)
                 && x.extras.messageId == m.extras.messageId && x.extras.createdAt == m.extras.createdAt
  {
  }

  // ---- the hub's branches

  function StartFan(h: Hub, m: Message): Hub {
    h.(log := h.log + [m], fan := Sending(h.clients, {}))
  }

  function Admitted(h: Hub, id: nat): Hub
    requires id in h.conns
  {
    var c := h.conns[id];
    h.(conns := h.conns[id := c.(registered := true, first := |h.log|)],
       clients := h.clients + {id},
       online := h.online + {c.user},
       dark := h.dark - {c.user})
  }

  function Dismissed(h: Hub, id: nat): Hub
    requires id in h.conns
  {
    var c := h.conns[id];
    if id in h.clients then
      h.(conns := h.conns[id := c.(closed := true, last := |h.log|, unregistered := true)],
         clients := h.clients - {id})
    else
      h.(conns := h.conns[id := c.(unregistered := true)])
  }

  function Unregistered(h: Hub, id: nat): Hub
    requires id in h.conns
  {
    var d := Dismissed(h, id);
    var user := h.conns[id].user;
    if user in UsersOf(d.conns, d.clients) then d
    else StartFan(d.(online := d.online - {user}), PresenceMessage(user, h.conns[id].room, "offline"))
  }

  function Offered(h: Hub, id: nat): Hub
    requires h.fan.Sending? && id in h.conns && h.log != []
  {
    var c, m := h.conns[id], h.log[|h.log| - 1];
    var rest := h.fan.todo - {id};
    if !Wants(m, c.user) then
      h.(fan := Sending(rest, h.fan.slow))
    else if c.Full() then
      h.(fan := Sending(rest, h.fan.slow + {id}))
    else
      h.(conns := h.conns[id := c.(put := c.put + [FromHub(Personalise(m, c.user))])],
         fan := Sending(rest, h.fan.slow))
  }

  // Close the Send channels of `ids`, whose last message is the one before `end`.
  function CloseAll(conns: map<nat, Conn>, ids: set<nat>, end: nat): map<nat, Conn> {
    map id | id in conns :: if id in ids then conns[id].(closed := true, last := end) else conns[id]
  }

  function Evicted(h: Hub): Hub
    requires h.fan.Sending? && h.log != []
  {
    var users := UsersOf(h.conns, h.fan.slow);
    h.(conns := CloseAll(h.conns, h.fan.slow, |h.log| - 1),
       clients := h.clients - h.fan.slow,
       online := h.online - users,
       dark := h.dark + users,
       fan := Quiet)
  }

  // A reader goroutine pushes a warning into its own Send channel without
  // blocking; on a closed channel the Go runtime panics.
  function Cautioned(h: Hub, id: nat, m: Message): Hub
    requires id in h.conns
  {
    var c := h.conns[id];
    if c.closed then h.(panicked := true)
    else if c.Full() then h
    else h.(conns := h.conns[id := c.(put := c.put + [Warning(m)])])
  }

  predicate Enabled(h: Hub, a: Action) {
    !h.panicked &&
    match a
    case Connect(id, _, _, _) => id !in h.conns
    case Register(id) => AtSelect(h) && id in h.conns && !h.conns[id].registered
    case Unregister(id) => AtSelect(h) && id in h.conns && h.conns[id].registered && !h.conns[id].unregistered
    case Incoming(m) => AtSelect(h) && !m.event.Presence?
    case Offer(id) => h.fan.Sending? && id in h.fan.todo && id in h.conns && h.log != []
    case Evict => h.fan.Sending? && h.fan.todo == {} && h.log != []
    case Drain(id) => id in h.conns && h.conns[id].taken < |h.conns[id].put|
    case Caution(id, m) => id in h.conns && h.conns[id].registered && !h.conns[id].unregistered
    case Expire(_) => true
    case StopSignal => AtSelect(h)
    case IdleTimeout => AtSelect(h) && h.clients == {}
    case Restart => !h.running
  }

  predicate AtSelect(h: Hub) {
    h.running && h.fan.Quiet?
  }

  function Apply(h: Hub, a: Action): Hub
    requires Enabled(h, a)
  {
    match a
    case Connect(id, user, room, past) => h.(conns := h.conns[id := NewConn(user, room, past)])
    case Register(id) =>
      StartFan(Admitted(h, id), PresenceMessage(h.conns[id].user, h.conns[id].room, "online"))
    case Unregister(id) => Unregistered(h, id)
    case Incoming(m) => StartFan(h, m)
    case Offer(id) => Offered(h, id)
    case Evict => Evicted(h)
    case Drain(id) => h.(conns := h.conns[id := h.conns[id].(taken := h.conns[id].taken + 1)])
    case Caution(id, m) => Cautioned(h, id, m)
    case Expire(user) => h.(online := h.online - {user}, dark := h.dark + {user})
    case StopSignal => h.(conns := CloseAll(h.conns, h.clients, |h.log|), clients := {}, running := false)
    case IdleTimeout => h.(running := false)
    case Restart => h.(running := true)
  }

  ghost predicate IsRun(hs: seq<Hub>, acts: seq<Action>) {
    && |hs| == |acts| + 1
    && hs[0] == INIT
    && forall i {:trigger acts[i]} :: 0 <= i < |acts| ==> Enabled(hs[i], acts[i]) && hs[i + 1] == Apply(hs[i], acts[i])
  }

  // ---- no silent gap

  // The part of a Send channel that the hub itself wrote.
  function HubPart(items: seq<Item>): seq<Message> {
    if items == [] then []
    else
      var x := items[|items| - 1];
      HubPart(items[..|items| - 1]) + (if x.FromHub? then [x.message] else [])
  }

  lemma HubPartAppend(items: seq<Item>, x: Item)
    ensures HubPart(items + [x]) == HubPart(items) + (if x.FromHub? then [x.message] else [])
  {
  }

  lemma {:induction false} NoHubPart(items: seq<Item>)
    requires forall x :: x in items ==> x.History?
    ensures HubPart(items) == []
  {
    if items != [] {
      assert items[|items| - 1] in items;
      NoHubPart(items[..|items| - 1]);
    }
  }

  // The log position up to which connection `id` has been served.
  function Served(h: Hub, id: nat): nat
    requires id in h.conns
  {
    if h.conns[id].closed then h.conns[id].last
    else if h.fan.Sending? && (id in h.fan.todo || id in h.fan.slow) && h.log != [] then |h.log| - 1
    else |h.log|
  }

  ghost predicate HistoryFirst(items: seq<Item>) {
    forall i, j :: 0 <= i < j < |items| && items[j].History? ==> items[i].History?
  }

  // A connection that has been served the log up to `served`.
  ghost predicate Fits(c: Conn, isClient: bool, served: nat, log: seq<Message>) {
    && c.Sound()
    && HistoryFirst(c.put)
    && (isClient <==> c.registered && !c.closed)
    && (!c.registered ==> HubPart(c.put) == [] && !c.closed && !c.unregistered)
    && (c.unregistered ==> c.closed)
    && (c.registered ==>
          && c.first <= served <= |log|
          && HubPart(c.put) == Projection(log[c.first..served], c.user))
  }

  ghost predicate ConnOk(h: Hub, id: nat)
    requires id in h.conns
  {
    Fits(h.conns[id], id in h.clients, Served(h, id), h.log)
  }

  ghost predicate FanOk(h: Hub) {
    h.fan.Sending? ==>
      h.running && h.log != [] && h.fan.todo !! h.fan.slow && h.fan.todo + h.fan.slow <= h.clients
  }

  ghost predicate Inv(h: Hub) {
    && h.clients <= h.conns.Keys
    && FanOk(h)
    && (!h.running ==> h.clients == {})
    && forall id :: id in h.conns ==> ConnOk(h, id)
  }

  // A log that grows by one message leaves every finished stretch alone and
  // leaves the pending clients one message behind.
  lemma StartFanKeeps(h: Hub, m: Message)
    requires Inv(h) && AtSelect(h)
    ensures Inv(StartFan(h, m))
  {
    var g := StartFan(h, m);
    forall id | id in g.conns ensures ConnOk(g, id) {
      assert ConnOk(h, id);
      if g.conns[id].registered {
        assert Served(g, id) == Served(h, id);
        assert g.log[g.conns[id].first..Served(g, id)] == h.log[h.conns[id].first..Served(h, id)];
      }
    }
  }

  lemma AdmitKeeps(h: Hub, id: nat)
    requires Inv(h) && Enabled(h, Register(id))
    ensures Inv(Admitted(h, id)) && AtSelect(Admitted(h, id))
  {
  }

  lemma DismissKeeps(h: Hub, id: nat)
    requires Inv(h) && Enabled(h, Unregister(id))
    ensures Inv(Dismissed(h, id)) && AtSelect(Dismissed(h, id))
  {
  }

  lemma ServedOneMore(c: Conn, log: seq<Message>)
    requires log != [] && !c.Full() && !c.closed && c.registered
    requires Fits(c, true, |log| - 1, log)
    requires Wants(log[|log| - 1], c.user)
    ensures Fits(c.(put := c.put + [FromHub(Personalise(log[|log| - 1], c.user))]), true, |log|, log)
  {
    var m := log[|log| - 1];
    var before := log[c.first..|log| - 1];
    assert log[c.first..|log|] == before + [m];
    ProjectionAppend(before, m, c.user);
    HubPartAppend(c.put, FromHub(Personalise(m, c.user)));
  }

  lemma SkippedOneMore(c: Conn, log: seq<Message>)
    requires log != [] && !c.closed && c.registered
    requires Fits(c, true, |log| - 1, log)
    requires !Wants(log[|log| - 1], c.user)
    ensures Fits(c, true, |log|, log)
  {
    var before := log[c.first..|log| - 1];
    assert log[c.first..|log|] == before + [log[|log| - 1]];
    ProjectionAppend(before, log[|log| - 1], c.user);
  }

  lemma WarnedToo(c: Conn, isClient: bool, served: nat, log: seq<Message>, m: Message)
    requires Fits(c, isClient, served, log) && !c.Full()
    ensures Fits(c.(put := c.put + [Warning(m)]), isClient, served, log)
  {
  }

  // What offering `m` does to a connection: its queue grows unless it is full or the
  // message is not for its reader.
  function Delivered(c: Conn, m: Message): Conn {
    if Wants(m, c.user) && !c.Full() then c.(put := c.put + [FromHub(Personalise(m, c.user))]) else c
  }

  lemma OfferedFits(c: Conn, log: seq<Message>)
    requires log != [] && !c.closed && c.registered && Fits(c, true, |log| - 1, log)
    ensures var m := log[|log| - 1];
            Fits(Delivered(c, m), true, if Wants(m, c.user) && c.Full() then |log| - 1 else |log|, log)
  {
    if !Wants(log[|log| - 1], c.user) {
      SkippedOneMore(c, log);
    } else if !c.Full() {
      ServedOneMore(c, log);
    }
  }

  lemma OfferServes(h: Hub, id: nat)
    requires Inv(h) && Enabled(h, Offer(id))
    ensures ConnOk(Offered(h, id), id)
  {
    var g, c, m := Offered(h, id), h.conns[id], h.log[|h.log| - 1];
    assert ConnOk(h, id) && id in h.clients && Served(h, id) == |h.log| - 1;
    OfferedFits(c, h.log);
    assert g.log == h.log && g.clients == h.clients && g.conns[id] == Delivered(c, m);
    assert Served(g, id) == if Wants(m, c.user) && c.Full() then |h.log| - 1 else |h.log|;
  }

  lemma SameConn(h: Hub, g: Hub, k: nat)
    requires k in h.conns && ConnOk(h, k) && k in g.conns && g.conns[k] == h.conns[k]
    requires g.log == h.log && (k in g.clients <==> k in h.clients) && Served(g, k) == Served(h, k)
    ensures ConnOk(g, k)
  {
  }

  lemma OfferKeeps(h: Hub, id: nat)
    requires Inv(h) && Enabled(h, Offer(id))
    ensures Inv(Offered(h, id))
  {
    var g := Offered(h, id);
    OfferServes(h, id);
    forall k | k in g.conns && k != id ensures ConnOk(g, k) {
      assert g.conns[k] == h.conns[k] && Served(g, k) == Served(h, k);
      SameConn(h, g, k);
    }
  }

  lemma EvictKeeps(h: Hub)
    requires Inv(h) && Enabled(h, Evict)
    ensures Inv(Evicted(h))
  {
  }

  lemma CautionKeeps(h: Hub, id: nat, m: Message)
    requires Inv(h) && Enabled(h, Caution(id, m))
    ensures Inv(Cautioned(h, id, m))
  {
    var g := Cautioned(h, id, m);
    forall k | k in g.conns ensures ConnOk(g, k) {
      assert ConnOk(h, k);
      assert Served(g, k) == Served(h, k);
      if k == id && g.conns[k] != h.conns[k] {
        WarnedToo(h.conns[k], k in h.clients, Served(h, k), h.log, m);
      }
    }
  }

  lemma ConnectKeeps(h: Hub, a: Action)
    requires Inv(h) && a.Connect? && Enabled(h, a)
    ensures Inv(Apply(h, a))
  {
    var g := Apply(h, a);
    forall k | k in g.conns ensures ConnOk(g, k) {
      if k == a.id {
        NoHubPart(g.conns[k].put);
      } else {
        assert ConnOk(h, k);
      }
    }
  }

  lemma StopKeeps(h: Hub)
    requires Inv(h) && Enabled(h, StopSignal)
    ensures Inv(Apply(h, StopSignal))
  {
  }

  lemma DrainKeeps(h: Hub, id: nat)
    requires Inv(h) && Enabled(h, Drain(id))
    ensures Inv(Apply(h, Drain(id)))
  {
  }

  lemma QuietKeeps(h: Hub, a: Action)
    requires Inv(h) && Enabled(h, a) && (a.Expire? || a.IdleTimeout? || a.Restart?)
    ensures Inv(Apply(h, a))
  {
  }

  lemma InvKept(h: Hub, a: Action)
    requires Inv(h) && Enabled(h, a)
    ensures Inv(Apply(h, a))
  {
    match a {
      case Connect(_, _, _, _) => ConnectKeeps(h, a);
      case Register(id) =>
        AdmitKeeps(h, id);
        StartFanKeeps(Admitted(h, id), PresenceMessage(h.conns[id].user, h.conns[id].room, "online"));
      case Unregister(id) =>
        DismissKeeps(h, id);
        var d := Dismissed(h, id);
        var user := h.conns[id].user;
        if user !in UsersOf(d.conns, d.clients) {
          OnlineIrrelevant(d, d.online - {user});
          StartFanKeeps(d.(online := d.online - {user}), PresenceMessage(user, h.conns[id].room, "offline"));
        }
      case Incoming(m) => StartFanKeeps(h, m);
      case Offer(id) => OfferKeeps(h, id);
      case Evict => EvictKeeps(h);
      case Drain(id) => DrainKeeps(h, id);
      case Caution(id, m) => CautionKeeps(h, id, m);
      case StopSignal => StopKeeps(h);
      case _ => QuietKeeps(h, a);
    }
  }

  lemma {:induction false} InvHolds(hs: seq<Hub>, acts: seq<Action>, i: nat)
    requires IsRun(hs, acts) && i < |hs|
    ensures Inv(hs[i])
  {
    if i > 0 {
      InvHolds(hs, acts, i - 1);
      assert Enabled(hs[i - 1], acts[i - 1]);
      InvKept(hs[i - 1], acts[i - 1]);
    }
  }

  // In every run, at every moment, what the hub wrote into a client's Send
  // channel is the personalised projection of one contiguous stretch of its log.
  // The stretch begins at the client's registration and reaches the end of the
  // log (up to the message being fanned out) for as long as the client is in
  // Clients, and Clients holds exactly the registered clients with an open Send.
  lemma NoSilentGap(hs: seq<Hub>, acts: seq<Action>, i: nat, id: nat)
    requires IsRun(hs, acts) && i < |hs| && id in hs[i].conns && hs[i].conns[id].registered
    ensures var h := hs[i];
            var c, end := h.conns[id], Served(h, id);
            && c.first < |h.log| && h.log[c.first] == Message(Presence, c.user, "online", false, c.room, NO_EXTRAS, Internal)
            && c.first <= end <= |h.log| && HubPart(c.put) == Projection(h.log[c.first..end], c.user)
            && (id in h.clients <==> !c.closed)
            && (id in h.clients ==> end == |h.log| || (h.fan.Sending? && end == |h.log| - 1))
            && (id in h.clients && h.fan.Quiet? ==> end == |h.log|)
            && |c.put| - c.taken <= SEND_BUFFER
  {
    InvHolds(hs, acts, i);
    assert ConnOk(hs[i], id);
    StartsAtRegistration(hs, acts, i, id);
  }

  // Written out: the hub's messages in a client's Send are, in order and field by
  // field, the client's copies of the messages of its stretch. Each is marked as owned
  // if and only if its sender is the client's user, and a message of the stretch is
  // left out if and only if it is that user's own typing event.
  lemma CopiesAreFaithful(hs: seq<Hub>, acts: seq<Action>, i: nat, id: nat)
    requires IsRun(hs, acts) && i < |hs| && id in hs[i].conns
    ensures var h, c := hs[i], hs[i].conns[id];
            if c.registered
            then c.first <= Served(h, id) <= |h.log| && Faithful(HubPart(c.put), h.log[c.first..Served(h, id)], c.user)
            else HubPart(c.put) == []
  {
    InvHolds(hs, acts, i);
    var h, c := hs[i], hs[i].conns[id];
    assert ConnOk(h, id);
    if c.registered {
      ProjectionIsFaithful(h.log[c.first..Served(h, id)], c.user);
    }
  }

  // A client's stretch of the log begins with its own PRESENCE event.
  lemma {:induction false} StartsAtRegistration(hs: seq<Hub>, acts: seq<Action>, i: nat, id: nat)
    requires IsRun(hs, acts) && i < |hs| && id in hs[i].conns && hs[i].conns[id].registered
    ensures var h, c := hs[i], hs[i].conns[id];
            c.first < |h.log| && h.log[c.first] == Message(Presence, c.user, "online", false, c.room, NO_EXTRAS, Internal)
  {
    var h, a := hs[i - 1], acts[i - 1];
    assert Enabled(h, a) && hs[i] == Apply(h, a);
    if a != Register(id) {
      RegisteredBefore(h, a, id);
      StartsAtRegistration(hs, acts, i - 1, id);
    }
  }

  lemma RegisteredBefore(h: Hub, a: Action, id: nat)
    requires Enabled(h, a) && a != Register(id) && id in Apply(h, a).conns && Apply(h, a).conns[id].registered
    ensures id in h.conns && h.conns[id].registered && h.log <= Apply(h, a).log
    ensures var c, d := h.conns[id], Apply(h, a).conns[id]; d.first == c.first && d.user == c.user && d.room == c.room
  {
  }

  // What has reached the websocket is a prefix of that projection, and the
  // history queued before registration comes before every live message.
  lemma {:induction false} WireSeesPrefix(hs: seq<Hub>, acts: seq<Action>, i: nat, id: nat)
    requires IsRun(hs, acts) && i < |hs| && id in hs[i].conns && hs[i].conns[id].registered
    ensures var h := hs[i];
            var c := h.conns[id];
            && c.taken <= |c.put| && c.first <= Served(h, id) <= |h.log|
            && HubPart(c.put[..c.taken]) <= Projection(h.log[c.first..Served(h, id)], c.user)
            && forall j, k :: 0 <= j < k < |c.put| && c.put[k].History? ==> c.put[j].History?
  {
    InvHolds(hs, acts, i);
    assert ConnOk(hs[i], id);
    HubPartPrefix(hs[i].conns[id].put, hs[i].conns[id].taken);
  }

  lemma {:induction false} HubPartPrefix(items: seq<Item>, n: nat)
    requires n <= |items|
    ensures HubPart(items[..n]) <= HubPart(items)
  {
    if n == |items| {
      assert items[..n] == items;
    } else {
      HubPartPrefix(items[..|items| - 1], n);
      assert items[..|items| - 1][..n] == items[..n];
    }
  }

  // Once Send is closed nothing follows: no later action of the run changes what
  // the channel was given or reopens it.
  lemma {:induction false} NothingAfterClose(hs: seq<Hub>, acts: seq<Action>, i: nat, j: nat, id: nat)
    requires IsRun(hs, acts) && i <= j < |hs| && id in hs[i].conns && hs[i].conns[id].closed
    ensures id in hs[j].conns && hs[j].conns[id].closed && hs[j].conns[id].put == hs[i].conns[id].put
    ensures id !in hs[j].clients
  {
    InvHolds(hs, acts, j);
    if i < j {
      NothingAfterClose(hs, acts, i, j - 1, id);
      InvHolds(hs, acts, j - 1);
      assert Enabled(hs[j - 1], acts[j - 1]);
      ClosedStays(hs[j - 1], acts[j - 1], id);
    } else {
      assert ConnOk(hs[j], id);
    }
  }

  lemma ClosedStays(h: Hub, a: Action, id: nat)
    requires Inv(h) && Enabled(h, a) && id in h.conns && h.conns[id].closed
    ensures var g := Apply(h, a);
            id in g.conns && g.conns[id].closed && g.conns[id].put == h.conns[id].put && id !in g.clients
  {
    assert ConnOk(h, id);
  }

  // The hub never sends on a closed channel. The one action of a run that makes
  // the runtime panic is a reader warning a client whose Send is already closed.
  lemma PanicsExactlyOnLateWarning(h: Hub, a: Action)
    requires Inv(h) && Enabled(h, a)
    ensures Apply(h, a).panicked <==> a.Caution? && h.conns[a.id].closed
    ensures a.Offer? ==> !h.conns[a.id].closed
  {
  }

  ghost predicate Reachable(h: Hub) {
    exists hs: seq<Hub>, acts: seq<Action> :: IsRun(hs, acts) && hs[|acts|] == h
  }

  lemma ReachMore(h: Hub, a: Action)
    requires Reachable(h) && Enabled(h, a)
    ensures Reachable(Apply(h, a))
  {
    var hs: seq<Hub>, acts: seq<Action> :| IsRun(hs, acts) && hs[|acts|] == h;
    var g := Apply(h, a);
    RunMore(hs, acts, a, g);
    assert (hs + [g])[|acts + [a]|] == g;
  }

  lemma RunMore(hs: seq<Hub>, acts: seq<Action>, a: Action, g: Hub)
    requires IsRun(hs, acts) && Enabled(hs[|acts|], a) && g == Apply(hs[|acts|], a)
    ensures IsRun(hs + [g], acts + [a])
  {
  }

  // It can happen to every connected client: the hub stops, then its reader warns.
  lemma LateWarningPanics(h: Hub, id: nat, m: Message)
    requires Reachable(h) && AtSelect(h) && !h.panicked && id in h.clients
    ensures exists g :: Reachable(g) && g.panicked
  {
    var hs: seq<Hub>, acts: seq<Action> :| IsRun(hs, acts) && hs[|acts|] == h;
    InvHolds(hs, acts, |acts|);
    assert ConnOk(h, id);
    var stopped := Apply(h, StopSignal);
    ReachMore(h, StopSignal);
    assert Enabled(stopped, Caution(id, m)) && stopped.conns[id].closed;
    ReachMore(stopped, Caution(id, m));
  }

  // ---- a whole fan-out, whatever the order of its sends

  function SlowFor(h: Hub, m: Message, ids: set<nat>): set<nat> {
    set id | id in ids && id in h.conns && Wants(m, h.conns[id].user) && h.conns[id].Full()
  }

  // The fan-out of `m` from select state `h` when only the clients in `todo` remain.
  function FanAfter(h: Hub, m: Message, todo: set<nat>): Hub {
    var served := h.clients - todo;
    h.(log := h.log + [m],
       conns := map id | id in h.conns :: if id in served then Delivered(h.conns[id], m) else h.conns[id],
       fan := Sending(todo, SlowFor(h, m, served)))
  }

  function Fanout(h: Hub, m: Message): Hub {
    Evicted(FanAfter(h, m, {}))
  }

  lemma FanBegins(h: Hub, m: Message)
    ensures FanAfter(h, m, h.clients) == StartFan(h, m)
  {
    assert FanAfter(h, m, h.clients).conns == h.conns;
    assert SlowFor(h, m, h.clients - h.clients) == {};
  }

  lemma FanAdvances(h: Hub, m: Message, todo: set<nat>, id: nat)
    requires id in todo && todo <= h.clients && h.clients <= h.conns.Keys
    ensures Offered(FanAfter(h, m, todo), id) == FanAfter(h, m, todo - {id})
  {
    var f, g := FanAfter(h, m, todo), FanAfter(h, m, todo - {id});
    assert h.clients - (todo - {id}) == (h.clients - todo) + {id};
    assert f.conns[id] == h.conns[id];
    assert Offered(f, id).conns == g.conns;
    assert Offered(f, id).fan == g.fan;
  }

  function OfferAll(h: Hub, order: seq<nat>): (g: Hub)
    requires h.fan.Sending? && h.log != [] && forall id :: id in order ==> id in h.conns
    ensures g.fan.Sending? && g.log == h.log
    decreases |order|
  {
    if order == [] then h else OfferAll(Offered(h, order[0]), order[1..])
  }

  // Clients is a Go map, iterated in no fixed order: the order does not matter.
  lemma {:induction false} AnyOrderSameFanout(h: Hub, m: Message, todo: set<nat>, order: seq<nat>)
    requires todo <= h.clients <= h.conns.Keys
    requires forall id :: id in order <==> id in todo
    requires forall i, j :: 0 <= i < j < |order| ==> order[i] != order[j]
    ensures Evicted(OfferAll(FanAfter(h, m, todo), order)) == Fanout(h, m)
  {
    if order == [] {
      assert todo == {};
    } else {
      assert order[0] in todo;
      FanAdvances(h, m, todo, order[0]);
      forall id | id in order[1..] ensures id in todo - {order[0]} {
        assert id in order;
      }
      AnyOrderSameFanout(h, m, todo - {order[0]}, order[1..]);
    }
  }

  lemma {:induction false} FanAfterKeeps(h: Hub, m: Message, todo: set<nat>)
    requires Inv(h) && AtSelect(h) && !h.panicked && todo <= h.clients
    ensures Inv(FanAfter(h, m, todo))
    decreases h.clients - todo
  {
    if h.clients - todo == {} {
      assert todo == h.clients;
      FanBegins(h, m);
      StartFanKeeps(h, m);
    } else {
      var id :| id in h.clients - todo;
      var wider := todo + {id};
      FanAfterKeeps(h, m, wider);
      FanAdvances(h, m, wider, id);
      assert wider - {id} == todo;
      OfferKeeps(FanAfter(h, m, wider), id);
    }
  }

  lemma FanoutKeeps(h: Hub, m: Message)
    requires Inv(h) && AtSelect(h) && !h.panicked
    ensures Inv(Fanout(h, m)) && AtSelect(Fanout(h, m)) && !Fanout(h, m).panicked
  {
    FanAfterKeeps(h, m, {});
    EvictKeeps(FanAfter(h, m, {}));
  }

  lemma OnlineIrrelevant(h: Hub, online: set<string>)
    requires Inv(h)
    ensures Inv(h.(online := online))
  {
  }

  // ---- the code's branches are stretches of runs

  lemma {:induction false} FanReaches(h: Hub, m: Message, todo: set<nat>)
    requires Inv(h) && AtSelect(h) && !h.panicked && todo <= h.clients && Reachable(FanAfter(h, m, todo))
    ensures Reachable(Fanout(h, m))
    decreases todo
  {
    var f := FanAfter(h, m, todo);
    if todo == {} {
      ReachMore(f, Evict);
    } else {
      var id :| id in todo;
      FanAdvances(h, m, todo, id);
      ReachMore(f, Offer(id));
      FanReaches(h, m, todo - {id});
    }
  }

  // What the code does in one go to a reachable state is the end of some run of
  // single actions, so everything proved of runs holds of the code's states.
  lemma BroadcastReaches(h: Hub, m: Message)
    requires Reachable(h) && Inv(h) && Enabled(h, Incoming(m))
    ensures Reachable(Fanout(h, m))
  {
    ReachMore(h, Incoming(m));
    FanBegins(h, m);
    FanReaches(h, m, h.clients);
  }

  lemma RegisterReaches(h: Hub, id: nat)
    requires Reachable(h) && Inv(h) && Enabled(h, Register(id))
    ensures Reachable(Fanout(Admitted(h, id), PresenceMessage(h.conns[id].user, h.conns[id].room, "online")))
  {
    var m := PresenceMessage(h.conns[id].user, h.conns[id].room, "online");
    ReachMore(h, Register(id));
    AdmitKeeps(h, id);
    FanBegins(Admitted(h, id), m);
    FanReaches(Admitted(h, id), m, Admitted(h, id).clients);
  }

  lemma UnregisterReaches(h: Hub, id: nat)
    requires Reachable(h) && Inv(h) && Enabled(h, Unregister(id))
    ensures var d, user := Dismissed(h, id), h.conns[id].user;
            if user in UsersOf(d.conns, d.clients) then Reachable(d)
            else Reachable(Fanout(d.(online := d.online - {user}), PresenceMessage(user, h.conns[id].room, "offline")))
  {
    var d, user := Dismissed(h, id), h.conns[id].user;
    ReachMore(h, Unregister(id));
    if user !in UsersOf(d.conns, d.clients) {
      var gone := d.(online := d.online - {user});
      var m := PresenceMessage(user, h.conns[id].room, "offline");
      DismissKeeps(h, id);
      OnlineIrrelevant(d, gone.online);
      FanBegins(gone, m);
      FanReaches(gone, m, gone.clients);
    }
  }
}
