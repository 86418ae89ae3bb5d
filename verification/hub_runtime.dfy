// The hub's code on mutable clients. Each method is one branch of the hub
// goroutine (or the fan-out they share); its effect on the ghost `model` is the
// machine's, and Valid ties every mutable field to that model.
module HubRuntime {
  import opened Messages
  import opened HubMachine
  import opened Seqs

  class Client {
    const id: nat
    const username: string
    const roomId: string
    var send: seq<Item>   // what the Send channel holds
    var closed: bool

    // A new websocket client with the room's history queued in its Send buffer.
    constructor (id: nat, username: string, roomId: string, past: seq<Message>)
      ensures this.id == id && this.username == username && this.roomId == roomId
      ensures send == NewConn(username, roomId, past).put && !closed
    {
      this.id := id;
      this.username := username;
      this.roomId := roomId;
      send := [];
      closed := false;
      new;
      var chatList := if |past| > 256 then past[|past| - 256..] else past;
      for i := 0 to |chatList|
        invariant send == HistoryItems(chatList, username)[..i] && !closed
      {
        var past := chatList[i];
        var extras := NO_EXTRAS.(messageId := past.extras.messageId, createdAt := past.extras.createdAt);
        var tmpMsg := Message(ChatLog, past.user, past.text, false, past.room, extras, past.via);
        if chatList[i].user == username {
          tmpMsg := tmpMsg.(owner := true);
        }
        if |send| < SEND_BUFFER {
          send := send + [History(tmpMsg)];
        }
      }
    }

    // The body of a fan-out's loop for this client: skip the reader's own typing event,
    // or try the reader's copy on Send without blocking.
    method Offer(m: Message) returns (full: bool)
      modifies this`send
      ensures full <==> !OwnTyping(m, username) && |old(send)| >= 256
      ensures send == old(send) + if OwnTyping(m, username) || full then [] else [FromHub(Personalise(m, username))]
    {
      var isTyping := m.event.TypingStart? || m.event.TypingStop?;
      full := false;
      if !(isTyping && username == m.user) {
        var clientMsg := Adapt(m, username);
        if |send| < SEND_BUFFER {
          send := send + [FromHub(clientMsg)];
        } else {
          full := true;
        }
      }
    }

    static method Adapt(m: Message, username: string) returns (clientMsg: Message)
      ensures clientMsg == Personalise(m, username) && CopyFor(clientMsg, m, username)
    {
      clientMsg := m.(owner := username == m.user);
      if clientMsg.event == Open {
        clientMsg := clientMsg.(text := EnterText(clientMsg.user));
      } else if clientMsg.event == Close {
        clientMsg := clientMsg.(text := LeaveText(clientMsg.user));
      }
    }

    // Closes Send at most once.
    method CloseSend()
      modifies this`closed
      ensures closed
    {
      if !closed {
        closed := true;
      }
    }
  }

  class HubObject {
    var clients: set<Client>
    var online: set<string>   // Redis presence of this room
    var published: seq<Message>   // what Redis took from this hub
    ghost var known: set<Client>
    ghost var byId: map<nat, Client>
    ghost var model: Hub

    // The mutable fields of `c` are those of connection `n`.
    static ghost predicate Mirrors(c: Client, n: Conn)
      reads c
    {
      n.Sound() && c.send == n.Queue() && c.closed == n.closed && c.username == n.user && c.roomId == n.room
    }

    ghost predicate Coupled()
      reads this, known
    {
      && clients <= known
      && (forall c :: c in known ==> c.id in byId && byId[c.id] == c && c.id in model.conns)
      && (forall c :: c in known ==> Mirrors(c, model.conns[c.id]))
      && (forall c :: c in known ==> (c in clients <==> c.id in model.clients))
      && (forall id :: id in model.clients ==> id in byId && byId[id] in clients && byId[id].id == id)
      && online == model.online
    }

    ghost predicate Valid()
      reads this, known
    {
      Coupled() && Inv(model) && AtSelect(model) && !model.panicked
    }

    constructor ()
      ensures Valid() && model == INIT
    {
      clients, online, published, known, byId, model := {}, {}, [], {}, map[], INIT;
    }

    // The websocket handler creates a client with its history before registering it.
    method NewClient(id: nat, username: string, roomId: string, past: seq<Message>) returns (client: Client)
      requires Valid() && id !in model.conns
      modifies this`known, this`byId, this`model
      ensures Valid() && model == Apply(old(model), Connect(id, username, roomId, past))
      ensures fresh(client) && client.id == id && known == old(known) + {client}
    {
      ConnectKeeps(model, Connect(id, username, roomId, past));
      client := new Client(id, username, roomId, past);
      known, byId := known + {client}, byId[id := client];
      model := Apply(model, Connect(id, username, roomId, past));
    }

    // Fans `m` out to every client; a client whose Send is full is evicted.
    method BroadcastLocal(m: Message)
      requires Valid()
      modifies this`clients, this`online, this`model, clients
      ensures Valid() && model == Fanout(old(model), m)
      ensures known == old(known) && byId == old(byId) && clients <= old(clients)
    {
      FanoutKeeps(model, m);
      var evict := SendToAll(m);
      EvictAll(evict);
    }

    // Run's broadcast branch: publish through a healthy broker, else fan out here.
    // `encodes` says whether the message could be serialised, `accepts` whether
    // Publish returned no error, having handed the message to Redis.
    method HandleBroadcast(m: Message, hasBroker: bool, fallback: bool, encodes: bool, accepts: bool)
      requires Valid()
      modifies this`clients, this`online, this`model, this`published, clients
      ensures Valid()
      ensures var healthy := hasBroker && !fallback && encodes && accepts;
              && published == old(published) + (if healthy then [m] else [])
              && model == if healthy then old(model) else Fanout(old(model), m)
    {
      if hasBroker && !fallback {
        if encodes {
          if accepts {
            published := published + [m];
          } else {
            BroadcastLocal(m);
          }
        } else {
          BroadcastLocal(m);
        }
      } else {
        BroadcastLocal(m);
      }
    }

    // Run's Redis branch: only whitelisted events are fanned out.
    method HandleRedis(m: Message)
      requires Valid()
      modifies this`clients, this`online, this`model, clients
      ensures Valid()
      ensures var e := m.event;
              var listed := e == Msg || e == MsgFile || e == MsgEdit || e == MsgDelete || e == Open || e == Close
                            || e == ChatLog || e == Presence || e == TypingStart || e == TypingStop || e == Warn;
              && (listed <==> Allowed(e))
              && model == if listed then Fanout(old(model), m) else old(model)
    {
      if m.event == Announce || m.event.Other? {
        return;
      }
      BroadcastLocal(m);
    }

    // The first half of a fan-out: offer `m` to a snapshot of the clients and
    // collect those whose Send is full.
    method SendToAll(m: Message) returns (evict: set<Client>)
      requires Coupled() && model.clients <= model.conns.Keys
      modifies this`model, clients`send
      ensures Coupled() && model == FanAfter(old(model), m, {})
      ensures evict <= clients && forall c :: c in clients ==> (c in evict <==> c.id in model.fan.slow)
    {
      ghost var start := model;
      var todo := clients;
      evict := {};
      FanBegins(start, m);
      model := StartFan(start, m);
      ghost var ids := start.clients;
      while todo != {}
        invariant todo <= clients && evict <= clients
        invariant Coupled()
        invariant ids <= start.clients && model == FanAfter(start, m, ids)
        invariant forall c :: c in clients ==> (c in todo <==> c.id in ids)
        invariant forall id :: id in ids ==> id in byId && byId[id] in todo
        invariant forall c :: c in clients ==> (c in evict <==> c.id in model.fan.slow)
        decreases todo
      {
        var client :| client in todo;
        todo := todo - {client};
        FanAdvances(start, m, ids, client.id);
        var full := OfferTo(client, m);
        ids := ids - {client.id};
        if full {
          evict := evict + {client};
        }
      }
      assert ids == {};
    }

    // One send of a fan-out: personalise the message and try the Send channel.
    method OfferTo(client: Client, m: Message) returns (full: bool)
      requires Coupled() && client in clients
      requires model.fan.Sending? && model.log != [] && model.log[|model.log| - 1] == m
      modifies this`model, client`send
      ensures Coupled() && model == Offered(old(model), client.id)
      ensures model.fan.slow == old(model).fan.slow + if full then {client.id} else {}
      ensures full <==> !OwnTyping(m, client.username) && |old(client.send)| >= 256
    {
      PutGrowsQueue(model.conns[client.id], FromHub(Personalise(m, client.username)));
      ghost var start := model;
      model := Offered(model, client.id);
      full := client.Offer(m);
      assert Mirrors(client, model.conns[client.id]);
      assert forall c :: c in known && c != client ==> model.conns[c.id] == start.conns[c.id];
    }

    static lemma PutGrowsQueue(n: Conn, x: Item)
      requires n.Sound()
      ensures n.Full() <==> |n.Queue()| >= SEND_BUFFER
      ensures !n.Full() ==> var more := n.(put := n.put + [x]); more.Sound() && more.Queue() == n.Queue() + [x]
    {
    }

    // The second half of a fan-out: close and forget the slow clients.
    method EvictAll(evict: set<Client>)
      requires Coupled() && model.fan.Sending? && model.log != []
      requires evict <= clients && model.fan.slow <= model.clients
      requires forall c :: c in clients ==> (c in evict <==> c.id in model.fan.slow)
      modifies this`clients, this`online, this`model, evict`closed
      ensures Coupled() && model == Evicted(old(model)) && clients == old(clients) - evict
    {
      SameNames(evict, model.fan.slow);
      Forget(evict);
      model := Evicted(model);
    }

    method Forget(evict: set<Client>)
      requires evict <= clients
      modifies this`clients, this`online, evict`closed
      ensures clients == old(clients) - evict && online == old(online) - Names(evict)
      ensures forall c :: c in evict ==> c.closed
    {
      var todo := evict;
      while todo != {}
        invariant todo <= evict && todo <= clients == old(clients) - (evict - todo)
        invariant online == old(online) - Names(evict - todo)
        invariant forall c :: c in evict - todo ==> c.closed
        decreases todo
      {
        var client :| client in todo;
        assert evict - (todo - {client}) == (evict - todo) + {client};
        todo := todo - {client};
        if client in clients {
          client.CloseSend();
          clients := clients - {client};
          online := online - {client.username};
        }
      }
      assert evict - todo == evict;
    }

    static function Names(cs: set<Client>): set<string> {
      set c | c in cs :: c.username
    }

    lemma SameNames(cs: set<Client>, ids: set<nat>)
      requires Coupled() && cs <= clients && ids <= model.clients
      requires forall c :: c in clients ==> (c in cs <==> c.id in ids)
      ensures Names(cs) == UsersOf(model.conns, ids)
    {
    }

    // Run's register branch.
    method HandleRegister(client: Client)
      requires Valid() && client in known && Enabled(model, Register(client.id))
      modifies this`clients, this`online, this`model, clients, client
      ensures Valid() && known == old(known) && byId == old(byId)
      ensures model == Fanout(Admitted(old(model), client.id), PresenceMessage(client.username, client.roomId, "online"))
    {
      Admit(client);
      BroadcastLocal(Message(Presence, client.username, "online", false, client.roomId, NO_EXTRAS, Internal));
    }

    method Admit(client: Client)
      requires Valid() && client in known && Enabled(model, Register(client.id))
      modifies this`clients, this`online, this`model
      ensures Valid() && model == Admitted(old(model), client.id) && clients == old(clients) + {client}
    {
      AdmitKeeps(model, client.id);
      clients := clients + {client};
      online := online + {client.username};
      model := Admitted(model, client.id);
    }

    // Run's unregister branch: PRESENCE offline only for the user's last connection.
    method HandleUnregister(client: Client)
      requires Valid() && client in known && Enabled(model, Unregister(client.id))
      modifies this`clients, this`online, this`model, clients, client
      ensures Valid() && known == old(known) && byId == old(byId)
      ensures client !in clients && (client in old(clients) ==> client.closed)
      ensures var d := Dismissed(old(model), client.id);
              model == if client.username in UsersOf(d.conns, d.clients) then d
                       else Fanout(d.(online := d.online - {client.username}),
                                   PresenceMessage(client.username, client.roomId, "offline"))
    {
      Dismiss(client);
      var remainingConns := CountConnections(client.username);
      if remainingConns == 0 {
        AnnounceOffline(client.username, client.roomId);
      }
    }

    method AnnounceOffline(username: string, roomId: string)
      requires Valid()
      modifies this`clients, this`online, this`model, clients
      ensures Valid() && known == old(known) && byId == old(byId) && clients <= old(clients)
      ensures model == Fanout(old(model).(online := old(model).online - {username}),
                              PresenceMessage(username, roomId, "offline"))
    {
      MarkOffline(username);
      BroadcastLocal(Message(Presence, username, "offline", false, roomId, NO_EXTRAS, Internal));
    }

    method MarkOffline(username: string)
      requires Valid()
      modifies this`online, this`model
      ensures Valid() && model == old(model).(online := old(online) - {username})
    {
      OnlineIrrelevant(model, model.online - {username});
      online := online - {username};
      model := model.(online := online);
    }

    method Dismiss(client: Client)
      requires Valid() && client in known && Enabled(model, Unregister(client.id))
      modifies this`clients, this`model, client`closed
      ensures Valid() && model == Dismissed(old(model), client.id) && clients == old(clients) - {client}
    {
      DismissKeeps(model, client.id);
      Drop(client);
    }

    method Drop(client: Client)
      requires Coupled() && client in known && client.id in model.conns
      modifies this`clients, this`model, client`closed
      ensures Coupled() && model == Dismissed(old(model), client.id) && clients == old(clients) - {client}
    {
      model := Dismissed(model, client.id);
      if client in clients {
        clients := clients - {client};
        client.CloseSend();
      }
    }

    // How many connections a user has in this hub.
    method CountConnections(username: string) returns (count: nat)
      requires Coupled()
      ensures count == |set c | c in clients && c.username == username|
      ensures count == 0 <==> username !in UsersOf(model.conns, model.clients)
    {
      count := 0;
      var todo := clients;
      ghost var seen: set<Client> := {};
      while todo != {}
        invariant todo <= clients
        invariant seen == set c | c in clients - todo && c.username == username
        invariant count == |seen|
        decreases todo
      {
        var c :| c in todo;
        todo := todo - {c};
        if c.username == username {
          count := count + 1;
          seen := seen + {c};
        }
      }
      assert seen == set c | c in clients && c.username == username;
      SameNames(clients, model.clients);
      assert username in Names(clients) <==> seen != {} by {
        if username in Names(clients) {
          var c :| c in clients && c.username == username;
          assert c in seen;
        }
      }
    }

    // writePump's receive from Send.
    method TakeNext(client: Client) returns (next: Item)
      requires Valid() && client in known && client.send != []
      modifies this`model, client`send
      ensures Valid() && model == Apply(old(model), Drain(client.id))
      ensures [next] + client.send == old(client.send)
    {
      DrainKeeps(model, client.id);
      next := TakeOne(client);
    }

    method TakeOne(client: Client) returns (next: Item)
      requires Coupled() && client in known && client.send != [] && Enabled(model, Drain(client.id))
      modifies this`model, client`send
      ensures Coupled() && model == Apply(old(model), Drain(client.id))
      ensures [next] + client.send == old(client.send)
    {
      next := client.send[0];
      client.send := client.send[1..];
      model := Apply(model, Drain(client.id));
    }

    // readPump's non-blocking send of a warning; Go panics if Send is closed.
    method WarnClient(client: Client, warn: Message) returns (panics: bool)
      requires Valid() && client in known && Enabled(model, Caution(client.id, warn))
      modifies this`model, client`send
      ensures Coupled() && model == Apply(old(model), Caution(client.id, warn)) && (Valid() <==> !panics)
      ensures panics == old(client.closed)
      ensures client.send == old(client.send) + if !panics && |old(client.send)| < 256 then [Warning(warn)] else []
    {
      CautionKeeps(model, client.id, warn);
      panics := TryWarning(client, warn);
    }

    method TryWarning(client: Client, warn: Message) returns (panics: bool)
      requires Coupled() && client in known && Enabled(model, Caution(client.id, warn))
      modifies this`model, client`send
      ensures Coupled() && model == Apply(old(model), Caution(client.id, warn))
      ensures panics == old(client.closed) == model.panicked
      ensures client.send == old(client.send) + if !panics && |old(client.send)| < 256 then [Warning(warn)] else []
    {
      PutGrowsQueue(model.conns[client.id], Warning(warn));
      panics := client.closed;
      if !panics && |client.send| < SEND_BUFFER {
        client.send := client.send + [Warning(warn)];
      }
      model := Apply(model, Caution(client.id, warn));
    }

    // Run's stop branch.
    method HandleStop()
      requires Valid()
      modifies this`clients, this`model, clients`closed
      ensures Coupled() && model == Apply(old(model), StopSignal)
      ensures clients == {} && forall c :: c in old(clients) ==> c.closed
    {
      CloseAllClients();
      model := Apply(model, StopSignal);
    }

    method CloseAllClients()
      modifies this`clients, clients`closed
      ensures clients == {} && forall c :: c in old(clients) ==> c.closed
    {
      while clients != {}
        invariant clients <= old(clients)
        invariant forall c :: c in old(clients) - clients ==> c.closed
        decreases clients
      {
        var client :| client in clients;
        client.CloseSend();
        clients := clients - {client};
      }
    }

    // The distinct names of the connected users.
    method GetMemberNames() returns (names: seq<string>)
      requires Valid()
      ensures forall u :: u in names <==> u in UsersOf(model.conns, model.clients)
      ensures Distinct(names)
    {
      var unique: set<string> := {};
      var todo := clients;
      while todo != {}
        invariant todo <= clients && unique == Names(clients - todo)
        decreases todo
      {
        var client :| client in todo;
        assert clients - (todo - {client}) == (clients - todo) + {client};
        todo := todo - {client};
        unique := unique + {client.username};
      }
      assert clients - todo == clients;
      SameNames(clients, model.clients);
      names := Listed(unique);
    }
  }

  // The elements of a set in some order.
  method Listed<T(==, !new)>(s: set<T>) returns (r: seq<T>)
    ensures forall x :: x in r <==> x in s
    ensures Distinct(r)
  {
    r := [];
    var todo := s;
    while todo != {}
      invariant todo <= s && forall x :: x in r <==> x in s - todo
      invariant Distinct(r)
      decreases todo
    {
      var x :| x in todo;
      todo := todo - {x};
      DistinctAppend(r, x);
      r := r + [x];
    }
  }
}
