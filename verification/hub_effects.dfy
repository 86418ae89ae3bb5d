// What every action of a hub does, field by field: the effects that the machine's
// step functions must have, stated without them.
module HubEffects {
  import opened Messages
  import opened HubMachine

  // Everything about the connections other than `id` is as before.
  ghost predicate OthersSame(h: Hub, g: Hub, id: nat) {
    && (forall k :: k in h.conns && k != id ==> k in g.conns && g.conns[k] == h.conns[k])
    && (forall k :: k in g.conns && k != id ==> k in h.conns)
    && (forall k :: k != id ==> (k in g.clients <==> k in h.clients))
  }

  // Offering `m`: the reader's own typing event is skipped; a queue of 256 refuses; any
  // other queue grows by the reader's copy. Nothing else about the connection changes.
  ghost predicate WasOffered(c: Conn, d: Conn, m: Message) {
    && d.user == c.user && d.room == c.room && d.taken == c.taken && d.registered == c.registered && d.first == c.first
    && d.unregistered == c.unregistered
    && if OwnTyping(m, c.user) || |c.put| - c.taken >= 256 then d.put == c.put
       else |d.put| == |c.put| + 1 && d.put[..|c.put|] == c.put
            && d.put[|c.put|].FromHub? && CopyFor(d.put[|c.put|].message, m, c.user)
  }

  lemma DeliveringIsOffering(c: Conn, m: Message)
    ensures WasOffered(c, Delivered(c, m), m) && Delivered(c, m).closed == c.closed
  {
  }

  // The client's queue is full of what it has not read, and the message is for it.
  predicate Refuses(h: Hub, m: Message, k: nat) {
    k in h.clients && k in h.conns && !OwnTyping(m, h.conns[k].user) && |h.conns[k].put| - h.conns[k].taken >= 256
  }

  // A whole fan-out: every client is offered the message; exactly those whose queue
  // refuses it are closed and leave Clients.
  lemma WhatFanoutDoes(h: Hub, m: Message, id: nat)
    requires Inv(h) && AtSelect(h) && id in h.conns
    ensures var g, c, d := Fanout(h, m), h.conns[id], Fanout(h, m).conns[id];
            && g.log == h.log + [m] && g.conns.Keys == h.conns.Keys && g.running && g.fan.Quiet?
            && (if id in h.clients then WasOffered(c, d, m) else d == c)
            && (id in g.clients <==> id in h.clients && !Refuses(h, m, id))
            && (d.closed <==> c.closed || Refuses(h, m, id))
  {
    assert ConnOk(h, id);
    var f, c := FanAfter(h, m, {}), h.conns[id];
    DeliveringIsOffering(c, m);
    assert id in h.clients ==> f.conns[id] == Delivered(c, m);
    assert id in f.fan.slow <==> Refuses(h, m, id);
  }

  // Their users, and nobody else, leave the online set.
  lemma WhoFanoutHides(h: Hub, m: Message, user: string)
    requires Inv(h) && AtSelect(h)
    ensures user in Fanout(h, m).online <==>
              user in h.online && !exists k :: Refuses(h, m, k) && h.conns[k].user == user
  {
    var f := FanAfter(h, m, {});
    assert forall k :: k in f.fan.slow <==> Refuses(h, m, k);
    assert forall k :: k in h.conns ==> f.conns[k].user == h.conns[k].user;
    if k :| Refuses(h, m, k) && h.conns[k].user == user {
      assert k in f.fan.slow && k in f.conns;
    }
  }

  lemma WhatRegisterDoes(h: Hub, id: nat)
    requires Enabled(h, Register(id))
    ensures var g, c := Apply(h, Register(id)), h.conns[id];
            && OthersSame(h, g, id) && id in g.conns && id in g.clients
            && g.conns[id].registered && g.conns[id].put == c.put && g.conns[id].user == c.user && g.conns[id].closed == c.closed
            && g.online == h.online + {c.user}
            && g.log == h.log + [Message(Presence, c.user, "online", false, c.room, NO_EXTRAS, Internal)]
            && g.fan == Sending(g.clients, {})
  {
  }

  // Unregistering takes the client out and closes it. The user goes offline, in Redis
  // and by an event, exactly when no other tab of theirs remains.
  lemma WhatUnregisterDoes(h: Hub, id: nat)
    requires Inv(h) && Enabled(h, Unregister(id))
    ensures var g, c := Apply(h, Unregister(id)), h.conns[id];
            && OthersSame(h, g, id) && id in g.conns && id !in g.clients
            && g.conns[id].unregistered && g.conns[id].closed && g.conns[id].put == c.put
            && if exists k :: k in h.clients && k != id && h.conns[k].user == c.user
               then g.online == h.online && g.log == h.log && g.fan.Quiet?
               else g.online == h.online - {c.user} && g.fan == Sending(g.clients, {})
                    && g.log == h.log + [Message(Presence, c.user, "offline", false, c.room, NO_EXTRAS, Internal)]
  {
    var g, c, d := Apply(h, Unregister(id)), h.conns[id], Dismissed(h, id);
    assert ConnOk(h, id);
    assert c.user in UsersOf(d.conns, d.clients) <==> exists k :: k in h.clients && k != id && h.conns[k].user == c.user by {
      if k :| k in h.clients && k != id && h.conns[k].user == c.user {
        assert k in d.clients && d.conns[k].user == c.user;
      }
      if c.user in UsersOf(d.conns, d.clients) {
        var k :| k in d.clients && k in d.conns && d.conns[k].user == c.user;
        assert k in h.clients && k != id && h.conns[k].user == c.user;
      }
    }
  }

  // A single send of a fan-out, and the eviction that ends it.
  lemma WhatOfferDoes(h: Hub, id: nat)
    requires Enabled(h, Offer(id)) && h.fan.todo <= h.clients
    ensures var g, c, m := Apply(h, Offer(id)), h.conns[id], h.log[|h.log| - 1];
            && OthersSame(h, g, id) && WasOffered(c, g.conns[id], m) && g.conns[id].closed == c.closed
            && g.clients == h.clients && g.log == h.log && g.online == h.online
            && g.fan == Sending(h.fan.todo - {id}, h.fan.slow + if Refuses(h, m, id) then {id} else {})
  {
    var c, m := h.conns[id], h.log[|h.log| - 1];
    assert Offered(h, id).conns[id] == Delivered(c, m);
    DeliveringIsOffering(c, m);
  }

  lemma WhatEvictDoes(h: Hub, id: nat)
    requires Inv(h) && Enabled(h, Evict) && id in h.conns
    ensures var g, c := Apply(h, Evict), h.conns[id];
            && g.log == h.log && g.fan.Quiet? && g.conns.Keys == h.conns.Keys
            && (id in g.clients <==> id in h.clients && id !in h.fan.slow)
            && g.conns[id].put == c.put && (g.conns[id].closed <==> c.closed || id in h.fan.slow)
    ensures forall user :: user in Apply(h, Evict).online <==>
              user in h.online && !exists k :: k in h.fan.slow && h.conns[k].user == user
  {
  }

  // The writer takes the oldest item of Send; a reader's warning joins the end of an
  // open queue with room, is dropped by a full one, and panics on a closed one.
  lemma WhatPumpsDo(h: Hub, id: nat, m: Message)
    requires Inv(h) && id in h.conns
    ensures Enabled(h, Drain(id)) ==>
              var c := h.conns[id];
              && Apply(h, Drain(id)) == h.(conns := h.conns[id := c.(taken := c.taken + 1)])
              && c.Sound() && c.Queue() != [] && c.(taken := c.taken + 1).Sound()
              && c.(taken := c.taken + 1).Queue() == c.Queue()[1..]
    ensures Enabled(h, Caution(id, m)) ==>
              var g, c := Apply(h, Caution(id, m)), h.conns[id];
              && g.clients == h.clients && g.log == h.log && g.online == h.online && (g.panicked <==> c.closed)
              && g.conns == h.conns[id := if !c.closed && |c.put| - c.taken < 256 then c.(put := c.put + [Warning(m)]) else c]
  {
    assert ConnOk(h, id);
  }

  // A stop closes every client and ends the hub; an idle exit ends it without clients;
  // a successor starts with none and keeps what was logged.
  lemma WhatEndsDo(h: Hub, id: nat)
    requires Inv(h) && id in h.conns
    ensures Enabled(h, StopSignal) ==>
              var g := Apply(h, StopSignal);
              !g.running && g.clients == {} && g.log == h.log && g.online == h.online
              && g.conns[id].put == h.conns[id].put && (g.conns[id].closed <==> h.conns[id].closed || id in h.clients)
    ensures Enabled(h, IdleTimeout) ==> Apply(h, IdleTimeout) == h.(running := false) && h.clients == {}
    ensures Enabled(h, Restart) ==> Apply(h, Restart) == h.(running := true) && h.clients == {}
  {
  }

  lemma WhatIncomingDoes(h: Hub, m: Message)
    requires Enabled(h, Incoming(m))
    ensures var g := Apply(h, Incoming(m));
            g.log == h.log + [m] && g.fan == Sending(h.clients, {})
            && g.conns == h.conns && g.clients == h.clients && g.online == h.online
  {
  }

  // When the hub's branches and the pumps can act: the hub takes one thing at a time,
  // at its select; the pumps of a client never wait for it.
  lemma WhenActionsCan(h: Hub, id: nat, m: Message)
    requires Inv(h) && !h.panicked && id in h.conns
    ensures h.running && h.fan.Quiet? ==>
              && (Enabled(h, Register(id)) <==> !h.conns[id].registered)
              && (Enabled(h, Unregister(id)) <==> h.conns[id].registered && !h.conns[id].unregistered)
              && (Enabled(h, Incoming(m)) <==> m.event != Presence)
              && Enabled(h, StopSignal) && (Enabled(h, IdleTimeout) <==> h.clients == {})
    ensures h.fan.Sending? ==> (Enabled(h, Offer(id)) <==> id in h.fan.todo) && (Enabled(h, Evict) <==> h.fan.todo == {})
    ensures Enabled(h, Drain(id)) <==> h.conns[id].taken < |h.conns[id].put|
    ensures Enabled(h, Caution(id, m)) <==> h.conns[id].registered && !h.conns[id].unregistered
    ensures Enabled(h, Restart) <==> !h.running
  {
  }
}
