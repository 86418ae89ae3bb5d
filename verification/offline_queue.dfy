// The browser's websocket hook: what is sent while the socket is open, what waits
// in the session's offline queue, and what a new connection flushes.
module OfflineQueue {
  import opened Seqs

  datatype Payload = Payload(id: nat, room: string)

  // The socket of the current room: not open (absent or connecting) or open.
  datatype State = State(room: string, open: bool, queue: seq<Payload>, sent: seq<Payload>, submitted: seq<Payload>)

  datatype Step =
    | Send(p: Payload)
    | Open            // onopen, with its flush
    | Close           // onclose, or the socket breaking
    | SwitchRoom(room: string)

  function ForRoom(room: string): Payload -> bool {
    (p: Payload) => p.room == room
  }

  function NotFor(room: string): Payload -> bool {
    (p: Payload) => p.room != room
  }

  predicate Enabled(s: State, e: Step) {
    match e
    case Open => !s.open
    case _ => true
  }

  function Apply(s: State, e: Step): State
    requires Enabled(s, e)
  {
    match e
    case Send(p) =>
      var t := s.(submitted := s.submitted + [p]);
      if s.open then t.(sent := s.sent + [p]) else t.(queue := s.queue + [p])
    case Open => s.(open := true, sent := s.sent + Filter(s.queue, ForRoom(s.room)), queue := Filter(s.queue, NotFor(s.room)))
    case Close => s.(open := false)
    case SwitchRoom(room) => s.(room := room, open := false)
  }

  function Start(room: string): State {
    State(room, false, [], [], [])
  }

  ghost predicate IsRun(ss: seq<State>, es: seq<Step>) {
    && |ss| == |es| + 1 && (exists room :: ss[0] == Start(room))
    && forall k {:trigger es[k]} :: 0 <= k < |es| ==> Enabled(ss[k], es[k]) && ss[k + 1] == Apply(ss[k], es[k])
  }

  // The caller sends to the room its socket is for.
  ghost predicate OwnRoom(s: State, e: Step) {
    e.Send? ==> e.p.room == s.room
  }

  // For each room, what was sent followed by what waits is what was submitted.
  ghost predicate InOrder(s: State, room: string) {
    Filter(s.sent, ForRoom(room)) + Filter(s.queue, ForRoom(room)) == Filter(s.submitted, ForRoom(room))
  }

  ghost predicate Conserved(s: State) {
    multiset(s.sent) + multiset(s.queue) == multiset(s.submitted)
  }

  ghost predicate Inv(s: State, room: string) {
    && InOrder(s, room)
    && (s.open && room == s.room ==> Filter(s.queue, ForRoom(room)) == [])
  }

  lemma {:induction false} FilterTwice(q: seq<Payload>, mine: string, room: string)
    ensures Filter(Filter(q, ForRoom(mine)), ForRoom(room)) == if room == mine then Filter(q, ForRoom(room)) else []
    ensures Filter(Filter(q, NotFor(mine)), ForRoom(room)) == if room == mine then [] else Filter(q, ForRoom(room))
  {
    if q != [] {
      var init, x := q[..|q| - 1], q[|q| - 1];
      FilterTwice(init, mine, room);
      if x.room == mine {
        FilterAppend(Filter(init, ForRoom(mine)), x, ForRoom(room));
        assert Filter(init, NotFor(mine)) + [] == Filter(init, NotFor(mine));
      } else {
        FilterAppend(Filter(init, NotFor(mine)), x, ForRoom(room));
        assert Filter(init, ForRoom(mine)) + [] == Filter(init, ForRoom(mine));
      }
    }
  }

  // A flush splits the queue in two without losing or repeating anything.
  lemma {:induction false} FlushPartitions(q: seq<Payload>, room: string)
    ensures multiset(Filter(q, ForRoom(room))) + multiset(Filter(q, NotFor(room))) == multiset(q)
  {
    if q != [] {
      FlushPartitions(q[..|q| - 1], room);
      assert q == q[..|q| - 1] + [q[|q| - 1]];
    }
  }

  lemma SendOrder(s: State, p: Payload, room: string)
    requires Inv(s, room) && OwnRoom(s, Send(p))
    ensures Inv(Apply(s, Send(p)), room)
  {
    var t, f := Apply(s, Send(p)), ForRoom(room);
    FilterAppend(s.submitted, p, f);
    if s.open {
      FilterAppend(s.sent, p, f);
      assert t.queue == s.queue && Filter(t.sent, f) == Filter(s.sent, f) + if f(p) then [p] else [];
    } else {
      FilterAppend(s.queue, p, f);
      assert t.sent == s.sent && Filter(t.queue, f) == Filter(s.queue, f) + if f(p) then [p] else [];
    }
    Extended(Filter(s.sent, f), Filter(s.queue, f), if f(p) then [p] else [], s.open);
  }

  // A payload joining the end of what waits, or of what was sent when nothing waits,
  // joins the end of the whole.
  lemma Extended(a: seq<Payload>, b: seq<Payload>, c: seq<Payload>, sent: bool)
    requires sent && c != [] ==> b == []
    ensures (if sent then (a + c) + b else a + (b + c)) == (a + b) + c
  {
  }

  // Flushing for `mine` moves that room's payloads from waiting to sent and leaves
  // every other room's waiting.
  lemma FlushOrder(sent: seq<Payload>, queue: seq<Payload>, mine: string, room: string)
    ensures var out, rest := Filter(queue, ForRoom(mine)), Filter(queue, NotFor(mine));
            && Filter(sent + out, ForRoom(room)) + Filter(rest, ForRoom(room))
               == Filter(sent, ForRoom(room)) + Filter(queue, ForRoom(room))
            && (room == mine ==> Filter(rest, ForRoom(room)) == [])
  {
    var a, b := Filter(sent, ForRoom(room)), Filter(queue, ForRoom(room));
    FilterConcat(sent, Filter(queue, ForRoom(mine)), ForRoom(room));
    FilterTwice(queue, mine, room);
    if room == mine {
      assert (a + b) + [] == a + b;
    } else {
      assert a + [] == a;
    }
  }

  lemma OpenOrder(s: State, room: string)
    requires InOrder(s, room) && !s.open
    ensures InOrder(Apply(s, Open), room)
    ensures room == s.room ==> Filter(Apply(s, Open).queue, ForRoom(room)) == []
  {
    FlushOrder(s.sent, s.queue, s.room, room);
  }

  // Over every sequence of sends, openings, closings and room switches each payload
  // is in exactly one of sent and queued.
  lemma {:induction false} NothingLost(ss: seq<State>, es: seq<Step>, k: nat)
    requires IsRun(ss, es) && k < |ss|
    ensures Conserved(ss[k])
  {
    if k > 0 {
      NothingLost(ss, es, k - 1);
      var s, e := ss[k - 1], es[k - 1];
      assert Enabled(s, e) && ss[k] == Apply(s, e);
      NothingLostInStep(s, e);
    }
  }

  lemma NothingLostInStep(s: State, e: Step)
    requires Conserved(s) && Enabled(s, e)
    ensures Conserved(Apply(s, e))
  {
    if e.Open? {
      FlushPartitions(s.queue, s.room);
      assert multiset(Apply(s, e).sent) == multiset(s.sent) + multiset(Filter(s.queue, ForRoom(s.room)));
    }
  }

  // When callers send to the socket's own room, each room's payloads leave in the
  // order they were submitted, however often the socket opens, breaks or changes room.
  lemma {:induction false} NothingReordered(ss: seq<State>, es: seq<Step>, k: nat, room: string)
    requires IsRun(ss, es) && k < |ss|
    requires forall j {:trigger es[j]} :: 0 <= j < k ==> OwnRoom(ss[j], es[j])
    ensures Inv(ss[k], room)
  {
    if k > 0 {
      NothingReordered(ss, es, k - 1, room);
      var s, e := ss[k - 1], es[k - 1];
      assert Enabled(s, e) && OwnRoom(s, e);
      match e {
        case Send(p) => SendOrder(s, p, room);
        case Open => OpenOrder(s, room);
        case _ =>
      }
    }
  }

  // That premise matters, though the hook does not check it. A payload for another room than the socket's goes
  // out at once if the socket is open, and the order survives exactly when nothing but
  // copies of it waits for that room.
  lemma ForeignSendOvertakes(s: State, p: Payload)
    requires s.open && Inv(s, p.room)
    ensures InOrder(Apply(s, Send(p)), p.room) <==>
              forall q :: q in Filter(s.queue, ForRoom(p.room)) ==> q == p
  {
    var a, b := Filter(s.sent, ForRoom(p.room)), Filter(s.queue, ForRoom(p.room));
    FilterAppend(s.sent, p, ForRoom(p.room));
    FilterAppend(s.submitted, p, ForRoom(p.room));
    RotationFixes(a, b, p);
    var t := Apply(s, Send(p));
    assert Filter(t.sent, ForRoom(p.room)) == a + [p];
    assert Filter(t.submitted, ForRoom(p.room)) == (a + b) + [p];
    assert Filter(t.queue, ForRoom(p.room)) == b;
    assert InOrder(t, p.room) <==> a + [p] + b == a + b + [p];
  }

  lemma {:induction false} RotationFixes(a: seq<Payload>, b: seq<Payload>, p: Payload)
    ensures a + [p] + b == a + b + [p] <==> forall q :: q in b ==> q == p
  {
    if forall q :: q in b ==> q == p {
      assert forall i :: 0 <= i < |b| ==> b[i] in b;
      assert a + [p] + b == a + b + [p];
    } else if a + [p] + b == a + b + [p] {
      assert (a + [p] + b)[|a|..] == [p] + b && (a + b + [p])[|a|..] == b + [p];
      AllSame(b, p);
      assert false;
    }
  }

  lemma {:induction false} AllSame(b: seq<Payload>, p: Payload)
    requires [p] + b == b + [p]
    ensures forall q :: q in b ==> q == p
  {
    if b != [] {
      assert ([p] + b)[0] == (b + [p])[0];
      assert b[0] == p;
      assert ([p] + b)[1..] == b && (b + [p])[1..] == b[1..] + [p];
      assert b == [p] + b[1..];
      AllSame(b[1..], p);
    }
  }

  // ---- the code

  // What a flush on a socket that is open or not sends of `q`, and what it keeps.
  function Gone(q: seq<Payload>, room: string, open: bool): seq<Payload> {
    if open then Filter(q, ForRoom(room)) else []
  }

  function Kept(q: seq<Payload>, room: string, open: bool): seq<Payload> {
    if open then Filter(q, NotFor(room)) else q
  }

  lemma OneFlushed(q: seq<Payload>, i: nat, room: string, open: bool)
    requires i < |q|
    ensures var now := q[i].room == room && open;
            && Gone(q[..i + 1], room, open) == Gone(q[..i], room, open) + (if now then [q[i]] else [])
            && Kept(q[..i + 1], room, open) == Kept(q[..i], room, open) + (if now then [] else [q[i]])
  {
    FilterUpto(q, i, ForRoom(room));
    FilterUpto(q, i, NotFor(room));
  }

  class ChatSocket {
    var roomId: string
    var isOpen: bool
    var queue: seq<Payload>          // sessionStorage
    var sent: seq<Payload>           // what went to a socket
    ghost var submitted: seq<Payload>

    ghost function Now(): State
      reads this
    {
      State(roomId, isOpen, queue, sent, submitted)
    }

    constructor (roomId: string)
      ensures Now() == Start(roomId)
    {
      this.roomId := roomId;
      isOpen, queue, sent, submitted := false, [], [], [];
    }

    method FlushOfflineQueue()
      modifies this`queue, this`sent
      ensures sent == old(sent) + Gone(old(queue), roomId, isOpen) && queue == Kept(old(queue), roomId, isOpen)
      ensures forall q :: q in queue <==> q in old(queue) && !(isOpen && q.room == roomId)
    {
      var msgs := queue;
      if |msgs| == 0 {
        assert sent + [] == sent;
        return;
      }
      var remaining: seq<Payload> := [];
      for i := 0 to |msgs|
        invariant sent == old(sent) + Gone(msgs[..i], roomId, isOpen)
        invariant remaining == Kept(msgs[..i], roomId, isOpen)
      {
        OneFlushed(msgs, i, roomId, isOpen);
        if msgs[i].room == roomId && isOpen {
          sent := sent + [msgs[i]];
        } else {
          remaining := remaining + [msgs[i]];
        }
      }
      assert msgs[..|msgs|] == msgs;
      queue := remaining;
      FilterMembers(msgs, NotFor(roomId));
    }

    method OnOpen()
      requires !isOpen
      modifies this
      ensures Now() == Apply(old(Now()), Open)
      ensures isOpen && roomId == old(roomId)
      ensures sent == old(sent) + Filter(old(queue), ForRoom(roomId)) && queue == Filter(old(queue), NotFor(roomId))
    {
      isOpen := true;
      FlushOfflineQueue();
    }

    method OnClose()
      modifies this
      ensures Now() == Apply(old(Now()), Close)
      ensures !isOpen && roomId == old(roomId) && queue == old(queue) && sent == old(sent)
    {
      isOpen := false;
    }

    method ChangeRoom(room: string)
      modifies this
      ensures Now() == Apply(old(Now()), SwitchRoom(room))
      ensures roomId == room && !isOpen && queue == old(queue) && sent == old(sent)
    {
      isOpen := false;
      roomId := room;
    }

    method SendMessage(payload: Payload)
      modifies this
      ensures Now() == Apply(old(Now()), Send(payload))
      ensures isOpen == old(isOpen) && roomId == old(roomId) && submitted == old(submitted) + [payload]
      ensures if isOpen then sent == old(sent) + [payload] && queue == old(queue)
              else queue == old(queue) + [payload] && sent == old(sent)
    {
      submitted := submitted + [payload];
      if isOpen {
        sent := sent + [payload];
      } else {
        queue := queue + [payload];
      }
    }
  }
}
