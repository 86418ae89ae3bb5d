// From a reader's websocket to MongoDB: readPump puts a MSG in the insert queue and
// only then broadcasts it; four workers batch the queue and hand the batches to
// InsertManyChat.
module Pipeline {
  import opened Frames
  import opened Messages
  import opened Seqs

  const WORKERS: nat := 4
  const QUEUE_SIZE: nat := 1024
  const BATCH_SIZE: nat := 50

  // ---- one worker

  // A worker's batch after a message, and the InsertManyChat call this makes, if any.
  datatype Batched<T> = Batched(rest: seq<T>, calls: seq<seq<T>>)

  function Take<T>(batch: seq<T>, x: T): Batched<T> {
    if |batch| + 1 >= BATCH_SIZE then Batched([], [batch + [x]]) else Batched(batch + [x], [])
  }

  function Flush<T>(batch: seq<T>): seq<seq<T>> {
    if batch == [] then [] else [batch]
  }

  datatype Chat = Chat(user: string, text: string, room: string)

  datatype Wakeup = Arrival(chat: Chat) | Tick

  function Arrivals(ws: seq<Wakeup>): seq<Chat> {
    if ws == [] then []
    else Arrivals(ws[..|ws| - 1]) + (if ws[|ws| - 1].Arrival? then [ws[|ws| - 1].chat] else [])
  }

  // A worker after what its select has seen so far: the batch it holds, and the calls
  // it has made.
  function Work(ws: seq<Wakeup>): Batched<Chat> {
    if ws == [] then Batched([], [])
    else
      var b := Work(ws[..|ws| - 1]);
      match ws[|ws| - 1]
      case Arrival(chat) => var t := Take(b.rest, chat); Batched(t.rest, b.calls + t.calls)
      case Tick => Batched([], b.calls + Flush(b.rest))
  }

  // A worker's whole life, until the queue is closed and empty.
  method RunInsertWorker(wakeups: seq<Wakeup>) returns (calls: seq<seq<Chat>>)
    ensures calls == Work(wakeups).calls + Flush(Work(wakeups).rest)
    ensures Flat(calls) == Arrivals(wakeups)
    ensures forall k :: 0 <= k < |calls| ==> 1 <= |calls[k]| <= 50
  {
    var batch: seq<Chat> := [];
    calls := [];
    for i := 0 to |wakeups|
      invariant Work(wakeups[..i]) == Batched(batch, calls)
    {
      assert wakeups[..i + 1][..i] == wakeups[..i];
      match wakeups[i] {
        case Arrival(chat) =>
          batch := batch + [chat];
          if |batch| >= BATCH_SIZE {
            calls, batch := FlushBatch(calls, batch);
          } else {
            assert calls + [] == calls;
          }
        case Tick =>
          calls, batch := FlushBatch(calls, batch);
      }
    }
    assert wakeups[..|wakeups|] == wakeups;
    NothingHeldBack(wakeups);
    CallsHaveSize(wakeups);
    calls, batch := FlushBatch(calls, batch);
  }

  method FlushBatch(before: seq<seq<Chat>>, full: seq<Chat>) returns (calls: seq<seq<Chat>>, batch: seq<Chat>)
    ensures calls == before + Flush(full) && batch == []
    ensures Flat(calls) == Flat(before) + full
  {
    calls, batch := before, full;
    if |batch| == 0 {
      return;
    }
    FlatAppend(calls, batch);
    calls, batch := calls + [batch], [];
  }

  // What a worker received is, in order, what it has handed over and what it holds;
  // it holds fewer than 50 and hands over 1 to 50 at a time.
  lemma {:induction false} NothingHeldBack(ws: seq<Wakeup>)
    ensures Flat(Work(ws).calls) + Work(ws).rest == Arrivals(ws)
  {
    if ws != [] {
      var b := Work(ws[..|ws| - 1]);
      NothingHeldBack(ws[..|ws| - 1]);
      match ws[|ws| - 1] {
        case Arrival(chat) => TakeKeepsOrder(b.calls, b.rest, chat);
        case Tick => FlushKeepsOrder(b.calls, b.rest);
      }
    }
  }

  lemma {:induction false} CallsHaveSize(ws: seq<Wakeup>)
    ensures |Work(ws).rest| < 50 && forall k :: 0 <= k < |Work(ws).calls| ==> 1 <= |Work(ws).calls[k]| <= 50
  {
    if ws != [] {
      CallsHaveSize(ws[..|ws| - 1]);
    }
  }

  lemma TakeKeepsOrder(calls: seq<seq<Chat>>, batch: seq<Chat>, chat: Chat)
    ensures var t := Take(batch, chat); Flat(calls + t.calls) + t.rest == Flat(calls) + batch + [chat]
  {
    if Take(batch, chat).calls == [] {
      assert calls + [] == calls;
    } else {
      FlatAppend(calls, batch + [chat]);
    }
  }

  lemma FlushKeepsOrder(calls: seq<seq<Chat>>, batch: seq<Chat>)
    ensures Flat(calls + Flush(batch)) == Flat(calls) + batch
  {
    if batch == [] {
      assert calls + [] == calls;
    } else {
      FlatAppend(calls, batch);
    }
  }

  // When it hands over: at the 50th message, and at a tick whatever it holds, so that
  // after every tick all that was received has been handed over.
  lemma HandsOverWhenDue(ws: seq<Wakeup>, w: Wakeup)
    ensures var b, t := Work(ws), Work(ws + [w]);
            && (w.Arrival? && |b.rest| < 49 ==> t.calls == b.calls && t.rest == b.rest + [w.chat])
            && (w.Arrival? && |b.rest| == 49 ==> t.calls == b.calls + [b.rest + [w.chat]] && t.rest == [])
            && (w.Tick? ==> t.calls == (if b.rest == [] then b.calls else b.calls + [b.rest])
                            && t.rest == [] && Flat(t.calls) == Arrivals(ws + [w]))
  {
    assert (ws + [w])[..|ws|] == ws;
    NothingHeldBack(ws + [w]);
    CallsHaveSize(ws);
    var b, t := Work(ws), Work(ws + [w]);
    assert b.calls + [] == b.calls && Flat(t.calls) + [] == Flat(t.calls);
  }

  // ---- readers, queue and workers together

  // A reader between frames, waiting to store, waiting to broadcast, or gone.
  // `at` is the queue position its MSG was given.
  datatype Place = Nowhere | At(pos: nat)
  datatype Reader = Reading | Storing(message: Message) | Sending(message: Message, at: Place) | Gone

  datatype Sent = Sent(message: Message, at: Place)

  datatype Worker = Worker(batch: seq<int>, done: bool)

  // Messages are followed by their position in `enqueued`; the channel holds the
  // positions from `head` on. `flushed` lists the InsertManyChat calls.
  datatype State = State(enqueued: seq<Chat>, head: nat, open: bool, workers: seq<Worker>,
                         flushed: seq<seq<int>>, readers: map<nat, Reader>, broadcast: seq<Sent>)

  datatype Step =
    | Join(r: nat)
    | Read(r: nat, frame: Frame, user: string, room: string, allow: bool, id: string, time: string)
    | Store(r: nat)
    | StoreTimeout(r: nat)
    | Broadcast(r: nat)
    | HubStopped(r: nat)
    | Receive(w: nat)
    | TickAt(w: nat)
    | CloseQueue
    | Exit(w: nat)

  function Init(): State {
    State([], 0, true, seq(WORKERS, _ => Worker([], false)), [], map[], [])
  }

  predicate Enabled(s: State, e: Step) {
    match e
    case Join(r) => r !in s.readers
    case Read(r, _, _, _, _, _, _) => r in s.readers && s.readers[r].Reading?
    case Store(r) => r in s.readers && s.readers[r].Storing? && s.open && |s.enqueued| < s.head + QUEUE_SIZE
    case StoreTimeout(r) => r in s.readers && s.readers[r].Storing?
    case Broadcast(r) => r in s.readers && s.readers[r].Sending?
    case HubStopped(r) => r in s.readers && s.readers[r].Sending?
    case Receive(w) => w < |s.workers| && !s.workers[w].done && s.head < |s.enqueued|
    case TickAt(w) => w < |s.workers| && !s.workers[w].done
    case CloseQueue => s.open
    case Exit(w) => w < |s.workers| && !s.workers[w].done && !s.open && s.head >= |s.enqueued|
  }

  function AfterVerdict(v: Verdict): Reader {
    match v
    case Forward(m) => if m.event.Msg? then Storing(m) else Sending(m, Nowhere)
    case _ => Reading
  }

  function ChatOf(m: Message): Chat {
    Chat(m.user, m.text, m.room)
  }

  function Received(s: State, w: nat): State
    requires w < |s.workers|
  {
    var b := Take(s.workers[w].batch, s.head);
    s.(head := s.head + 1, workers := s.workers[w := Worker(b.rest, false)], flushed := s.flushed + b.calls)
  }

  function Apply(s: State, e: Step): State
    requires Enabled(s, e)
  {
    match e
    case Join(r) => s.(readers := s.readers[r := Reading])
    case Read(r, f, user, room, allow, id, time) =>
      s.(readers := s.readers[r := AfterVerdict(Judge(f, user, room, allow, id, time))])
    case Store(r) =>
      var m := s.readers[r].message;
      s.(enqueued := s.enqueued + [ChatOf(m)], readers := s.readers[r := Sending(m, At(|s.enqueued|))])
    case StoreTimeout(r) => s.(readers := s.readers[r := Reading])
    case Broadcast(r) =>
      s.(broadcast := s.broadcast + [Sent(s.readers[r].message, s.readers[r].at)], readers := s.readers[r := Reading])
    case HubStopped(r) => s.(readers := s.readers[r := Gone])
    case Receive(w) => Received(s, w)
    case TickAt(w) =>
      s.(workers := s.workers[w := Worker([], false)], flushed := s.flushed + Flush(s.workers[w].batch))
    case CloseQueue => s.(open := false)
    case Exit(w) =>
      s.(workers := s.workers[w := Worker([], true)], flushed := s.flushed + Flush(s.workers[w].batch))
  }

  ghost predicate IsRun(ss: seq<State>, es: seq<Step>) {
    && |ss| == |es| + 1 && ss[0] == Init()
    && forall k {:trigger es[k]} :: 0 <= k < |es| ==> Enabled(ss[k], es[k]) && ss[k + 1] == Apply(ss[k], es[k])
  }

  // ---- conservation

  function Upto(n: nat): seq<int> {
    seq(n, i => i)
  }

  function Batches(ws: seq<Worker>): seq<seq<int>> {
    seq(|ws|, i requires 0 <= i < |ws| => ws[i].batch)
  }

  ghost predicate Ascending(batch: seq<int>, bound: nat) {
    Increasing(batch) && forall i :: 0 <= i < |batch| ==> 0 <= batch[i] < bound
  }

  ghost predicate WorkerOk(w: Worker, s: State) {
    Ascending(w.batch, s.head) && |w.batch| < BATCH_SIZE
    && (w.done ==> w.batch == [] && !s.open && s.head == |s.enqueued|)
  }

  ghost predicate BatchesOk(s: State) {
    && |s.workers| == WORKERS
    && s.head <= |s.enqueued| <= s.head + QUEUE_SIZE
    && (forall w :: 0 <= w < |s.workers| ==> WorkerOk(s.workers[w], s))
    && (forall b :: 0 <= b < |s.flushed| ==> 1 <= |s.flushed[b]| <= BATCH_SIZE && Ascending(s.flushed[b], s.head))
  }

  // Every position taken from the queue is in exactly one batch or flushed call.
  ghost predicate Conserved(s: State) {
    multiset(Flat(s.flushed)) + multiset(Flat(Batches(s.workers))) == multiset(Upto(s.head))
  }

  lemma FlushedMore(flushed: seq<seq<int>>, batch: seq<int>)
    ensures multiset(Flat(flushed + Flush(batch))) == multiset(Flat(flushed)) + multiset(batch)
  {
    if batch == [] {
      assert flushed + Flush(batch) == flushed;
    } else {
      FlatAppend(flushed, batch);
    }
  }

  lemma BatchChanged(ws: seq<Worker>, w: nat, x: Worker)
    requires w < |ws|
    ensures multiset(Flat(Batches(ws[w := x]))) + multiset(ws[w].batch) == multiset(Flat(Batches(ws))) + multiset(x.batch)
  {
    assert Batches(ws[w := x]) == Batches(ws)[w := x.batch];
    FlatUpdate(Batches(ws), w, x.batch);
  }

  lemma TakeMoves(flushed: seq<seq<int>>, batch: seq<int>, x: int)
    ensures var t := Take(batch, x);
            && multiset(batch) + multiset{x} == multiset(t.rest) + multiset(Flat(t.calls))
            && multiset(Flat(flushed + t.calls)) == multiset(Flat(flushed)) + multiset(Flat(t.calls))
  {
    var more := batch + [x];
    assert multiset(more) == multiset(batch) + multiset{x};
    if Take(batch, x).calls != [] {
      FlatAppend([], more);
      assert [] + [more] == [more];
      FlatAppend(flushed, more);
    } else {
      assert flushed + [] == flushed;
    }
  }

  lemma UptoMore(n: nat)
    ensures multiset(Upto(n + 1)) == multiset(Upto(n)) + multiset{n}
  {
    assert Upto(n + 1) == Upto(n) + [n];
  }

  lemma ReceivedBags(s: State, w: nat)
    requires w < |s.workers|
    ensures var t, b := Received(s, w), Take(s.workers[w].batch, s.head);
            && multiset(Flat(t.flushed)) == multiset(Flat(s.flushed)) + multiset(Flat(b.calls))
            && multiset(Flat(Batches(t.workers))) + multiset(s.workers[w].batch)
               == multiset(Flat(Batches(s.workers))) + multiset(b.rest)
            && multiset(s.workers[w].batch) + multiset{s.head} == multiset(b.rest) + multiset(Flat(b.calls))
            && multiset(Upto(t.head)) == multiset(Upto(s.head)) + multiset{s.head}
  {
    BatchChanged(s.workers, w, Worker(Take(s.workers[w].batch, s.head).rest, false));
    TakeMoves(s.flushed, s.workers[w].batch, s.head);
    UptoMore(s.head);
  }

  lemma ReceiveConserves(s: State, w: nat)
    requires w < |s.workers| && Conserved(s)
    ensures Conserved(Received(s, w))
  {
    var t, b := Received(s, w), Take(s.workers[w].batch, s.head);
    ReceivedBags(s, w);
    BagMove(multiset(Flat(s.flushed)), multiset(Flat(Batches(s.workers))), multiset(Upto(s.head)),
            multiset(Flat(t.flushed)), multiset(Flat(Batches(t.workers))),
            multiset(s.workers[w].batch), multiset(b.rest), multiset(Flat(b.calls)), multiset{s.head});
  }

  lemma FlushConserves(s: State, w: nat, done: bool)
    requires w < |s.workers| && Conserved(s)
    ensures Conserved(s.(workers := s.workers[w := Worker([], done)], flushed := s.flushed + Flush(s.workers[w].batch)))
  {
    var batch := s.workers[w].batch;
    var workers, flushed := s.workers[w := Worker([], done)], s.flushed + Flush(batch);
    BatchChanged(s.workers, w, Worker([], done));
    FlushedMore(s.flushed, batch);
    BagMove(multiset(Flat(s.flushed)), multiset(Flat(Batches(s.workers))), multiset(Upto(s.head)),
            multiset(Flat(flushed)), multiset(Flat(Batches(workers))),
            multiset(batch), multiset{}, multiset(batch), multiset{});
  }

  lemma BatchesKept(s: State, e: Step)
    requires BatchesOk(s) && Enabled(s, e)
    ensures BatchesOk(Apply(s, e))
  {
  }

  lemma ConservedKept(s: State, e: Step)
    requires BatchesOk(s) && Conserved(s) && Enabled(s, e)
    ensures Conserved(Apply(s, e))
  {
    match e {
      case Receive(w) => ReceiveConserves(s, w);
      case TickAt(w) => FlushConserves(s, w, false);
      case Exit(w) => FlushConserves(s, w, true);
      case _ =>
    }
  }

  lemma StartConserved()
    ensures BatchesOk(Init()) && Conserved(Init())
  {
    FlatOfEmpties(Batches(Init().workers));
  }

  lemma {:induction false} BatchesHold(ss: seq<State>, es: seq<Step>, k: nat)
    requires IsRun(ss, es) && k < |ss|
    ensures BatchesOk(ss[k]) && Conserved(ss[k])
  {
    if k == 0 {
      StartConserved();
    } else {
      BatchesHold(ss, es, k - 1);
      assert Enabled(ss[k - 1], es[k - 1]);
      BatchesKept(ss[k - 1], es[k - 1]);
      ConservedKept(ss[k - 1], es[k - 1]);
    }
  }

  // In every interleaving of readers, four workers, ticks and close: the queue
  // holds at most 1024 messages, every call gets 1 to 50 of them in queue order,
  // and what left the queue is in exactly one batch or call.
  lemma InsertConservation(ss: seq<State>, es: seq<Step>, k: nat)
    requires IsRun(ss, es) && k < |ss|
    ensures var s := ss[k];
            && |s.workers| == 4 && 0 <= |s.enqueued| - s.head <= 1024
            && (forall b :: 0 <= b < |s.flushed| ==> 1 <= |s.flushed[b]| <= 50 && Increasing(s.flushed[b]))
            && multiset(Flat(s.flushed)) + multiset(Flat(Batches(s.workers))) == multiset(Upto(s.head))
  {
    BatchesHold(ss, es, k);
  }

  // ---- what each step does, field by field

  // A reader's MSG joins the end of the queue with its user, text and room, and the
  // reader goes on to broadcast it; or the wait runs out and it is dropped.
  lemma WhatStoringDoes(s: State, r: nat)
    ensures Enabled(s, Store(r)) ==>
              var t, m := Apply(s, Store(r)), s.readers[r].message;
              && |t.enqueued| == |s.enqueued| + 1 && t.enqueued[..|s.enqueued|] == s.enqueued
              && t.enqueued[|s.enqueued|].user == m.user && t.enqueued[|s.enqueued|].text == m.text
              && t.enqueued[|s.enqueued|].room == m.room
              && t == s.(enqueued := t.enqueued, readers := s.readers[r := Sending(m, At(|s.enqueued|))])
    ensures Enabled(s, StoreTimeout(r)) ==> Apply(s, StoreTimeout(r)) == s.(readers := s.readers[r := Reading])
  {
  }

  // A reader may store while the queue is open and holds fewer than 1024; a worker may
  // leave when it is closed and empty, and only closing it makes it so.
  lemma WhenQueueLets(s: State, r: nat, w: nat)
    ensures r in s.readers && s.readers[r].Storing? ==>
              (Enabled(s, Store(r)) <==> s.open && |s.enqueued| - s.head < 1024) && Enabled(s, StoreTimeout(r))
    ensures w < |s.workers| && !s.workers[w].done ==>
              && (Enabled(s, Receive(w)) <==> s.head < |s.enqueued|)
              && Enabled(s, TickAt(w)) && (Enabled(s, Exit(w)) <==> !s.open && s.head >= |s.enqueued|)
    ensures s.open ==> Enabled(s, CloseQueue) && Apply(s, CloseQueue) == s.(open := false)
    ensures r !in s.readers ==> Enabled(s, Join(r)) && Apply(s, Join(r)) == s.(readers := s.readers[r := Reading])
  {
  }

  // A forwarded MSG is to be stored first, any other forwarded message broadcast at
  // once; after a rejection or a warning the reader reads on.
  lemma WhatReadingDoes(s: State, e: Step)
    requires Enabled(s, e) && e.Read?
    ensures var v := Judge(e.frame, e.user, e.room, e.allow, e.id, e.time);
            Apply(s, e) == s.(readers := s.readers[e.r :=
              if !v.Forward? then Reading
              else if v.message.event == Msg then Storing(v.message) else Sending(v.message, Nowhere)])
  {
  }

  lemma WhatBroadcastingDoes(s: State, r: nat)
    ensures Enabled(s, Broadcast(r)) ==>
              Apply(s, Broadcast(r)) == s.(broadcast := s.broadcast + [Sent(s.readers[r].message, s.readers[r].at)],
                                           readers := s.readers[r := Reading])
    ensures Enabled(s, HubStopped(r)) ==> Apply(s, HubStopped(r)) == s.(readers := s.readers[r := Gone])
  {
  }

  // A worker takes the oldest message of the queue; its 50th goes out with the others
  // in one call. A tick, or the end of a closed and empty queue, sends what it holds.
  lemma WhatWorkersDo(s: State, w: nat)
    requires BatchesOk(s) && w < |s.workers|
    ensures Enabled(s, Receive(w)) ==>
              var t, b := Apply(s, Receive(w)), s.workers[w].batch;
              && t.head == s.head + 1
              && (|b| < 49 ==> t.workers == s.workers[w := Worker(b + [s.head], false)] && t.flushed == s.flushed)
              && (|b| == 49 ==> t.workers == s.workers[w := Worker([], false)] && t.flushed == s.flushed + [b + [s.head]])
              && t == s.(head := t.head, workers := t.workers, flushed := t.flushed)
    ensures Enabled(s, TickAt(w)) ==>
              var b := s.workers[w].batch;
              Apply(s, TickAt(w)) == s.(workers := s.workers[w := Worker([], false)],
                                        flushed := if b == [] then s.flushed else s.flushed + [b])
    ensures Enabled(s, Exit(w)) ==>
              var b := s.workers[w].batch;
              Apply(s, Exit(w)) == s.(workers := s.workers[w := Worker([], true)],
                                      flushed := if b == [] then s.flushed else s.flushed + [b])
  {
    assert s.flushed + [] == s.flushed;
  }

  // ---- persist before broadcast

  ghost predicate Backed(m: Message, at: Place, s: State) {
    m.event.Msg? ==> at.At? && at.pos < |s.enqueued| && s.enqueued[at.pos] == ChatOf(m)
  }

  ghost predicate StoredFirst(s: State) {
    && (forall k :: 0 <= k < |s.broadcast| ==> Backed(s.broadcast[k].message, s.broadcast[k].at, s))
    && (forall k :: 0 <= k < |s.broadcast| && s.broadcast[k].at.At? ==> s.broadcast[k].at.pos < |s.enqueued|)
    && (forall j, k :: 0 <= j < k < |s.broadcast| && s.broadcast[j].at.At? ==> s.broadcast[j].at != s.broadcast[k].at)
    && (forall r :: r in s.readers && s.readers[r].Storing? ==> s.readers[r].message.event.Msg?)
    && (forall r :: r in s.readers && s.readers[r].Sending? ==> Backed(s.readers[r].message, s.readers[r].at, s))
    && (forall r :: r in s.readers && s.readers[r].Sending? && s.readers[r].at.At? ==>
          s.readers[r].at.pos < |s.enqueued|
          && forall k :: 0 <= k < |s.broadcast| ==> s.broadcast[k].at != s.readers[r].at)
    && (forall q, r :: q in s.readers && r in s.readers && q != r && s.readers[q].Sending? && s.readers[r].Sending? ==>
          s.readers[q].at.At? ==> s.readers[q].at != s.readers[r].at)
  }

  lemma StoreKeeps(s: State, r: nat)
    requires StoredFirst(s) && Enabled(s, Store(r))
    ensures StoredFirst(Apply(s, Store(r)))
  {
  }

  lemma BroadcastKeeps(s: State, r: nat)
    requires StoredFirst(s) && Enabled(s, Broadcast(r))
    ensures StoredFirst(Apply(s, Broadcast(r)))
  {
    var t := Apply(s, Broadcast(r));
    assert Backed(t.broadcast[|s.broadcast|].message, t.broadcast[|s.broadcast|].at, t);
  }

  // Steps that neither store nor broadcast, and leave at most one reader elsewhere.
  lemma UnstoredKeeps(s: State, t: State, r: nat, reader: Reader)
    requires StoredFirst(s) && t.enqueued == s.enqueued && t.broadcast == s.broadcast
    requires t.readers == s.readers || t.readers == s.readers[r := reader]
    requires reader.Storing? ==> reader.message.event.Msg?
    requires reader.Sending? ==> reader.at.Nowhere? && !reader.message.event.Msg?
    ensures StoredFirst(t)
  {
  }

  lemma StoredFirstKept(s: State, e: Step)
    requires StoredFirst(s) && Enabled(s, e)
    ensures StoredFirst(Apply(s, e))
  {
    var t := Apply(s, e);
    match e {
      case Join(r) => UnstoredKeeps(s, t, r, Reading);
      case Read(r, _, _, _, _, _, _) => UnstoredKeeps(s, t, r, t.readers[r]);
      case Store(r) => StoreKeeps(s, r);
      case StoreTimeout(r) => UnstoredKeeps(s, t, r, Reading);
      case Broadcast(r) => BroadcastKeeps(s, r);
      case HubStopped(r) => UnstoredKeeps(s, t, r, Gone);
      case _ => UnstoredKeeps(s, t, 0, Reading);
    }
  }

  // Every MSG a reader has broadcast was enqueued before, with the same user, room
  // and text, and no two broadcasts share the queue entry that backs them.
  lemma {:induction false} PersistBeforeBroadcast(ss: seq<State>, es: seq<Step>, k: nat)
    requires IsRun(ss, es) && k < |ss|
    ensures StoredFirst(ss[k])
  {
    if k > 0 {
      PersistBeforeBroadcast(ss, es, k - 1);
      assert Enabled(ss[k - 1], es[k - 1]);
      StoredFirstKept(ss[k - 1], es[k - 1]);
    }
  }

  // ---- end to end

  ghost predicate ShutDown(s: State) {
    !s.open && forall w :: 0 <= w < |s.workers| ==> s.workers[w].done
  }

  ghost predicate InExactlyOneCall(calls: seq<seq<int>>, x: int) {
    exists b :: 0 <= b < |calls| && multiset(calls[b])[x] == 1
                && forall c :: 0 <= c < |calls| && c != b ==> x !in calls[c]
  }

  lemma {:induction false} FlatOnce(calls: seq<seq<int>>, x: int)
    requires multiset(Flat(calls))[x] == 1
    ensures InExactlyOneCall(calls, x)
  {
    assert calls != [];
    var init, last := calls[..|calls| - 1], calls[|calls| - 1];
    FlatBag(calls);
    if multiset(last)[x] == 1 {
      FlatNever(init, x);
      assert forall c :: 0 <= c < |init| ==> calls[c] == init[c];
    } else {
      FlatOnce(init, x);
      var b :| 0 <= b < |init| && multiset(init[b])[x] == 1 && forall c :: 0 <= c < |init| && c != b ==> x !in init[c];
      assert calls[b] == init[b] && x !in last;
    }
  }

  lemma {:induction false} FlatNever(calls: seq<seq<int>>, x: int)
    requires x !in multiset(Flat(calls))
    ensures forall c :: 0 <= c < |calls| ==> x !in calls[c]
  {
    if calls != [] {
      var init, last := calls[..|calls| - 1], calls[|calls| - 1];
      FlatBag(calls);
      FlatNever(init, x);
      assert x !in multiset(last);
      assert forall c :: 0 <= c < |init| ==> calls[c] == init[c];
    }
  }

  lemma {:induction false} UptoOnce(n: nat, x: int)
    requires 0 <= x < n
    ensures multiset(Upto(n))[x] == 1
  {
    assert Upto(n) == Upto(n - 1) + [n - 1];
    if x < n - 1 {
      UptoOnce(n - 1, x);
    } else {
      assert x !in Upto(n - 1);
    }
  }

  // Once the queue is closed and the workers have exited, every message ever
  // enqueued was handed to InsertManyChat in exactly one call.
  lemma DrainedExactlyOnce(ss: seq<State>, es: seq<Step>, k: nat, p: nat)
    requires IsRun(ss, es) && k < |ss| && ShutDown(ss[k]) && p < |ss[k].enqueued|
    ensures InExactlyOneCall(ss[k].flushed, p)
  {
    var s := ss[k];
    BatchesHold(ss, es, k);
    assert WorkerOk(s.workers[0], s);
    FlatOfEmpties(Batches(s.workers));
    assert multiset(Flat(s.flushed)) == multiset(Upto(s.head));
    UptoOnce(s.head, p);
    FlatOnce(s.flushed, p);
  }

  // Together: a MSG that anyone may have seen live is in the database input.
  lemma BroadcastIsPersisted(ss: seq<State>, es: seq<Step>, k: nat, b: nat)
    requires IsRun(ss, es) && k < |ss| && ShutDown(ss[k])
    requires b < |ss[k].broadcast| && ss[k].broadcast[b].message.event.Msg?
    ensures var m := ss[k].broadcast[b].message;
            exists p :: 0 <= p < |ss[k].enqueued| && ss[k].enqueued[p] == Chat(m.user, m.text, m.room)
                        && ss[k].broadcast[b].at == At(p) && InExactlyOneCall(ss[k].flushed, p)
  {
    PersistBeforeBroadcast(ss, es, k);
    var sent := ss[k].broadcast[b];
    assert Backed(sent.message, sent.at, ss[k]);
    DrainedExactlyOnce(ss, es, k, sent.at.pos);
  }
}
