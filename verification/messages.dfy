// The wire message of the chat and the two ways a hub adapts it to a reader.
module Messages {
  import opened Seqs

  datatype Event =
    | Msg | MsgFile | MsgEdit | MsgDelete | Open | Close | ChatLog
    | Presence | TypingStart | TypingStop | Warn | Announce | Other(name: string)

  // How a message came to be handed to a hub's fan-out. Ids number the messages
  // taken from Broadcast channels, in the order the hubs take them.
  datatype Via = Internal | Direct(id: nat) | Redis(id: nat)

  datatype Extras = Extras(messageId: string, createdAt: string, replyTo: string, encrypted: bool, encryptedKeys: string)

  const NO_EXTRAS := Extras("", "", "", false, "")

  datatype Message = Message(event: Event, user: string, text: string, owner: bool,
                             room: string, extras: Extras, via: Via)

  // Event types a hub accepts from Redis.
  predicate Allowed(e: Event) {
    !e.Announce? && !e.Other?
  }

  predicate IsTyping(e: Event) {
    e.TypingStart? || e.TypingStop?
  }

  function EnterText(user: string): string {
    "---- " + user + "님이 입장하셨습니다. ----"
  }

  function LeaveText(user: string): string {
    "---- " + user + "님이 퇴장하셨습니다. ----"
  }

  // A typing event is not echoed to the user who is typing.
  predicate Wants(m: Message, reader: string) {
    !(IsTyping(m.event) && reader == m.user)
  }

  function Personalise(m: Message, reader: string): Message {
    m.(owner := reader == m.user,
       text := match m.event
               case Open => EnterText(m.user)
               case Close => LeaveText(m.user)
               case _ => m.text)
  }

  function PresenceMessage(user: string, room: string, status: string): Message {
    Message(Presence, user, status, false, room, NO_EXTRAS, Internal)
  }

  // What one reader should see of a stretch of the hub's log.
  function Projection(log: seq<Message>, reader: string): seq<Message> {
    if log == [] then []
    else
      var m := log[|log| - 1];
      Projection(log[..|log| - 1], reader) + (if Wants(m, reader) then [Personalise(m, reader)] else [])
  }

  lemma ProjectionAppend(log: seq<Message>, m: Message, reader: string)
    ensures Projection(log + [m], reader)
         == Projection(log, reader) + (if Wants(m, reader) then [Personalise(m, reader)] else [])
  {
  }

  // ---- what a reader's copy is, field by field

  // `x` is the copy of `m` that `reader` should get.
  predicate CopyFor(x: Message, m: Message, reader: string) {
    && x.event == m.event && x.user == m.user && x.room == m.room && x.extras == m.extras && x.via == m.via
    && (x.owner <==> reader == m.user)
    && (m.event != Open && m.event != Close ==> x.text == m.text)
    && (m.event == Open ==> x.text == "---- " + m.user + "님이 입장하셨습니다. ----")
    && (m.event == Close ==> x.text == "---- " + m.user + "님이 퇴장하셨습니다. ----")
  }

  predicate OwnTyping(m: Message, reader: string) {
    (m.event == TypingStart || m.event == TypingStop) && m.user == reader
  }

  // `seen` are copies for `reader` of the messages of `log` at the positions `at`, and
  // the positions left out are those of the reader's own typing events.
  ghost predicate FaithfulAt(seen: seq<Message>, log: seq<Message>, reader: string, at: seq<int>) {
    && |at| == |seen| && Increasing(at)
    && (forall k :: 0 <= k < |at| ==> 0 <= at[k] < |log| && CopyFor(seen[k], log[at[k]], reader))
    && (forall p :: 0 <= p < |log| ==> (p in at <==> !OwnTyping(log[p], reader)))
  }

  ghost predicate Faithful(seen: seq<Message>, log: seq<Message>, reader: string) {
    exists at: seq<int> :: FaithfulAt(seen, log, reader, at)
  }

  lemma {:induction false} ProjectionIsFaithful(log: seq<Message>, reader: string)
    ensures Faithful(Projection(log, reader), log, reader)
  {
    if log == [] {
      assert FaithfulAt([], log, reader, []);
    } else {
      var init, m := log[..|log| - 1], log[|log| - 1];
      ProjectionIsFaithful(init, reader);
      OneMoreMessage(Projection(init, reader), init, m, reader);
      assert log == init + [m];
    }
  }

  lemma OneMoreMessage(seen: seq<Message>, init: seq<Message>, m: Message, reader: string)
    requires Faithful(seen, init, reader)
    ensures Faithful(seen + (if Wants(m, reader) then [Personalise(m, reader)] else []), init + [m], reader)
  {
    var at :| FaithfulAt(seen, init, reader, at);
    if Wants(m, reader) {
      OneMoreCopy(seen, init, m, reader, at);
    } else {
      OneLeftOut(seen, init, m, reader, at);
      assert seen + [] == seen;
    }
  }

  lemma OneLeftOut(seen: seq<Message>, init: seq<Message>, m: Message, reader: string, at: seq<int>)
    requires FaithfulAt(seen, init, reader, at) && OwnTyping(m, reader)
    ensures FaithfulAt(seen, init + [m], reader, at)
  {
    assert |init| !in at;
  }

  lemma OneMoreCopy(seen: seq<Message>, init: seq<Message>, m: Message, reader: string, at: seq<int>)
    requires FaithfulAt(seen, init, reader, at) && !OwnTyping(m, reader)
    ensures FaithfulAt(seen + [Personalise(m, reader)], init + [m], reader, at + [|init|])
  {
    var log, more := init + [m], at + [|init|];
    assert CopyFor(Personalise(m, reader), m, reader);
    assert forall k :: 0 <= k < |at| ==> log[at[k]] == init[at[k]];
    forall p | 0 <= p < |log| ensures p in more <==> !OwnTyping(log[p], reader) {
      assert p in more <==> p in at || p == |init|;
    }
  }
}
