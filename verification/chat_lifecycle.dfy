// Editing and deleting stored messages. EditChat is a read, a look at the clock
// and a conditional update; DeleteChat is one conditional update.
module ChatLifecycle {
  import opened ChatDocs

  const EDIT_WINDOW: int := 300

  datatype Edit =
    | Checked(id: nat, user: string, room: string, text: string)
    | Cut(id: nat, user: string, room: string, text: string, clock: int)

  datatype State = State(now: int, docs: map<nat, Doc>, edits: map<nat, Edit>)

  datatype Step =
    | Insert(id: nat, room: string, user: string, text: string)
    | EditCheck(p: nat, id: nat, user: string, room: string, text: string)
    | ReadClock(p: nat)
    | EditUpdate(p: nat)
    | Delete(id: nat, user: string)
    | Pass(seconds: nat)

  datatype Outcome = Done | NoSuchMessage | Forbidden | MessageDeleted | WindowExpired

  // What EditChat's first read decides.
  function CheckOutcome(s: State, id: nat, user: string, room: string): Outcome {
    if id !in s.docs || s.docs[id].room != room then NoSuchMessage
    else if s.docs[id].user != user then Forbidden
    else if s.docs[id].deleted then MessageDeleted
    else if s.now - s.docs[id].createdAt > EDIT_WINDOW then WindowExpired
    else Done
  }

  // The filter of the update; the cutoff was computed from `clock`.
  predicate Editable(s: State, id: nat, user: string, room: string, clock: int) {
    && id in s.docs && s.docs[id].room == room && s.docs[id].user == user && !s.docs[id].deleted
    && s.docs[id].createdAt > clock - EDIT_WINDOW
  }

  predicate Deletable(s: State, id: nat, user: string) {
    id in s.docs && s.docs[id].user == user && !s.docs[id].deleted
  }

  predicate Enabled(s: State, e: Step) {
    match e
    case Insert(id, _, _, _) => id !in s.docs
    case EditCheck(p, _, _, _, _) => p !in s.edits
    case ReadClock(p) => p in s.edits && s.edits[p].Checked?
    case EditUpdate(p) => p in s.edits && s.edits[p].Cut?
    case _ => true
  }

  function Edited(s: State, id: nat, text: string): State
    requires id in s.docs
  {
    s.(docs := s.docs[id := s.docs[id].(text := text, editedAt := s.now)])
  }

  function Apply(s: State, e: Step): State
    requires Enabled(s, e)
  {
    match e
    case Insert(id, room, user, text) => s.(docs := s.docs[id := Doc(id, room, user, s.now, text, false, 0)])
    case EditCheck(p, id, user, room, text) =>
      if CheckOutcome(s, id, user, room) == Done then s.(edits := s.edits[p := Checked(id, user, room, text)]) else s
    case ReadClock(p) =>
      var d := s.edits[p];
      s.(edits := s.edits[p := Cut(d.id, d.user, d.room, d.text, s.now)])
    case EditUpdate(p) =>
      var d := s.edits[p];
      var t := s.(edits := s.edits - {p});
      if Editable(s, d.id, d.user, d.room, d.clock) then Edited(t, d.id, d.text) else t
    case Delete(id, user) =>
      if Deletable(s, id, user) then s.(docs := s.docs[id := s.docs[id].(deleted := true, text := "")]) else s
    case Pass(d) => s.(now := s.now + d)
  }

  ghost predicate IsRun(ss: seq<State>, es: seq<Step>) {
    && |ss| == |es| + 1 && ss[0].docs == map[] && ss[0].edits == map[]
    && forall k {:trigger es[k]} :: 0 <= k < |es| ==> Enabled(ss[k], es[k]) && ss[k + 1] == Apply(ss[k], es[k])
  }

  ghost predicate Inv(s: State) {
    && (forall id :: id in s.docs ==> s.docs[id].createdAt <= s.now && (s.docs[id].deleted ==> s.docs[id].text == ""))
    && (forall p :: p in s.edits && s.edits[p].Cut? ==> s.edits[p].clock <= s.now)
  }

  lemma {:induction false} InvHolds(ss: seq<State>, es: seq<Step>, k: nat)
    requires IsRun(ss, es) && k < |ss|
    ensures Inv(ss[k])
  {
    if k > 0 {
      InvHolds(ss, es, k - 1);
      assert Enabled(ss[k - 1], es[k - 1]);
    }
  }

  // Over any stretch of a run a message keeps its room, author and time, and once
  // deleted it stays deleted with an empty text.
  lemma {:induction false} DeletionIsPermanent(ss: seq<State>, es: seq<Step>, i: nat, j: nat, id: nat)
    requires IsRun(ss, es) && i <= j < |ss| && id in ss[i].docs
    ensures id in ss[j].docs
    ensures var d, e := ss[i].docs[id], ss[j].docs[id];
            && e.room == d.room && e.user == d.user && e.createdAt == d.createdAt
            && (d.deleted ==> e.deleted && e.text == "")
  {
    InvHolds(ss, es, j);
    if i < j {
      DeletionIsPermanent(ss, es, i, j - 1, id);
      assert Enabled(ss[j - 1], es[j - 1]);
    }
  }

  // The stored text of a message changes for one of two reasons: its author
  // deletes it, or an edit is applied that its author made in its room, while it
  // was not deleted, with the clock read less than five minutes after its creation.
  lemma OnlyTheAuthorChangesText(ss: seq<State>, es: seq<Step>, k: nat, id: nat)
    requires IsRun(ss, es) && k < |es| && id in ss[k].docs
    requires id in ss[k + 1].docs && ss[k + 1].docs[id] != ss[k].docs[id]
    ensures var s, t := ss[k], ss[k + 1];
            var d := s.docs[id];
            !d.deleted
            && ((es[k] == Delete(id, d.user) && t.docs[id] == d.(deleted := true, text := ""))
                || (es[k].EditUpdate? && es[k].p in s.edits && s.edits[es[k].p].Cut?
                    && var c := s.edits[es[k].p];
                       c.id == id && c.user == d.user && c.room == d.room && c.clock - d.createdAt < EDIT_WINDOW
                       && t.docs[id] == d.(text := c.text, editedAt := s.now)))
  {
    assert Enabled(ss[k], es[k]) && ss[k + 1] == Apply(ss[k], es[k]);
    ChangesOneOfTwoWays(ss[k], es[k], id);
  }

  lemma ChangesOneOfTwoWays(s: State, e: Step, id: nat)
    requires Enabled(s, e) && id in s.docs && id in Apply(s, e).docs && Apply(s, e).docs[id] != s.docs[id]
    ensures var d, t := s.docs[id], Apply(s, e);
            !d.deleted
            && ((e == Delete(id, d.user) && t.docs[id] == d.(deleted := true, text := ""))
                || (e.EditUpdate? && e.p in s.edits && s.edits[e.p].Cut?
                    && var c := s.edits[e.p];
                       c.id == id && c.user == d.user && c.room == d.room && c.clock - d.createdAt < EDIT_WINDOW
                       && t.docs[id] == d.(text := c.text, editedAt := s.now)))
  {
  }

  // The clock an applied edit was judged by is one this run really showed, at a
  // step after the check had passed; the edit itself may land later than that.
  lemma {:induction false} ClockWasRead(ss: seq<State>, es: seq<Step>, k: nat, p: nat)
    requires IsRun(ss, es) && k < |ss| && p in ss[k].edits && ss[k].edits[p].Cut?
    ensures exists j :: 0 <= j < k && es[j] == ReadClock(p) && ss[j].now == ss[k].edits[p].clock
                        && p in ss[j].edits && ss[j].edits[p].Checked? && ss[j].edits[p].id == ss[k].edits[p].id
  {
    if k > 0 {
      var s, e := ss[k - 1], es[k - 1];
      assert Enabled(s, e);
      if e != ReadClock(p) {
        ClockWasRead(ss, es, k - 1, p);
      }
    }
  }

  // A pending edit is what one call of the run asked for, and the call's check passed
  // then: the message was in that room, the caller's own, not deleted, and at most five
  // minutes old. Its text is the text that the update will store.
  lemma {:induction false} EditCameFromCheck(ss: seq<State>, es: seq<Step>, k: nat, p: nat)
    requires IsRun(ss, es) && k < |ss| && p in ss[k].edits
    ensures var c := ss[k].edits[p];
            exists j :: 0 <= j < k && es[j] == EditCheck(p, c.id, c.user, c.room, c.text)
                        && c.id in ss[j].docs && ss[j].docs[c.id].room == c.room && ss[j].docs[c.id].user == c.user
                        && !ss[j].docs[c.id].deleted && ss[j].now - ss[j].docs[c.id].createdAt <= 300
  {
    if k > 0 {
      var s, e := ss[k - 1], es[k - 1];
      assert Enabled(s, e);
      if p in s.edits {
        EditCameFromCheck(ss, es, k - 1, p);
      }
    }
  }

  // What the steps do, field by field. An update is applied exactly when the message is
  // still there, in the room, the caller's, not deleted and newer than the cutoff.
  lemma WhatEditsDo(s: State, p: nat, id: nat, user: string, room: string, text: string)
    ensures Enabled(s, EditCheck(p, id, user, room, text)) ==>
              var passes := id in s.docs && s.docs[id].room == room && s.docs[id].user == user && !s.docs[id].deleted
                            && s.now - s.docs[id].createdAt <= 300;
              Apply(s, EditCheck(p, id, user, room, text)) ==
                if passes then s.(edits := s.edits[p := Checked(id, user, room, text)]) else s
    ensures Enabled(s, ReadClock(p)) ==>
              var c := s.edits[p];
              Apply(s, ReadClock(p)) == s.(edits := s.edits[p := Cut(c.id, c.user, c.room, c.text, s.now)])
    ensures Enabled(s, EditUpdate(p)) ==>
              var c := s.edits[p];
              var applies := c.id in s.docs && s.docs[c.id].room == c.room && s.docs[c.id].user == c.user
                             && !s.docs[c.id].deleted && s.docs[c.id].createdAt > c.clock - 300;
              var docs := if applies then s.docs[c.id := s.docs[c.id].(text := c.text, editedAt := s.now)] else s.docs;
              Apply(s, EditUpdate(p)) == State(s.now, docs, s.edits - {p})
  {
  }

  lemma WhatOthersDo(s: State, id: nat, user: string, room: string, text: string)
    ensures Enabled(s, Insert(id, room, user, text)) ==>
              Apply(s, Insert(id, room, user, text)) == s.(docs := s.docs[id := Doc(id, room, user, s.now, text, false, 0)])
    ensures var own := id in s.docs && s.docs[id].user == user && !s.docs[id].deleted;
            Apply(s, Delete(id, user)) ==
              if own then s.(docs := s.docs[id := s.docs[id].(deleted := true, text := "")]) else s
  {
  }

  // The second look at the conditions is not redundant: a message deleted between
  // the check and the update is left alone.
  lemma DeleteBeatsPendingEdit(s: State, p: nat, id: nat, user: string)
    requires Deletable(s, id, user) && p in s.edits && s.edits[p].Cut? && s.edits[p].id == id
    ensures var t := Apply(s, Delete(id, user));
            Apply(t, EditUpdate(p)).docs == t.docs && t.docs[id].deleted
  {
  }

  // The messages after an EditChat that nobody interrupts: the machine's check at
  // `t1`, its cutoff at `t2` and its update at `t3`.
  function EditedAlone(docs: map<nat, Doc>, id: nat, user: string, room: string, text: string, t1: int, t2: int, t3: int)
    : map<nat, Doc>
  {
    var checked := Apply(State(t1, docs, map[]), EditCheck(0, id, user, room, text));
    if 0 !in checked.edits then docs
    else
      var cut := Apply(checked.(now := t2), ReadClock(0));
      Apply(cut.(now := t3), EditUpdate(0)).docs
  }

  // ---- the code

  class ChatCollection {
    var docs: map<nat, Doc>

    function At(now: int): State
      reads this
    {
      State(now, docs, map[])
    }

    constructor ()
      ensures docs == map[]
    {
      docs := map[];
    }

    // EditChat with nobody else at work: `t1` <= `t2` <= `t3` are the times of its
    // check, its cutoff and its update.
    method EditChat(id: nat, username: string, roomId: string, newMessage: string, t1: int, t2: int, t3: int)
      returns (r: Outcome)
      requires t1 <= t2 <= t3
      modifies this
      ensures docs == EditedAlone(old(docs), id, username, roomId, newMessage, t1, t2, t3)
      ensures r == if id !in old(docs) || old(docs)[id].room != roomId then NoSuchMessage
                   else if old(docs)[id].user != username then Forbidden
                   else if old(docs)[id].deleted then MessageDeleted
                   else if t1 - old(docs)[id].createdAt > 300 || t2 - old(docs)[id].createdAt >= 300 then WindowExpired
                   else Done
      ensures docs == if r == Done then old(docs)[id := old(docs)[id].(text := newMessage, editedAt := t3)] else old(docs)
    {
      if id !in docs || docs[id].room != roomId {
        return NoSuchMessage;
      }
      var chat := docs[id];
      if chat.user != username {
        return Forbidden;
      }
      if chat.deleted {
        return MessageDeleted;
      }
      if t1 - chat.createdAt > 300 {
        return WindowExpired;
      }
      var cutoff := t2 - 300;
      if id in docs && docs[id].room == roomId && docs[id].user == username && !docs[id].deleted
         && docs[id].createdAt > cutoff {
        docs := docs[id := docs[id].(text := newMessage, editedAt := t3)];
        return Done;
      }
      return WindowExpired;
    }

    // Deleting a message twice is refused, like deleting somebody else's.
    method DeleteChat(id: nat, username: string) returns (r: Outcome)
      modifies this
      ensures r == if id !in old(docs) then NoSuchMessage
                   else if Deletable(old(At(0)), id, username) then Done else Forbidden
      ensures docs == Apply(old(At(0)), Delete(id, username)).docs
      ensures r == Done <==> id in old(docs) && old(docs)[id].user == username && !old(docs)[id].deleted
      ensures docs == if r == Done then old(docs)[id := old(docs)[id].(deleted := true, text := "")] else old(docs)
    {
      if id in docs && docs[id].user == username && !docs[id].deleted {
        docs := docs[id := docs[id].(deleted := true, text := "")];
        return Done;
      }
      if id !in docs {
        return NoSuchMessage;
      }
      return Forbidden;
    }
  }
}
