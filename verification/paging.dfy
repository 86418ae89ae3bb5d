// Reading history backwards: one page of FindChatByRoomBefore and the client loop
// that moves its cursor to the oldest message it was given.
module Paging {
  import opened ChatDocs
  import opened Seqs

  // ---- sorting by created_at, newest first

  function InsertDesc(x: Doc, s: seq<Doc>): seq<Doc> {
    if s == [] then [x]
    else if x.createdAt > s[0].createdAt then [x] + s
    else [s[0]] + InsertDesc(x, s[1..])
  }

  function SortDesc(s: seq<Doc>): seq<Doc> {
    if s == [] then [] else InsertDesc(s[|s| - 1], SortDesc(s[..|s| - 1]))
  }

  ghost predicate Descending(s: seq<Doc>) {
    forall i, j :: 0 <= i < j < |s| ==> s[i].createdAt >= s[j].createdAt
  }

  ghost predicate StrictlyDescending(s: seq<Doc>) {
    forall i, j :: 0 <= i < j < |s| ==> s[i].createdAt > s[j].createdAt
  }

  lemma {:induction false} InsertDescBag(x: Doc, s: seq<Doc>)
    ensures multiset(InsertDesc(x, s)) == multiset(s) + multiset{x}
  {
    if s != [] && x.createdAt <= s[0].createdAt {
      InsertDescBag(x, s[1..]);
      assert s == [s[0]] + s[1..];
    }
  }

  lemma {:induction false} InsertDescOrder(x: Doc, s: seq<Doc>)
    requires Descending(s)
    ensures Descending(InsertDesc(x, s))
    ensures forall y :: y in InsertDesc(x, s) ==> y == x || y in s
  {
    if s != [] && x.createdAt <= s[0].createdAt {
      var t := InsertDesc(x, s[1..]);
      InsertDescOrder(x, s[1..]);
      assert forall i :: 0 <= i < |t| ==> t[i] in t;
    }
  }

  lemma {:induction false} SortDescOrder(s: seq<Doc>)
    ensures Descending(SortDesc(s))
  {
    if s != [] {
      SortDescOrder(s[..|s| - 1]);
      InsertDescOrder(s[|s| - 1], SortDesc(s[..|s| - 1]));
    }
  }

  lemma {:induction false} SortDescBag(s: seq<Doc>)
    ensures multiset(SortDesc(s)) == multiset(s)
  {
    if s != [] {
      SortDescBag(s[..|s| - 1]);
      InsertDescBag(s[|s| - 1], SortDesc(s[..|s| - 1]));
      assert s == s[..|s| - 1] + [s[|s| - 1]];
    }
  }

  // ---- what the query returns

  function InRoom(room: string): Doc -> bool {
    (d: Doc) => d.room == room && !d.deleted
  }

  function Matches(room: string, before: int): Doc -> bool {
    (d: Doc) => d.room == room && d.createdAt < before && !d.deleted
  }

  function Limit(s: seq<Doc>, limit: nat): seq<Doc> {
    if |s| <= limit then s else s[..limit]
  }

  // The filter, sort and limit that FindChatByRoomBefore asks MongoDB for.
  function Query(docs: seq<Doc>, room: string, before: int, limit: nat): seq<Doc> {
    Limit(SortDesc(Filter(docs, Matches(room, before))), limit)
  }

  // A room's undeleted messages, newest first.
  function History(docs: seq<Doc>, room: string): seq<Doc> {
    SortDesc(Filter(docs, InRoom(room)))
  }

  // What a newest-first sequence holds from the first message before a time on.
  function Older(s: seq<Doc>, before: int): seq<Doc> {
    if s == [] || s[0].createdAt < before then s else Older(s[1..], before)
  }

  lemma {:induction false} InsertThenOlder(x: Doc, s: seq<Doc>, before: int)
    requires Descending(s)
    ensures Older(InsertDesc(x, s), before) ==
              if x.createdAt < before then InsertDesc(x, Older(s, before)) else Older(s, before)
  {
    if s == [] {
    } else if x.createdAt > s[0].createdAt {
      assert ([x] + s)[1..] == s;
    } else {
      assert ([s[0]] + InsertDesc(x, s[1..]))[1..] == InsertDesc(x, s[1..]);
      InsertThenOlder(x, s[1..], before);
    }
  }

  lemma SortFiltered(init: seq<Doc>, x: Doc, p: Doc -> bool)
    ensures SortDesc(Filter(init + [x], p)) ==
              if p(x) then InsertDesc(x, SortDesc(Filter(init, p))) else SortDesc(Filter(init, p))
  {
    FilterAppend(init, x, p);
    if p(x) {
      SortAppend(Filter(init, p), x);
    } else {
      assert Filter(init, p) + [] == Filter(init, p);
    }
  }

  lemma SortAppend(s: seq<Doc>, x: Doc)
    ensures SortDesc(s + [x]) == InsertDesc(x, SortDesc(s))
  {
  }

  // Filtering by time before sorting is cutting the sorted history.
  lemma {:induction false} QueryIsSuffix(docs: seq<Doc>, room: string, before: int)
    ensures SortDesc(Filter(docs, Matches(room, before))) == Older(History(docs, room), before)
  {
    if docs != [] {
      var init, x := docs[..|docs| - 1], docs[|docs| - 1];
      QueryIsSuffix(init, room, before);
      assert docs == init + [x];
      SortFiltered(init, x, InRoom(room));
      SortFiltered(init, x, Matches(room, before));
      SortDescOrder(Filter(init, InRoom(room)));
      if InRoom(room)(x) {
        InsertThenOlder(x, History(init, room), before);
      }
    }
  }

  // ---- one page

  function Reversed(s: seq<Doc>): seq<Doc> {
    seq(|s|, i requires 0 <= i < |s| => s[|s| - 1 - i])
  }

  // FindChatByRoomBefore: append what the cursor yields, then reverse in place.
  method FindChatByRoomBefore(docs: seq<Doc>, room: string, before: int, limit: nat) returns (page: seq<Doc>)
    ensures page == Reversed(Query(docs, room, before, limit))
  {
    page := Collect(Query(docs, room, before, limit));
  }

  method Collect(cursor: seq<Doc>) returns (page: seq<Doc>)
    ensures page == Reversed(cursor)
  {
    var chat := new Doc[|cursor|];
    for i := 0 to |cursor|
      invariant chat[..i] == cursor[..i]
    {
      chat[i] := cursor[i];
    }
    assert chat[..] == cursor;
    ReverseInPlace(chat);
    page := chat[..];
  }

  method ReverseInPlace(chat: array<Doc>)
    modifies chat
    ensures chat[..] == Reversed(old(chat[..]))
  {
    var i, j := 0, chat.Length - 1;
    while i < j
      invariant 0 <= i <= j + 1 && i + j == chat.Length - 1
      invariant forall k :: 0 <= k < i ==> chat[k] == old(chat[chat.Length - 1 - k])
      invariant forall k :: i <= k <= j ==> chat[k] == old(chat[k])
      invariant forall k :: j < k < chat.Length ==> chat[k] == old(chat[chat.Length - 1 - k])
    {
      chat[i], chat[j] := chat[j], chat[i];
      i, j := i + 1, j - 1;
    }
  }

  // The page stands in the order of time and is as long as it can be; with the messages
  // it leaves out, none of them newer than any it holds, it makes up the undeleted
  // messages of the room before that time, each as often as it is stored.
  lemma PageIsNewest(docs: seq<Doc>, room: string, before: int, limit: nat)
    ensures var page, all := Reversed(Query(docs, room, before, limit)), SortDesc(Filter(docs, Matches(room, before)));
            && (forall d: Doc {:trigger multiset(docs)[d]} ::
                  multiset(page)[d] + multiset(all[|page|..])[d]
                  == if d.room == room && d.createdAt < before && !d.deleted then multiset(docs)[d] else 0)
            && |page| <= limit && (|page| < limit ==> |all| == |page|)
            && NewestAscending(page, all[|page|..])
  {
    var all := SortDesc(Filter(docs, Matches(room, before)));
    var newest := Limit(all, limit);
    SortDescBag(Filter(docs, Matches(room, before)));
    SortDescOrder(Filter(docs, Matches(room, before)));
    ReversedBag(newest);
    assert all == newest + all[|newest|..];
    FrontIsNewest(all, |newest|);
    forall d: Doc ensures multiset(newest)[d] + multiset(all[|newest|..])[d]
                       == if d.room == room && d.createdAt < before && !d.deleted then multiset(docs)[d] else 0
    {
      FilterCount(docs, Matches(room, before), d);
      assert multiset(all)[d] == multiset(newest)[d] + multiset(all[|newest|..])[d];
    }
  }

  ghost predicate NewestAscending(page: seq<Doc>, rest: seq<Doc>) {
    && (forall i, j :: 0 <= i < j < |page| ==> page[i].createdAt <= page[j].createdAt)
    && (forall i, j :: 0 <= i < |page| && 0 <= j < |rest| ==> rest[j].createdAt <= page[i].createdAt)
  }

  lemma FrontIsNewest(all: seq<Doc>, n: nat)
    requires Descending(all) && n <= |all|
    ensures NewestAscending(Reversed(all[..n]), all[n..])
  {
  }

  lemma {:induction false} ReversedBag(s: seq<Doc>)
    ensures multiset(Reversed(s)) == multiset(s)
  {
    if s == [] {
      assert Reversed(s) == [];
    } else {
      ReversedBag(s[1..]);
      assert Reversed(s) == Reversed(s[1..]) + [s[0]];
      assert s == [s[0]] + s[1..];
    }
  }

  // ---- what scrolling back shows

  // The messages shown by pages of `limit`, starting from those in `s`. The next
  // cursor is the time of the page's oldest message, so messages of the same time
  // beyond the page are skipped.
  function Shown(s: seq<Doc>, limit: nat): seq<Doc>
    requires limit >= 1
    decreases |s|
  {
    if |s| < limit then s
    else
      OlderShorter(s[limit..], s[limit - 1].createdAt);
      s[..limit] + Shown(Older(s[limit..], s[limit - 1].createdAt), limit)
  }

  lemma {:induction false} OlderShorter(s: seq<Doc>, before: int)
    ensures |Older(s, before)| <= |s|
    ensures s != [] && s[0].createdAt >= before ==> |Older(s, before)| < |s|
  {
    if s != [] && s[0].createdAt >= before {
      OlderShorter(s[1..], before);
    }
  }

  lemma {:induction false} OlderInside(s: seq<Doc>, before: int)
    ensures multiset(Older(s, before)) <= multiset(s)
  {
    if s != [] && s[0].createdAt >= before {
      OlderInside(s[1..], before);
      assert s == [s[0]] + s[1..];
    }
  }

  // No page boundary falls between two messages of the same time.
  predicate NoSplitTie(s: seq<Doc>, limit: nat)
    requires limit >= 1
    decreases |s|
  {
    |s| <= limit || (s[limit].createdAt < s[limit - 1].createdAt && NoSplitTie(s[limit..], limit))
  }

  // Nothing is shown twice.
  lemma {:induction false} ShownAtMostOnce(s: seq<Doc>, limit: nat)
    requires limit >= 1
    ensures multiset(Shown(s, limit)) <= multiset(s)
    decreases |s|
  {
    if |s| >= limit {
      var rest, last := s[limit..], s[limit - 1].createdAt;
      OlderShorter(rest, last);
      OlderInside(rest, last);
      ShownAtMostOnce(Older(rest, last), limit);
      assert s == s[..limit] + rest;
    }
  }

  lemma {:induction false} ShownNotLonger(s: seq<Doc>, limit: nat)
    requires limit >= 1
    ensures |Shown(s, limit)| <= |s|
    decreases |s|
  {
    if |s| >= limit {
      OlderShorter(s[limit..], s[limit - 1].createdAt);
      ShownNotLonger(Older(s[limit..], s[limit - 1].createdAt), limit);
    }
  }

  // Scrolling back is complete exactly when no page boundary splits a tie: a split
  // tie loses the tied messages beyond the boundary for good.
  lemma {:induction false} CompleteExactlyWithoutSplitTies(s: seq<Doc>, limit: nat)
    requires limit >= 1
    ensures if NoSplitTie(s, limit) then Shown(s, limit) == s else |Shown(s, limit)| < |s|
    decreases |s|
  {
    if |s| >= limit {
      var rest, last := s[limit..], s[limit - 1].createdAt;
      OlderShorter(rest, last);
      if rest == [] {
        assert s == s[..limit] + [];
      } else if rest[0].createdAt < last {
        CompleteExactlyWithoutSplitTies(rest, limit);
        assert Shown(s, limit) == s[..limit] + Shown(rest, limit);
        assert s == s[..limit] + rest;
      } else {
        ShownNotLonger(Older(rest, last), limit);
      }
    }
  }

  lemma {:induction false} DistinctTimesNeverSplit(s: seq<Doc>, limit: nat)
    requires limit >= 1 && StrictlyDescending(s)
    ensures NoSplitTie(s, limit)
    decreases |s|
  {
    if |s| > limit {
      DistinctTimesNeverSplit(s[limit..], limit);
    }
  }

  // What is left to show when the cursor stands at a time.
  function Remaining(docs: seq<Doc>, room: string, cursor: int): seq<Doc> {
    Older(History(docs, room), cursor)
  }

  // Scroll back until the server says there is no more. (The handler replaces a
  // limit outside 1..100 by 50.)
  method LoadOlderMessages(docs: seq<Doc>, room: string, start: int, limit: nat) returns (shown: seq<Doc>)
    requires 1 <= limit <= 100
    ensures Reversed(shown) == Shown(Remaining(docs, room, start), limit)
  {
    shown := [];
    var cursor, hasMore := start, true;
    ghost var all := Shown(Remaining(docs, room, start), limit);
    assert Reversed(shown) + all == all;
    while hasMore
      invariant all == if hasMore then Reversed(shown) + Shown(Remaining(docs, room, cursor), limit) else Reversed(shown)
      decreases hasMore, |Remaining(docs, room, cursor)|
    {
      shown, cursor, hasMore := LoadPage(docs, room, cursor, limit, shown);
    }
  }

  // One turn of the scrolling: ask for a page, move the cursor, show the page above
  // what is shown already.
  method LoadPage(docs: seq<Doc>, room: string, cursor: int, limit: nat, shown: seq<Doc>)
    returns (shown': seq<Doc>, cursor': int, hasMore: bool)
    requires limit >= 1
    ensures hasMore ==> |Remaining(docs, room, cursor')| < |Remaining(docs, room, cursor)|
    ensures Reversed(shown) + Shown(Remaining(docs, room, cursor), limit)
         == if hasMore then Reversed(shown') + Shown(Remaining(docs, room, cursor'), limit) else Reversed(shown')
  {
    var messages := FindChatByRoomBefore(docs, room, cursor, limit);
    NextPage(docs, room, cursor, limit, shown, messages);
    hasMore := |messages| == limit;
    if |messages| == 0 {
      return shown, cursor, false;
    }
    cursor' := messages[0].createdAt;
    shown' := messages + shown;
  }

  lemma NextPage(docs: seq<Doc>, room: string, cursor: int, limit: nat, shown: seq<Doc>, page: seq<Doc>)
    requires limit >= 1 && page == Reversed(Query(docs, room, cursor, limit))
    ensures var all := Reversed(shown) + Shown(Remaining(docs, room, cursor), limit);
            && (page == [] ==> all == Reversed(shown))
            && (0 < |page| < limit ==> all == Reversed(page + shown))
            && (|page| >= limit ==>
                  && |page| == limit
                  && |Remaining(docs, room, page[0].createdAt)| < |Remaining(docs, room, cursor)|
                  && all == Reversed(page + shown) + Shown(Remaining(docs, room, page[0].createdAt), limit))
  {
    var s := Remaining(docs, room, cursor);
    QueryIsSuffix(docs, room, cursor);
    assert page == Reversed(Limit(s, limit));
    TurnPage(s, limit, shown);
    assert page == [] ==> page + shown == shown;
    if |page| == limit {
      SortDescOrder(Filter(docs, InRoom(room)));
      OlderAgain(History(docs, room), cursor, limit);
      OlderShorter(s[limit..], s[limit - 1].createdAt);
    }
  }

  lemma TurnPage(s: seq<Doc>, limit: nat, shown: seq<Doc>)
    requires limit >= 1
    ensures var page := Reversed(Limit(s, limit));
            && (|page| < limit ==> Reversed(page + shown) == Reversed(shown) + Shown(s, limit))
            && (|page| == limit ==>
                  && |s| >= limit && page[0] == s[limit - 1]
                  && Reversed(page + shown) + Shown(Older(s[limit..], s[limit - 1].createdAt), limit)
                     == Reversed(shown) + Shown(s, limit))
  {
  }

  // Asking for what is older than a page's last message goes on right after the
  // page, apart from ties.
  lemma {:induction false} OlderAgain(h: seq<Doc>, before: int, n: nat)
    requires Descending(h) && 0 < n <= |Older(h, before)|
    ensures var s := Older(h, before); Older(h, s[n - 1].createdAt) == Older(s[n..], s[n - 1].createdAt)
  {
    if h[0].createdAt < before {
      OlderSkips(h, n, h[n - 1].createdAt);
    } else {
      OlderAgain(h[1..], before, n);
      OlderIsOlder(h[1..], before);
    }
  }

  lemma {:induction false} OlderSkips(s: seq<Doc>, n: nat, t: int)
    requires n <= |s| && forall i :: 0 <= i < n ==> s[i].createdAt >= t
    ensures Older(s, t) == Older(s[n..], t)
  {
    if n == 0 {
      assert s[0..] == s;
    } else {
      OlderSkips(s[1..], n - 1, t);
      assert s[1..][n - 1..] == s[n..];
    }
  }

  lemma {:induction false} OlderIsOlder(s: seq<Doc>, before: int)
    requires Descending(s)
    ensures forall d :: d in Older(s, before) ==> d in s && d.createdAt < before
  {
    if s != [] && s[0].createdAt >= before {
      OlderIsOlder(s[1..], before);
    }
  }

  ghost predicate DistinctTimes(docs: seq<Doc>, room: string) {
    forall i, j :: 0 <= i < j < |docs| && InRoom(room)(docs[i]) && InRoom(room)(docs[j]) ==>
      docs[i].createdAt != docs[j].createdAt
  }

  // With distinct timestamps, as the room's stored messages would ideally have, the
  // user sees every older undeleted message exactly once, in order of time.
  lemma PagingComplete(docs: seq<Doc>, room: string, start: int, limit: nat)
    requires limit >= 1
    requires DistinctTimes(docs, room)
    ensures var s := Remaining(docs, room, start);
            && Shown(s, limit) == s == SortDesc(Filter(docs, Matches(room, start)))
            && forall d: Doc {:trigger multiset(docs)[d]} ::
                 multiset(Shown(s, limit))[d]
                 == if d.room == room && d.createdAt < start && !d.deleted then multiset(docs)[d] else 0
  {
    var h := History(docs, room);
    SortDescOrder(Filter(docs, Matches(room, start)));
    SortDescBag(Filter(docs, Matches(room, start)));
    QueryIsSuffix(docs, room, start);
    HistoryStrict(docs, room);
    OlderStrict(h, start);
    DistinctTimesNeverSplit(Remaining(docs, room, start), limit);
    CompleteExactlyWithoutSplitTies(Remaining(docs, room, start), limit);
    forall d: Doc ensures multiset(Filter(docs, Matches(room, start)))[d]
                       == if d.room == room && d.createdAt < start && !d.deleted then multiset(docs)[d] else 0
    {
      FilterCount(docs, Matches(room, start), d);
    }
  }

  lemma {:induction false} OlderStrict(s: seq<Doc>, before: int)
    requires StrictlyDescending(s)
    ensures StrictlyDescending(Older(s, before))
  {
    if s != [] && s[0].createdAt >= before {
      OlderStrict(s[1..], before);
    }
  }

  lemma {:induction false} HistoryStrict(docs: seq<Doc>, room: string)
    requires DistinctTimes(docs, room)
    ensures StrictlyDescending(History(docs, room))
    ensures forall d :: d in History(docs, room) ==> d in docs && InRoom(room)(d)
  {
    if docs != [] {
      var init, x := docs[..|docs| - 1], docs[|docs| - 1];
      HistoryStrict(init, room);
      if InRoom(room)(x) {
        SortAppend(Filter(init, InRoom(room)), x);
        var h := History(init, room);
        forall i | 0 <= i < |h| ensures h[i].createdAt != x.createdAt {
          assert h[i] in h && h[i] in init;
          var k :| 0 <= k < |init| && init[k] == h[i];
          assert docs[k] == h[i];
        }
        InsertStrict(x, h);
      } else {
        assert Filter(docs, InRoom(room)) == Filter(init, InRoom(room));
      }
    }
  }

  lemma {:induction false} InsertStrict(x: Doc, s: seq<Doc>)
    requires StrictlyDescending(s)
    requires forall i :: 0 <= i < |s| ==> s[i].createdAt != x.createdAt
    ensures StrictlyDescending(InsertDesc(x, s))
    ensures forall y :: y in InsertDesc(x, s) ==> y == x || y in s
  {
    if s != [] && x.createdAt < s[0].createdAt {
      InsertStrict(x, s[1..]);
      var t := InsertDesc(x, s[1..]);
      assert forall i :: 0 <= i < |t| ==> t[i] in t;
    }
  }

  // ---- what a user gets to see of a room

  const FIRST_PAGE: nat := 100

  // The filter, ascending sort and limit that FindChatByRoom asks MongoDB for.
  function OldestOf(docs: seq<Doc>, room: string): seq<Doc> {
    Limit(Reversed(History(docs, room)), FIRST_PAGE)
  }

  method FindChatByRoom(docs: seq<Doc>, room: string) returns (chat: seq<Doc>)
    ensures chat == OldestOf(docs, room)
  {
    var cursor := OldestOf(docs, room);
    chat := [];
    for i := 0 to |cursor|
      invariant chat == cursor[..i]
    {
      chat := chat + [cursor[i]];
    }
  }

  // Open a room and scroll back to its beginning. The first request returns the
  // oldest messages, not the latest, so scrolling back from it adds nothing.
  method OpenAndScroll(docs: seq<Doc>, room: string, limit: nat) returns (shown: seq<Doc>)
    requires 1 <= limit <= 100
    ensures shown == OldestOf(docs, room)
  {
    var messages := FindChatByRoom(docs, room);
    shown := messages;
    var hasMore := |messages| >= 100;
    if |messages| > 0 && hasMore {
      var older := LoadOlderMessages(docs, room, messages[0].createdAt, limit);
      NothingOlder(docs, room);
      assert Reversed(older) == [];
      assert older == [];
      shown := older + messages;
    }
  }

  lemma NothingOlder(docs: seq<Doc>, room: string)
    requires OldestOf(docs, room) != []
    ensures Remaining(docs, room, OldestOf(docs, room)[0].createdAt) == []
  {
    var h := History(docs, room);
    SortDescOrder(Filter(docs, InRoom(room)));
    assert OldestOf(docs, room)[0] == h[|h| - 1];
    OlderSkips(h, |h|, h[|h| - 1].createdAt);
  }

  // So a user can reach the whole room if and only if it holds at most 100 undeleted
  // messages; of a larger room they reach 100 messages, none newer than the others.
  lemma WholeRoomExactlyUpTo100(docs: seq<Doc>, room: string)
    ensures multiset(OldestOf(docs, room)) == multiset(Filter(docs, InRoom(room)))
       <==> |Filter(docs, InRoom(room))| <= 100
    ensures forall d: Doc {:trigger multiset(docs)[d]} ::
              multiset(Filter(docs, InRoom(room)))[d] == if d.room == room && !d.deleted then multiset(docs)[d] else 0
    ensures var all := Reversed(History(docs, room));
            multiset(all) == multiset(Filter(docs, InRoom(room))) && OldestOf(docs, room) <= all && Ascending(all)
  {
    var h, stored := History(docs, room), Filter(docs, InRoom(room));
    SortDescBag(stored);
    SortDescOrder(stored);
    ReversedBag(h);
    ReversedAscends(h);
    assert |stored| == |multiset(stored)| == |multiset(h)| == |h|;
    FrontIsWhole(Reversed(h), FIRST_PAGE);
    forall d: Doc ensures multiset(stored)[d] == if d.room == room && !d.deleted then multiset(docs)[d] else 0 {
      FilterCount(docs, InRoom(room), d);
    }
  }

  ghost predicate Ascending(s: seq<Doc>) {
    forall i, j :: 0 <= i < j < |s| ==> s[i].createdAt <= s[j].createdAt
  }

  lemma ReversedAscends(h: seq<Doc>)
    requires Descending(h)
    ensures Ascending(Reversed(h))
  {
  }

  lemma FrontIsWhole(all: seq<Doc>, limit: nat)
    ensures Limit(all, limit) <= all
    ensures multiset(Limit(all, limit)) == multiset(all) <==> |all| <= limit
  {
    if |all| > limit {
      assert |multiset(all[..limit])| == limit && |multiset(all)| == |all|;
    }
  }
}
