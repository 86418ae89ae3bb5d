// Concurrent websocket connections per address. A handler looks its entry up,
// stamps it, checks the count and then adds to it: four separate steps, so other
// handlers and the cleanup interleave.
module ConnLimit {
  const IDLE: int := 600

  datatype Entry = Entry(ip: string, count: int, lastSeen: int)

  datatype Stage = Found | Stamped | Checked | Active

  datatype Handler = Handler(ip: string, entry: nat, stage: Stage)

  // `counts` is the limiter's map; entries that left it may still be held by handlers.
  datatype State = State(now: int, counts: map<string, nat>, entries: seq<Entry>, handlers: map<nat, Handler>)

  datatype Step =
    | Enter(h: nat, ip: string)
    | Stamp(h: nat)
    | Check(h: nat)        // passes or is turned away
    | Add(h: nat)
    | Release(h: nat)
    | Cleanup(cutoff: int)
    | Pass(seconds: nat)

  const INIT := State(0, map[], [], map[])

  predicate At(s: State, h: nat, stage: Stage) {
    h in s.handlers && s.handlers[h].stage == stage && s.handlers[h].entry < |s.entries|
  }

  predicate Enabled(s: State, e: Step) {
    match e
    case Enter(h, _) => h !in s.handlers
    case Stamp(h) => At(s, h, Found)
    case Check(h) => At(s, h, Stamped)
    case Add(h) => At(s, h, Checked)
    case Release(h) => At(s, h, Active)
    case Cleanup(cutoff) => cutoff <= s.now - IDLE   // read before the lock is taken
    case Pass(_) => true
  }

  function Entered(s: State, h: nat, ip: string): State {
    if ip in s.counts then s.(handlers := s.handlers[h := Handler(ip, s.counts[ip], Found)])
    else s.(counts := s.counts[ip := |s.entries|], entries := s.entries + [Entry(ip, 0, s.now)],
            handlers := s.handlers[h := Handler(ip, |s.entries|, Found)])
  }

  function Moved(s: State, h: nat, stage: Stage): State
    requires h in s.handlers
  {
    s.(handlers := s.handlers[h := s.handlers[h].(stage := stage)])
  }

  function Counted(s: State, i: nat, change: int): State
    requires i < |s.entries|
  {
    s.(entries := s.entries[i := s.entries[i].(count := s.entries[i].count + change)])
  }

  function Touched(s: State, i: nat): State
    requires i < |s.entries|
  {
    s.(entries := s.entries[i := s.entries[i].(lastSeen := s.now)])
  }

  predicate Removable(s: State, ip: string, cutoff: int) {
    && ip in s.counts && s.counts[ip] < |s.entries|
    && s.entries[s.counts[ip]].count == 0 && s.entries[s.counts[ip]].lastSeen < cutoff
  }

  function Apply(s: State, e: Step, maxConn: int): State
    requires Enabled(s, e)
  {
    match e
    case Enter(h, ip) => Entered(s, h, ip)
    case Stamp(h) => Touched(Moved(s, h, Stamped), s.handlers[h].entry)
    case Check(h) =>
      if s.entries[s.handlers[h].entry].count >= maxConn then s.(handlers := s.handlers - {h})
      else Moved(s, h, Checked)
    case Add(h) => Counted(Moved(s, h, Active), s.handlers[h].entry, 1)
    case Release(h) =>
      var t := Touched(Counted(s, s.handlers[h].entry, -1), s.handlers[h].entry);
      t.(handlers := s.handlers - {h})
    case Cleanup(cutoff) => s.(counts := map ip | ip in s.counts && !Removable(s, ip, cutoff) :: s.counts[ip])
    case Pass(d) => s.(now := s.now + d)
  }

  ghost predicate IsRun(ss: seq<State>, es: seq<Step>, maxConn: int) {
    && |ss| == |es| + 1 && ss[0] == INIT
    && forall k {:trigger es[k]} :: 0 <= k < |es| ==> Enabled(ss[k], es[k]) && ss[k + 1] == Apply(ss[k], es[k], maxConn)
  }

  // ---- counting

  function In(s: State, i: nat, stage: Stage): set<nat> {
    set h | h in s.handlers && s.handlers[h].entry == i && s.handlers[h].stage == stage
  }

  ghost predicate MapsOk(s: State) {
    && (forall ip :: ip in s.counts ==> s.counts[ip] < |s.entries| && s.entries[s.counts[ip]].ip == ip)
    && (forall h :: h in s.handlers ==>
          s.handlers[h].entry < |s.entries| && s.entries[s.handlers[h].entry].ip == s.handlers[h].ip)
  }

  ghost predicate Inv(s: State) {
    MapsOk(s) && forall i :: 0 <= i < |s.entries| ==> s.entries[i].count == |In(s, i, Active)|
  }

  lemma OneMore(s: State, t: State, h: nat, i: nat, stage: Stage)
    requires h in s.handlers && s.handlers[h].entry == i && s.handlers[h].stage != stage
    requires t.handlers == s.handlers[h := s.handlers[h].(stage := stage)]
    ensures |In(t, i, stage)| == |In(s, i, stage)| + 1
  {
    assert In(t, i, stage) == In(s, i, stage) + {h};
  }

  lemma OneLess(s: State, t: State, h: nat, i: nat, stage: Stage)
    requires h in s.handlers && s.handlers[h].entry == i && s.handlers[h].stage == stage
    requires t.handlers == s.handlers - {h}
             || exists other :: other != stage && t.handlers == s.handlers[h := s.handlers[h].(stage := other)]
    ensures |In(t, i, stage)| == |In(s, i, stage)| - 1
  {
    assert In(s, i, stage) == In(t, i, stage) + {h};
  }

  // What a step other than Add and Release does to the handlers of a stage.
  lemma SameActive(s: State, e: Step, maxConn: int, i: nat)
    requires Inv(s) && Enabled(s, e) && !e.Add? && !e.Release?
    ensures In(Apply(s, e, maxConn), i, Active) == In(s, i, Active)
  {
  }

  lemma EnterMaps(s: State, h: nat, ip: string)
    requires MapsOk(s)
    ensures MapsOk(Entered(s, h, ip))
  {
  }

  lemma MapsKept(s: State, e: Step, maxConn: int)
    requires MapsOk(s) && Enabled(s, e)
    ensures MapsOk(Apply(s, e, maxConn))
  {
    if e.Enter? {
      EnterMaps(s, e.h, e.ip);
    } else {
      var t := Apply(s, e, maxConn);
      assert |t.entries| == |s.entries| && forall i :: 0 <= i < |s.entries| ==> t.entries[i].ip == s.entries[i].ip;
    }
  }

  lemma CountsKept(s: State, e: Step, maxConn: int)
    requires Inv(s) && Enabled(s, e)
    ensures Inv(Apply(s, e, maxConn))
  {
    var t := Apply(s, e, maxConn);
    MapsKept(s, e, maxConn);
    forall i | 0 <= i < |t.entries| ensures t.entries[i].count == |In(t, i, Active)| {
      if e.Add? {
        AddCounts(s, e.h, i, maxConn);
      } else if e.Release? {
        ReleaseCounts(s, e.h, i, maxConn);
      } else {
        SameActive(s, e, maxConn, i);
        if i == |s.entries| {
          assert In(s, i, Active) == {};
        }
      }
    }
  }

  lemma AddCounts(s: State, h: nat, i: nat, maxConn: int)
    requires Inv(s) && Enabled(s, Add(h)) && i < |s.entries|
    ensures var t := Apply(s, Add(h), maxConn); t.entries[i].count == |In(t, i, Active)|
  {
    var t := Apply(s, Add(h), maxConn);
    if s.handlers[h].entry == i {
      OneMore(s, t, h, i, Active);
    } else {
      assert In(t, i, Active) == In(s, i, Active);
    }
  }

  lemma ReleaseCounts(s: State, h: nat, i: nat, maxConn: int)
    requires Inv(s) && Enabled(s, Release(h)) && i < |s.entries|
    ensures var t := Apply(s, Release(h), maxConn); t.entries[i].count == |In(t, i, Active)|
  {
    var t := Apply(s, Release(h), maxConn);
    if s.handlers[h].entry == i {
      OneLess(s, t, h, i, Active);
    } else {
      assert In(t, i, Active) == In(s, i, Active);
    }
  }

  // The count of every entry is the number of its handlers between add and
  // release, so it is never negative, and a cleanup never removes an entry that
  // has such a handler.
  lemma {:induction false} CountIsActive(ss: seq<State>, es: seq<Step>, maxConn: int, k: nat)
    requires IsRun(ss, es, maxConn) && k < |ss|
    ensures Inv(ss[k])
    ensures forall i :: 0 <= i < |ss[k].entries| ==> 0 <= ss[k].entries[i].count == |In(ss[k], i, Active)|
    ensures forall ip, cutoff :: ip in ss[k].counts && Removable(ss[k], ip, cutoff) ==>
              In(ss[k], ss[k].counts[ip], Active) == {}
  {
    if k > 0 {
      CountIsActive(ss, es, maxConn, k - 1);
      assert Enabled(ss[k - 1], es[k - 1]);
      CountsKept(ss[k - 1], es[k - 1], maxConn);
    }
  }

  // ---- the overshoot

  ghost predicate AtMostBetween(s: State, width: nat) {
    forall i :: 0 <= i < |s.entries| ==> |In(s, i, Checked)| <= width
  }

  ghost predicate Overshoot(s: State, maxConn: int, width: nat) {
    forall i :: 0 <= i < |s.entries| ==> |In(s, i, Active)| + |In(s, i, Checked)| <= maxConn - 1 + width
  }

  lemma OvershootKept(s: State, e: Step, maxConn: int, width: nat)
    requires Inv(s) && Enabled(s, e) && maxConn >= 1
    requires Overshoot(s, maxConn, width) && AtMostBetween(Apply(s, e, maxConn), width)
    ensures Overshoot(Apply(s, e, maxConn), maxConn, width)
  {
    var t := Apply(s, e, maxConn);
    forall i | 0 <= i < |t.entries| ensures |In(t, i, Active)| + |In(t, i, Checked)| <= maxConn - 1 + width {
      if i == |s.entries| {
        assert In(t, i, Active) == {} && In(t, i, Checked) == {};
      } else {
        OvershootAt(s, e, maxConn, width, i);
      }
    }
  }

  lemma OvershootAt(s: State, e: Step, maxConn: int, width: nat, i: nat)
    requires Inv(s) && Enabled(s, e) && i < |s.entries|
    requires Overshoot(s, maxConn, width) && AtMostBetween(Apply(s, e, maxConn), width)
    ensures var t := Apply(s, e, maxConn);
            |In(t, i, Active)| + |In(t, i, Checked)| <= maxConn - 1 + width
  {
    var t := Apply(s, e, maxConn);
    if e.Add? || e.Release? {
      LeavingKeeps(s, e, maxConn, i);
    } else {
      SameActive(s, e, maxConn, i);
      if !(e.Check? && s.handlers[e.h].entry == i && e.h in t.handlers) {
        SameChecked(s, e, maxConn, i);
      }
    }
  }

  // Adding only moves a handler on, and releasing takes one away.
  lemma LeavingKeeps(s: State, e: Step, maxConn: int, i: nat)
    requires Inv(s) && Enabled(s, e) && (e.Add? || e.Release?)
    ensures var t := Apply(s, e, maxConn);
            |In(t, i, Active)| + |In(t, i, Checked)| <= |In(s, i, Active)| + |In(s, i, Checked)|
  {
    var t := Apply(s, e, maxConn);
    if s.handlers[e.h].entry != i {
      assert In(t, i, Active) == In(s, i, Active) && In(t, i, Checked) == In(s, i, Checked);
    } else if e.Add? {
      assert t.handlers == s.handlers[e.h := s.handlers[e.h].(stage := Active)];
      OneMore(s, t, e.h, i, Active);
      OneLess(s, t, e.h, i, Checked);
    } else {
      assert t.handlers == s.handlers - {e.h};
      OneLess(s, t, e.h, i, Active);
      assert In(t, i, Checked) == In(s, i, Checked);
    }
  }

  lemma SameChecked(s: State, e: Step, maxConn: int, i: nat)
    requires Inv(s) && Enabled(s, e) && !e.Add? && !e.Release?
    requires !(e.Check? && s.handlers[e.h].entry == i && e.h in Apply(s, e, maxConn).handlers)
    ensures In(Apply(s, e, maxConn), i, Checked) == In(s, i, Checked)
  {
  }

  // If at most `width` handlers ever stand between check and add on one entry, no
  // entry ever has more than maxConn - 1 + width connections admitted.
  lemma {:induction false} OvershootBound(ss: seq<State>, es: seq<Step>, maxConn: int, width: nat, k: nat)
    requires IsRun(ss, es, maxConn) && maxConn >= 1 && k < |ss|
    requires forall j :: 0 <= j <= k ==> AtMostBetween(ss[j], width)
    ensures Overshoot(ss[k], maxConn, width)
  {
    if k > 0 {
      OvershootBound(ss, es, maxConn, width, k - 1);
      CountIsActive(ss, es, maxConn, k - 1);
      assert Enabled(ss[k - 1], es[k - 1]);
      OvershootKept(ss[k - 1], es[k - 1], maxConn, width);
    }
  }

  // ---- entries and addresses

  ghost predicate AllMapped(s: State) {
    forall h :: h in s.handlers ==> s.handlers[h].ip in s.counts && s.counts[s.handlers[h].ip] == s.handlers[h].entry
  }

  // No handler holds an entry that this cleanup would take out of the map.
  ghost predicate SparesHeld(s: State, e: Step) {
    e.Cleanup? ==> forall h :: h in s.handlers ==> !Removable(s, s.handlers[h].ip, e.cutoff)
  }

  // All handlers of an address share the entry its map leads to, and the bound is
  // then one on the address, exactly as long as no cleanup removes an entry that a
  // handler has looked up and not yet added to.
  lemma MappedExactlyWhenSpared(s: State, e: Step, maxConn: int)
    requires Inv(s) && Enabled(s, e) && AllMapped(s)
    ensures AllMapped(Apply(s, e, maxConn)) <==> SparesHeld(s, e)
  {
  }

  lemma {:induction false} OneEntryPerAddress(ss: seq<State>, es: seq<Step>, maxConn: int, k: nat)
    requires IsRun(ss, es, maxConn) && k < |ss|
    requires forall j :: 0 <= j < k ==> SparesHeld(ss[j], es[j])
    ensures AllMapped(ss[k])
    ensures forall g, h :: g in ss[k].handlers && h in ss[k].handlers && ss[k].handlers[g].ip == ss[k].handlers[h].ip ==>
              ss[k].handlers[g].entry == ss[k].handlers[h].entry
  {
    if k > 0 {
      OneEntryPerAddress(ss, es, maxConn, k - 1);
      CountIsActive(ss, es, maxConn, k - 1);
      assert Enabled(ss[k - 1], es[k - 1]);
      MappedExactlyWhenSpared(ss[k - 1], es[k - 1], maxConn);
    }
  }

  function OfAddress(s: State, ip: string, stage: Stage): set<nat> {
    set h | h in s.handlers && s.handlers[h].ip == ip && s.handlers[h].stage == stage
  }

  // The bound is then one on the address: with at most `width` of its handlers
  // between check and add, no more than maxConn - 1 + width are admitted.
  lemma AddressBound(ss: seq<State>, es: seq<Step>, maxConn: int, width: nat, k: nat, ip: string)
    requires IsRun(ss, es, maxConn) && maxConn >= 1 && k < |ss|
    requires forall j :: 0 <= j <= k ==> AtMostBetween(ss[j], width)
    requires forall j :: 0 <= j < k ==> SparesHeld(ss[j], es[j])
    ensures |OfAddress(ss[k], ip, Active)| + |OfAddress(ss[k], ip, Checked)| <= maxConn - 1 + width
  {
    var s := ss[k];
    CountIsActive(ss, es, maxConn, k);
    OneEntryPerAddress(ss, es, maxConn, k);
    OvershootBound(ss, es, maxConn, width, k);
    if ip in s.counts {
      AddressIsEntry(s, ip, Active);
      AddressIsEntry(s, ip, Checked);
    } else {
      assert OfAddress(s, ip, Active) == {} && OfAddress(s, ip, Checked) == {};
    }
  }

  lemma AddressIsEntry(s: State, ip: string, stage: Stage)
    requires MapsOk(s) && AllMapped(s) && ip in s.counts
    ensures OfAddress(s, ip, stage) == In(s, s.counts[ip], stage)
  {
  }

  // Otherwise the address splits: the next handler gets a fresh entry, and each
  // entry admits up to the limit on its own.
  lemma RemovalSplitsAddress(s: State, h: nat, g: nat, cutoff: int, maxConn: int)
    requires Inv(s) && h in s.handlers && g !in s.handlers && Enabled(s, Cleanup(cutoff))
    requires Removable(s, s.handlers[h].ip, cutoff)
    ensures var t := Apply(Apply(s, Cleanup(cutoff), maxConn), Enter(g, s.handlers[h].ip), maxConn);
            t.handlers[g].ip == t.handlers[h].ip && t.handlers[g].entry != t.handlers[h].entry
  {
  }

  // A handler that has stamped its entry is safe from cleanups for ten minutes.
  lemma StampedIsSpared(s: State, h: nat, e: Step)
    requires Inv(s) && h in s.handlers && e.Cleanup? && Enabled(s, e)
    requires s.now - s.entries[s.handlers[h].entry].lastSeen <= IDLE
    requires s.handlers[h].ip in s.counts && s.counts[s.handlers[h].ip] == s.handlers[h].entry
    ensures !Removable(s, s.handlers[h].ip, e.cutoff)
  {
  }

  // ---- what each step does, field by field

  // A request finds the mapped entry of its address, or a new one with count zero is
  // mapped; every other address keeps its entry.
  lemma WhatEnterDoes(s: State, h: nat, ip: string, maxConn: int)
    requires MapsOk(s) && Enabled(s, Enter(h, ip))
    ensures var t := Apply(s, Enter(h, ip), maxConn);
            && ip in t.counts && t.counts[ip] < |t.entries| && h in t.handlers
            && t.handlers[h] == Handler(ip, t.counts[ip], Found)
            && (forall g :: g in s.handlers ==> g in t.handlers && t.handlers[g] == s.handlers[g])
            && (forall k :: k in s.counts ==> k in t.counts && t.counts[k] == s.counts[k])
            && (if ip in s.counts then t.entries == s.entries && t.counts == s.counts
                else t.entries == s.entries + [Entry(ip, 0, s.now)] && t.counts.Keys == s.counts.Keys + {ip})
  {
  }

  // A handler is turned away if and only if its entry's count has reached the limit.
  lemma WhatCheckDoes(s: State, h: nat, maxConn: int)
    requires Enabled(s, Check(h))
    ensures var t, c := Apply(s, Check(h), maxConn), s.handlers[h];
            && (h !in t.handlers <==> s.entries[c.entry].count >= maxConn)
            && (h in t.handlers ==> t.handlers[h] == c.(stage := Checked))
            && t.handlers - {h} == s.handlers - {h} && t.entries == s.entries && t.counts == s.counts
  {
  }

  // Stamping, adding and releasing change the handler's own entry only: its time, its
  // count by one up, its count by one down and its time.
  lemma WhatHandlersDo(s: State, h: nat, maxConn: int)
    requires h in s.handlers && s.handlers[h].entry < |s.entries|
    ensures var i := s.handlers[h].entry;
            var e := s.entries[i];
            && (Enabled(s, Stamp(h)) ==>
                  Apply(s, Stamp(h), maxConn) == s.(entries := s.entries[i := e.(lastSeen := s.now)],
                                                    handlers := s.handlers[h := s.handlers[h].(stage := Stamped)]))
            && (Enabled(s, Add(h)) ==>
                  Apply(s, Add(h), maxConn) == s.(entries := s.entries[i := e.(count := e.count + 1)],
                                                  handlers := s.handlers[h := s.handlers[h].(stage := Active)]))
            && (Enabled(s, Release(h)) ==>
                  Apply(s, Release(h), maxConn) == s.(entries := s.entries[i := Entry(e.ip, e.count - 1, s.now)],
                                                      handlers := s.handlers - {h}))
  {
  }

  // A cleanup unmaps exactly the addresses whose entry has no connection and was last
  // seen before the cutoff.
  lemma WhatCleanupDoes(s: State, cutoff: int, maxConn: int)
    requires MapsOk(s) && Enabled(s, Cleanup(cutoff))
    ensures var t := Apply(s, Cleanup(cutoff), maxConn);
            && t.entries == s.entries && t.handlers == s.handlers
            && (forall ip :: ip in t.counts <==>
                  ip in s.counts && !(s.entries[s.counts[ip]].count == 0 && s.entries[s.counts[ip]].lastSeen < cutoff))
            && (forall ip :: ip in t.counts ==> t.counts[ip] == s.counts[ip])
  {
  }

  // ---- the code

  class EntryRef {
    ghost const index: nat   // its place in the order of creation
    const ip: string
    var count: int
    var lastSeen: int

    constructor (ghost index: nat, ip: string, now: int)
      ensures this.index == index && this.ip == ip && count == 0 && lastSeen == now
    {
      this.index, this.ip, count, lastSeen := index, ip, 0, now;
    }
  }

  class WsConnLimiter {
    const maxConn: int
    var counts: map<string, EntryRef>
    ghost var all: seq<EntryRef>
    ghost var model: State

    ghost predicate Coupled()
      reads this, all
    {
      && |all| == |model.entries|
      && (forall i :: 0 <= i < |all| ==>
            all[i].index == i && Entry(all[i].ip, all[i].count, all[i].lastSeen) == model.entries[i])
      && counts.Keys == model.counts.Keys
      && forall ip :: ip in counts ==> model.counts[ip] < |all| && all[model.counts[ip]] == counts[ip]
    }

    ghost predicate Valid()
      reads this, all
    {
      Coupled() && Inv(model)
    }

    constructor (maxConn: int)
      ensures Valid() && model == INIT && this.maxConn == maxConn
    {
      this.maxConn := maxConn;
      counts, all, model := map[], [], INIT;
    }

    // entry(): what the middleware of request `h` calls first.
    method LookUp(ip: string, ghost h: nat, now: int) returns (e: EntryRef)
      requires Valid() && h !in model.handlers && now == model.now
      modifies this
      ensures Valid() && model == Apply(old(model), Enter(h, ip), maxConn)
      ensures e in all && e.ip == ip && e.index == model.handlers[h].entry
      ensures ip in counts && counts[ip] == e && counts.Keys == old(counts).Keys + {ip}
      ensures if ip in old(counts) then e == old(counts)[ip] else fresh(e) && e.count == 0 && e.lastSeen == now
    {
      CountsKept(model, Enter(h, ip), maxConn);
      e := FindOrAdd(ip, h, now);
    }

    method FindOrAdd(ip: string, ghost h: nat, now: int) returns (e: EntryRef)
      requires Coupled() && MapsOk(model) && now == model.now
      modifies this
      ensures Coupled() && model == Entered(old(model), h, ip)
      ensures e in all && e.ip == ip && e.index == model.handlers[h].entry
      ensures ip in counts && counts[ip] == e && counts.Keys == old(counts).Keys + {ip}
      ensures if ip in old(counts) then e == old(counts)[ip] else fresh(e) && e.count == 0 && e.lastSeen == now
    {
      if ip in counts {
        model := Entered(model, h, ip);
        return counts[ip];
      }
      e := new EntryRef(|all|, ip, now);
      AddEntry(e, h);
    }

    method AddEntry(e: EntryRef, ghost h: nat)
      requires Coupled() && e.ip !in counts && e !in all && e.index == |all| && e.count == 0 && e.lastSeen == model.now
      modifies this
      ensures Coupled() && model == Entered(old(model), h, e.ip)
      ensures all == old(all) + [e] && counts == old(counts)[e.ip := e]
    {
      model := Entered(model, h, e.ip);
      counts := counts[e.ip := e];
      all := all + [e];
      assert forall i :: 0 <= i < |all| - 1 ==> all[i] == old(all)[i] && model.entries[i] == old(model).entries[i];
    }

    method StampEntry(e: EntryRef, ghost h: nat, now: int)
      requires Valid() && Enabled(model, Stamp(h)) && e in all && e.index == model.handlers[h].entry && now == model.now
      modifies this`model, e
      ensures Valid() && model == Apply(old(model), Stamp(h), maxConn)
      ensures e.lastSeen == now && e.count == old(e.count)
    {
      CountsKept(model, Stamp(h), maxConn);
      model := Apply(model, Stamp(h), maxConn);
      e.lastSeen := now;
    }

    // The load of the counter and its comparison with the limit.
    method CheckLimit(e: EntryRef, ghost h: nat) returns (ok: bool)
      requires Valid() && Enabled(model, Check(h)) && e in all && e.index == model.handlers[h].entry
      modifies this`model
      ensures Valid() && model == Apply(old(model), Check(h), maxConn) && ok == (h in model.handlers)
      ensures ok <==> e.count < maxConn
    {
      CountsKept(model, Check(h), maxConn);
      model := Apply(model, Check(h), maxConn);
      ok := e.count < maxConn;
    }

    method AddOne(e: EntryRef, ghost h: nat)
      requires Valid() && Enabled(model, Add(h)) && e in all && e.index == model.handlers[h].entry
      modifies this`model, e
      ensures Valid() && model == Apply(old(model), Add(h), maxConn)
      ensures e.count == old(e.count) + 1 && e.lastSeen == old(e.lastSeen)
    {
      CountsKept(model, Add(h), maxConn);
      model := Apply(model, Add(h), maxConn);
      e.count := e.count + 1;
    }

    method ReleaseOne(e: EntryRef, ghost h: nat, now: int)
      requires Valid() && Enabled(model, Release(h)) && e in all && e.index == model.handlers[h].entry && now == model.now
      modifies this`model, e
      ensures Valid() && model == Apply(old(model), Release(h), maxConn)
      ensures e.count == old(e.count) - 1 && e.lastSeen == now
    {
      CountsKept(model, Release(h), maxConn);
      model := Apply(model, Release(h), maxConn);
      e.count := e.count - 1;
      e.lastSeen := now;
    }

    method CleanUp(now: int)
      requires Valid() && now == model.now
      modifies this
      ensures Valid() && model == Apply(old(model), Cleanup(now - 600), maxConn)
      ensures forall ip :: ip in counts <==>
                ip in old(counts) && !(old(counts)[ip].count == 0 && old(counts)[ip].lastSeen < now - 600)
      ensures forall ip :: ip in counts ==> counts[ip] == old(counts)[ip]
    {
      CountsKept(model, Cleanup(now - 600), maxConn);
      RemoveIdle(now - 600);
    }

    method RemoveIdle(cutoff: int)
      requires Coupled() && Enabled(model, Cleanup(cutoff))
      modifies this`counts, this`model
      ensures Coupled() && model == Apply(old(model), Cleanup(cutoff), maxConn)
      ensures forall ip :: ip in counts <==>
                ip in old(counts) && !(old(counts)[ip].count == 0 && old(counts)[ip].lastSeen < cutoff)
      ensures forall ip :: ip in counts ==> counts[ip] == old(counts)[ip]
    {
      SweepCounts(cutoff);
      model := Apply(model, Cleanup(cutoff), maxConn);
      assert forall ip :: ip in old(counts) ==> (ip in counts <==> !Removable(old(model), ip, cutoff));
    }

    method SweepCounts(cutoff: int)
      modifies this`counts
      ensures counts.Keys <= old(counts).Keys && forall ip :: ip in counts ==> counts[ip] == old(counts)[ip]
      ensures forall ip :: ip in old(counts) ==>
                (ip in counts <==> !(old(counts)[ip].count == 0 && old(counts)[ip].lastSeen < cutoff))
    {
      var todo := counts.Keys;
      while todo != {}
        invariant todo <= counts.Keys <= old(counts).Keys
        invariant forall ip :: ip in counts ==> counts[ip] == old(counts)[ip]
        invariant forall ip :: ip in old(counts) && ip !in todo ==>
                    (ip in counts <==> !(old(counts)[ip].count == 0 && old(counts)[ip].lastSeen < cutoff))
        invariant forall ip :: ip in todo ==> ip in counts
        decreases todo
      {
        var ip :| ip in todo;
        todo := todo - {ip};
        if counts[ip].count == 0 && counts[ip].lastSeen < cutoff {
          counts := counts - {ip};
        }
      }
    }
  }
}
