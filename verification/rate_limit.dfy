// Token buckets. Time is in milliseconds and a bucket's credit in milliseconds of
// refill, so one token is `interval` of credit and the arithmetic is exact.
module RateLimit {
  datatype Params = Params(interval: nat, burst: nat)

  const GLOBAL := Params(200, 50)         // 300 requests a minute, burst 50
  const AUTH := Params(12000, 5)
  const ROOM_CREATE := Params(12000, 5)
  const WS_MESSAGES := Params(1000, 15)

  const IDLE: nat := 600000   // visitors unseen for longer are forgotten

  // The credit that n tokens are worth.
  function Cost(n: nat, p: Params): nat {
    if n == 0 then 0 else Cost(n - 1, p) + p.interval
  }

  function Capacity(p: Params): nat {
    Cost(p.burst, p)
  }

  lemma {:induction false} CostIsProduct(n: nat, p: Params)
    ensures Cost(n, p) == n * p.interval
  {
    if n > 0 {
      CostIsProduct(n - 1, p);
    }
  }

  datatype Bucket = Bucket(credit: int, last: int)

  function Min(a: int, b: int): int {
    if a <= b then a else b
  }

  function Refilled(b: Bucket, now: int, p: Params): int {
    Min(Capacity(p), b.credit + (now - b.last))
  }

  predicate Grants(b: Bucket, now: int, p: Params) {
    Refilled(b, now, p) >= p.interval
  }

  function After(b: Bucket, now: int, p: Params): Bucket {
    if Grants(b, now, p) then Bucket(Refilled(b, now, p) - p.interval, now) else b
  }

  function New(now: int, p: Params): Bucket {
    Bucket(Capacity(p), now)
  }

  // ---- how many calls one bucket grants

  function AfterAll(b: Bucket, ts: seq<int>, p: Params): Bucket {
    if ts == [] then b else After(AfterAll(b, ts[..|ts| - 1], p), ts[|ts| - 1], p)
  }

  function Granted(b: Bucket, ts: seq<int>, p: Params): nat {
    if ts == [] then 0
    else Granted(b, ts[..|ts| - 1], p) + if Grants(AfterAll(b, ts[..|ts| - 1], p), ts[|ts| - 1], p) then 1 else 0
  }

  ghost predicate InOrder(ts: seq<int>) {
    forall i, j :: 0 <= i < j < |ts| ==> ts[i] <= ts[j]
  }

  ghost predicate Sane(b: Bucket, now: int, p: Params) {
    0 <= b.credit <= Capacity(p) && b.last <= now
  }

  // What was granted, plus what is left, is paid for by the start and by time.
  lemma {:induction false} Budget(b: Bucket, ts: seq<int>, p: Params)
    requires InOrder(ts) && ts != [] && Sane(b, ts[0], p)
    ensures var c, now := AfterAll(b, ts, p), ts[|ts| - 1];
            && Sane(c, now, p)
            && Cost(Granted(b, ts, p), p) + Refilled(c, now, p) <= Capacity(p) + (now - ts[0])
  {
    var init, now := ts[..|ts| - 1], ts[|ts| - 1];
    if init == [] {
      assert AfterAll(b, init, p) == b && Granted(b, init, p) == 0;
      OneCall(b, now, now, p);
    } else {
      Budget(b, init, p);
      OneCall(AfterAll(b, init, p), init[|init| - 1], now, p);
    }
  }

  // A call spends what it grants, and waiting for it earns at most the time waited.
  lemma OneCall(b: Bucket, before: int, now: int, p: Params)
    requires Sane(b, before, p) && before <= now
    ensures Sane(After(b, now, p), now, p)
    ensures Refilled(After(b, now, p), now, p) + (if Grants(b, now, p) then p.interval else 0)
              <= Refilled(b, before, p) + (now - before)
  {
  }

  lemma SaneBefore(ts: seq<int>, i: nat, start: int, p: Params)
    requires InOrder(ts) && i < |ts| && start <= ts[0]
    ensures Sane(AfterAll(New(start, p), ts[..i], p), ts[i], p)
  {
    if i > 0 {
      Budget(New(start, p), ts[..i], p);
    }
  }

  // In any stretch of a bucket's calls the number granted is at most the burst plus
  // one for each interval that passes.
  lemma WindowBound(ts: seq<int>, i: nat, j: nat, start: int, p: Params)
    requires InOrder(ts) && i < j <= |ts| && start <= ts[0]
    ensures var window := ts[i..j];
            Granted(AfterAll(New(start, p), ts[..i], p), window, p) * p.interval <= p.burst * p.interval + (ts[j - 1] - ts[i])
  {
    var b := AfterAll(New(start, p), ts[..i], p);
    SaneBefore(ts, i, start, p);
    Budget(b, ts[i..j], p);
    CostIsProduct(Granted(b, ts[i..j], p), p);
    CostIsProduct(p.burst, p);
  }

  // ---- a reader's broadcasts

  // readPump asks its limiter at `asked` and broadcasts at `sent`, after the insert
  // queue and the hub have taken the message; it reads the next frame after that.
  datatype Call = Call(asked: int, sent: int)

  ghost predicate Sequential(calls: seq<Call>) {
    && (forall k :: 0 <= k < |calls| ==> calls[k].asked <= calls[k].sent)
    && (forall k, l :: 0 <= k < l < |calls| ==> calls[k].sent <= calls[l].asked)
  }

  function Asked(calls: seq<Call>): seq<int> {
    seq(|calls|, k requires 0 <= k < |calls| => calls[k].asked)
  }

  // The calls after the i-th, up to the j-th, are broadcast within sent[j] - sent[i]
  // of the i-th. With the i-th itself that makes at most 16 broadcasts plus one per
  // second in any window that begins and ends with a broadcast.
  lemma BroadcastWindow(calls: seq<Call>, start: int, i: nat, j: nat)
    requires Sequential(calls) && i < j < |calls| && start <= calls[0].asked
    ensures var p := WS_MESSAGES;
            Granted(AfterAll(New(start, p), Asked(calls)[..i + 1], p), Asked(calls)[i + 1..j + 1], p) * 1000
              <= 15000 + (calls[j].sent - calls[i].sent)
  {
    AskedInOrder(calls);
    WindowBound(Asked(calls), i + 1, j + 1, start, WS_MESSAGES);
    assert calls[i].sent <= calls[i + 1].asked && calls[j].asked <= calls[j].sent;
  }

  lemma AskedInOrder(calls: seq<Call>)
    requires Sequential(calls)
    ensures InOrder(Asked(calls))
  {
  }

  // How long the queue and the hub hold a call up decides whether 15 plus one per
  // second bounds the broadcasts of every window, its first one included.
  ghost predicate HeldUpAtMost(calls: seq<Call>, hold: nat) {
    forall k :: 0 <= k < |calls| ==> calls[k].sent - calls[k].asked <= hold
  }

  function Broadcasts(calls: seq<Call>, start: int, i: nat, j: nat): nat
    requires i <= j < |calls|
  {
    Granted(AfterAll(New(start, WS_MESSAGES), Asked(calls)[..i], WS_MESSAGES), Asked(calls)[i..j + 1], WS_MESSAGES)
  }

  // The calls from the i-th to the j-th are broadcast within so many seconds.
  predicate Within(calls: seq<Call>, i: nat, j: nat, seconds: nat) {
    i <= j < |calls| && calls[j].sent - calls[i].sent <= 1000 * seconds
  }

  ghost predicate FifteenAndOnePerSecond(calls: seq<Call>, start: int) {
    forall i: nat, j: nat, seconds: nat :: Within(calls, i, j, seconds) ==> Broadcasts(calls, start, i, j) <= 15 + seconds
  }

  // It does for every schedule that holds nothing up for longer than `hold`.
  ghost predicate AlwaysFifteen(hold: nat) {
    forall calls: seq<Call>, start: int ::
      Sequential(calls) && HeldUpAtMost(calls, hold) && (calls != [] ==> start <= calls[0].asked) ==>
        FifteenAndOnePerSecond(calls, start)
  }

  lemma PromptCalls(calls: seq<Call>, start: int, hold: nat, i: nat, j: nat, seconds: nat)
    requires Sequential(calls) && HeldUpAtMost(calls, hold) && hold < 1000
    requires Within(calls, i, j, seconds) && start <= calls[0].asked
    ensures Broadcasts(calls, start, i, j) <= 15 + seconds
  {
    AskedInOrder(calls);
    WindowBound(Asked(calls), i, j + 1, start, WS_MESSAGES);
    assert calls[i].sent - calls[i].asked <= hold && calls[j].asked <= calls[j].sent;
  }

  // Exactly: the bound holds for all schedules if and only if no call is held up for
  // a whole second.
  lemma FifteenExactly(hold: nat)
    ensures AlwaysFifteen(hold) <==> hold < 1000
  {
    if hold < 1000 {
      forall calls: seq<Call>, start: int
        | Sequential(calls) && HeldUpAtMost(calls, hold) && (calls != [] ==> start <= calls[0].asked)
        ensures FifteenAndOnePerSecond(calls, start)
      {
        forall i: nat, j: nat, seconds: nat | Within(calls, i, j, seconds)
          ensures Broadcasts(calls, start, i, j) <= 15 + seconds
        {
          PromptCalls(calls, start, hold, i, j, seconds);
        }
      }
    } else {
      SixteenAtOnce();
      var calls := HeldUp();
      assert Asked(calls)[..0] == [] && Asked(calls)[0..15 + 1] == Asked(calls);
      assert Broadcasts(calls, 0, 0, 15) == 16 && Within(calls, 0, 15, 0);
      assert !FifteenAndOnePerSecond(calls, 0);
    }
  }

  // The schedule that shows it: the first call is held up for a second, and sixteen
  // leave in the same instant.
  function HeldUp(): seq<Call> {
    [Call(0, 1000)] + seq(15, _ => Call(1000, 1000))
  }

  function Same(n: nat, now: int): seq<int> {
    seq(n, _ => now)
  }

  lemma {:induction false} FullBucketGrants(b: Bucket, now: int, n: nat, p: Params)
    requires Refilled(b, now, p) == Capacity(p) && n <= p.burst
    ensures Granted(b, Same(n, now), p) == n
    ensures Refilled(AfterAll(b, Same(n, now), p), now, p) == Cost(p.burst - n, p)
  {
    if n > 0 {
      assert Same(n, now)[..n - 1] == Same(n - 1, now);
      FullBucketGrants(b, now, n - 1, p);
    }
  }

  lemma SixteenAtOnce()
    ensures var p := WS_MESSAGES;
            && Sequential(HeldUp()) && Granted(New(0, p), Asked(HeldUp()), p) == 16
            && forall k :: 0 <= k < |HeldUp()| ==> HeldUp()[k].sent == 1000
  {
    var p := WS_MESSAGES;
    var b := AfterAll(New(0, p), [0], p);
    assert [0][..0] == [];
    CostIsProduct(15, p);
    assert AfterAll(New(0, p), [], p) == New(0, p) && Granted(New(0, p), [], p) == 0;
    assert b == Bucket(14000, 0) && Granted(New(0, p), [0], p) == 1;
    FullBucketGrants(b, 1000, 15, p);
    GrantedInParts(New(0, p), [0], Same(15, 1000), p);
    assert Asked(HeldUp()) == [0] + Same(15, 1000);
  }

  lemma {:induction false} GrantedInParts(b: Bucket, s: seq<int>, t: seq<int>, p: Params)
    ensures AfterAll(b, s + t, p) == AfterAll(AfterAll(b, s, p), t, p)
    ensures Granted(b, s + t, p) == Granted(b, s, p) + Granted(AfterAll(b, s, p), t, p)
  {
    if t == [] {
      assert s + t == s;
    } else {
      GrantedInParts(b, s, t[..|t| - 1], p);
      assert (s + t)[..|s + t| - 1] == s + t[..|t| - 1];
    }
  }

  // ---- one bucket per address, with and without forgetting

  datatype Visitor = Visitor(bucket: Bucket, lastSeen: int)

  datatype State = State(now: int, visitors: map<string, Visitor>)

  datatype Event = Request(ip: string) | Pass(ms: nat) | Cleanup

  function Found(s: State, ip: string, p: Params): Visitor {
    if ip in s.visitors then s.visitors[ip].(lastSeen := s.now) else Visitor(New(s.now, p), s.now)
  }

  function Served(s: State, ip: string, p: Params): State {
    var v := Found(s, ip, p);
    s.(visitors := s.visitors[ip := v.(bucket := After(v.bucket, s.now, p))])
  }

  function Swept(s: State): State {
    s.(visitors := map ip | ip in s.visitors && s.now - s.visitors[ip].lastSeen <= IDLE :: s.visitors[ip])
  }

  function Next(s: State, e: Event, p: Params, forget: bool): State {
    match e
    case Request(ip) => Served(s, ip, p)
    case Pass(d) => s.(now := s.now + d)
    case Cleanup => if forget then Swept(s) else s
  }

  function Verdict(s: State, e: Event, p: Params): seq<bool> {
    if e.Request? then [Grants(Found(s, e.ip, p).bucket, s.now, p)] else []
  }

  function Run(s: State, es: seq<Event>, p: Params, forget: bool): State {
    if es == [] then s else Next(Run(s, es[..|es| - 1], p, forget), es[|es| - 1], p, forget)
  }

  function Verdicts(s: State, es: seq<Event>, p: Params, forget: bool): seq<bool> {
    if es == [] then []
    else Verdicts(s, es[..|es| - 1], p, forget) + Verdict(Run(s, es[..|es| - 1], p, forget), es[|es| - 1], p)
  }

  ghost predicate Usual(v: Visitor, now: int, p: Params) {
    0 <= v.bucket.credit <= Capacity(p) && v.bucket.last <= v.lastSeen <= now
  }

  // The forgetting limiter knows some of the visitors; the others have a full bucket.
  ghost predicate Alike(f: State, r: State, p: Params) {
    && f.now == r.now
    && (forall ip :: ip in r.visitors ==> Usual(r.visitors[ip], r.now, p))
    && (forall ip :: ip in f.visitors ==> ip in r.visitors && f.visitors[ip] == r.visitors[ip])
    && (forall ip :: ip in r.visitors && ip !in f.visitors ==> Refilled(r.visitors[ip].bucket, r.now, p) == Capacity(p))
  }

  lemma AlikeKept(f: State, r: State, e: Event, p: Params)
    requires Alike(f, r, p) && p.burst >= 1 && Capacity(p) <= IDLE + 1
    ensures Alike(Next(f, e, p, true), Next(r, e, p, false), p)
    ensures Verdict(f, e, p) == Verdict(r, e, p)
  {
  }

  lemma {:induction false} AlikeRuns(es: seq<Event>, p: Params)
    requires p.burst >= 1 && Capacity(p) <= IDLE + 1
    ensures var s := State(0, map[]);
            Alike(Run(s, es, p, true), Run(s, es, p, false), p) && Verdicts(s, es, p, true) == Verdicts(s, es, p, false)
  {
    if es != [] {
      var s := State(0, map[]);
      AlikeRuns(es[..|es| - 1], p);
      AlikeKept(Run(s, es[..|es| - 1], p, true), Run(s, es[..|es| - 1], p, false), es[|es| - 1], p);
    }
  }

  ghost predicate Invisible(p: Params) {
    forall es: seq<Event> :: Verdicts(State(0, map[]), es, p, true) == Verdicts(State(0, map[]), es, p, false)
  }

  // ---- the schedule that tells the two limiters apart when a bucket refills slowly

  function Requests(n: nat): seq<Event> {
    seq(n, _ => Request("a"))
  }

  lemma {:induction false} RunInParts(s: State, a: seq<Event>, b: seq<Event>, p: Params, forget: bool)
    ensures Run(s, a + b, p, forget) == Run(Run(s, a, p, forget), b, p, forget)
  {
    if b == [] {
      assert a + b == a;
    } else {
      RunInParts(s, a, b[..|b| - 1], p, forget);
      assert (a + b)[..|a + b| - 1] == a + b[..|b| - 1];
    }
  }

  lemma {:induction false} RequestsDrain(s: State, n: nat, p: Params, forget: bool)
    ensures var t := Run(s, Requests(n), p, forget);
            && t.now == s.now
            && Found(t, "a", p).bucket == AfterAll(Found(s, "a", p).bucket, Same(n, s.now), p)
            && (n > 0 ==> "a" in t.visitors && t.visitors["a"].lastSeen == s.now)
  {
    if n > 0 {
      RequestsDrain(s, n - 1, p, forget);
      assert Requests(n)[..n - 1] == Requests(n - 1) && Same(n, s.now)[..n - 1] == Same(n - 1, s.now);
    }
  }

  // A bucket that is not full runs dry one call earlier than a full one.
  lemma {:induction false} ScarceBucket(b: Bucket, now: int, n: nat, p: Params)
    requires Refilled(b, now, p) < Capacity(p) && n <= p.burst
    ensures var left := Refilled(AfterAll(b, Same(n, now), p), now, p);
            left < Capacity(p) && (left < p.interval || left < Cost(p.burst - n, p))
  {
    if n > 0 {
      ScarceBucket(b, now, n - 1, p);
      assert Same(n, now)[..n - 1] == Same(n - 1, now);
    }
  }

  // The state after draining a bucket, waiting just too long, a cleanup and all but
  // one of a new burst.
  function Probe(n: nat): seq<Event>
    requires n >= 1
  {
    Requests(n) + [Pass(IDLE + 1)] + [Cleanup] + Requests(n - 1)
  }

  lemma AfterWait(p: Params, forget: bool)
    requires p.burst >= 1 && Capacity(p) > IDLE + 1
    ensures var t := Run(State(0, map[]), Requests(p.burst) + [Pass(IDLE + 1)] + [Cleanup], p, forget);
            && t.now == IDLE + 1
            && if forget then Found(t, "a", p).bucket == New(IDLE + 1, p)
               else Refilled(Found(t, "a", p).bucket, IDLE + 1, p) < Capacity(p)
  {
    var s := State(0, map[]);
    var a := Requests(p.burst);
    RequestsDrain(s, p.burst, p, forget);
    FullBucketGrants(New(0, p), 0, p.burst, p);
    var drained := Run(s, a, p, forget);
    assert drained.visitors["a"].bucket == Found(drained, "a", p).bucket;
    var waited := drained.(now := IDLE + 1);
    assert (a + [Pass(IDLE + 1)])[..|a|] == a;
    assert Run(s, a + [Pass(IDLE + 1)], p, forget) == waited;
    assert (a + [Pass(IDLE + 1)] + [Cleanup])[..|a| + 1] == a + [Pass(IDLE + 1)];
    assert Run(s, a + [Pass(IDLE + 1)] + [Cleanup], p, forget) == if forget then Swept(waited) else waited;
  }

  lemma LastVerdict(p: Params, forget: bool)
    requires p.burst >= 1 && Capacity(p) > IDLE + 1
    ensures Verdict(Run(State(0, map[]), Probe(p.burst), p, forget), Request("a"), p) == [forget]
  {
    var before := Requests(p.burst) + [Pass(IDLE + 1)] + [Cleanup];
    var t := Run(State(0, map[]), before, p, forget);
    AfterWait(p, forget);
    RunInParts(State(0, map[]), before, Requests(p.burst - 1), p, forget);
    RequestsDrain(t, p.burst - 1, p, forget);
    var b := Found(t, "a", p).bucket;
    assert Cost(1, p) == p.interval;
    if forget {
      FullBucketGrants(b, t.now, p.burst - 1, p);
    } else {
      ScarceBucket(b, t.now, p.burst - 1, p);
    }
  }

  lemma ProbeTells(p: Params)
    requires p.burst >= 1 && Capacity(p) > IDLE + 1
    ensures !Invisible(p)
  {
    var es := Probe(p.burst) + [Request("a")];
    var s := State(0, map[]);
    LastVerdict(p, true);
    LastVerdict(p, false);
    assert es[..|es| - 1] == Probe(p.burst);
    assert Verdicts(s, es, p, true) == Verdicts(s, Probe(p.burst), p, true) + [true];
    assert Verdicts(s, es, p, false) == Verdicts(s, Probe(p.burst), p, false) + [false];
    EndsDiffer(Verdicts(s, Probe(p.burst), p, true), Verdicts(s, Probe(p.burst), p, false));
  }

  lemma EndsDiffer(v: seq<bool>, w: seq<bool>)
    ensures v + [true] != w + [false]
  {
    if |v| == |w| {
      assert (v + [true])[|v|] != (w + [false])[|v|];
    }
  }

  // Forgetting idle visitors is invisible, for every schedule of requests, time and
  // cleanups, exactly when an empty bucket refills within the idle time.
  lemma InvisibleExactly(p: Params)
    requires p.burst >= 1
    ensures Invisible(p) <==> p.burst * p.interval <= IDLE + 1
  {
    CostIsProduct(p.burst, p);
    if Capacity(p) <= IDLE + 1 {
      forall es: seq<Event> ensures Verdicts(State(0, map[]), es, p, true) == Verdicts(State(0, map[]), es, p, false) {
        AlikeRuns(es, p);
      }
    } else {
      ProbeTells(p);
    }
  }

  lemma ConfiguredLimitersForgetSafely()
    ensures Invisible(GLOBAL) && Invisible(AUTH) && Invisible(ROOM_CREATE)
    ensures GLOBAL.burst == 50 && 300 * GLOBAL.interval == 60000   // 300 a minute
    ensures AUTH == ROOM_CREATE && AUTH.burst == 5 && 5 * AUTH.interval == 60000
  {
    InvisibleExactly(GLOBAL);
    InvisibleExactly(AUTH);
    InvisibleExactly(ROOM_CREATE);
  }

  // ---- each address has a bucket of its own

  function Clock(es: seq<Event>): nat {
    if es == [] then 0 else Clock(es[..|es| - 1]) + if es[|es| - 1].Pass? then es[|es| - 1].ms else 0
  }

  // The times of one address's requests.
  function TimesOf(es: seq<Event>, ip: string): seq<int> {
    if es == [] then []
    else TimesOf(es[..|es| - 1], ip) + if es[|es| - 1] == Request(ip) then [Clock(es[..|es| - 1])] else []
  }

  // How many of its requests the limiter allowed.
  function AllowedOf(es: seq<Event>, ip: string, p: Params, forget: bool): nat {
    if es == [] then 0
    else
      var init, e := es[..|es| - 1], es[|es| - 1];
      AllowedOf(init, ip, p, forget)
      + if e == Request(ip) && Verdict(Run(State(0, map[]), init, p, forget), e, p) == [true] then 1 else 0
  }

  lemma {:induction false} TimesRise(es: seq<Event>, ip: string)
    ensures InOrder(TimesOf(es, ip)) && forall k :: 0 <= k < |TimesOf(es, ip)| ==> 0 <= TimesOf(es, ip)[k] <= Clock(es)
  {
    if es != [] {
      TimesRise(es[..|es| - 1], ip);
    }
  }

  // How many calls at these times a bucket made at the first of them grants.
  function GrantedAlone(ts: seq<int>, p: Params): nat {
    if ts == [] then 0 else Granted(New(ts[0], p), ts, p)
  }

  ghost predicate HasBucketOf(s: State, ip: string, ts: seq<int>, p: Params) {
    (ip in s.visitors <==> ts != []) && (ts != [] ==> s.visitors[ip].bucket == AfterAll(New(ts[0], p), ts, p))
  }

  lemma OneRequest(s: State, ip: string, ts: seq<int>, p: Params)
    requires HasBucketOf(s, ip, ts, p)
    ensures HasBucketOf(Served(s, ip, p), ip, ts + [s.now], p)
    ensures GrantedAlone(ts + [s.now], p) == GrantedAlone(ts, p) + if Grants(Found(s, ip, p).bucket, s.now, p) then 1 else 0
  {
    var more := ts + [s.now];
    assert more[..|more| - 1] == ts;
    if ts == [] {
      assert AfterAll(New(s.now, p), [], p) == New(s.now, p) && Granted(New(s.now, p), [], p) == 0;
    }
  }

  // The bucket of an address, and what it allows, depend on the address's own requests
  // and on time alone.
  lemma {:induction false} OwnBucket(es: seq<Event>, ip: string, p: Params)
    ensures var s, ts := Run(State(0, map[]), es, p, false), TimesOf(es, ip);
            s.now == Clock(es) && HasBucketOf(s, ip, ts, p) && AllowedOf(es, ip, p, false) == GrantedAlone(ts, p)
  {
    if es != [] {
      var init, e := es[..|es| - 1], es[|es| - 1];
      OwnBucket(init, ip, p);
      if e == Request(ip) {
        OneRequest(Run(State(0, map[]), init, p, false), ip, TimesOf(init, ip), p);
      } else {
        assert TimesOf(es, ip) == TimesOf(init, ip);
      }
    }
  }

  lemma {:induction false} ForgettingAllowsTheSame(es: seq<Event>, ip: string, p: Params)
    requires p.burst >= 1 && p.burst * p.interval <= IDLE + 1
    ensures AllowedOf(es, ip, p, true) == AllowedOf(es, ip, p, false)
  {
    if es != [] {
      var init := es[..|es| - 1];
      ForgettingAllowsTheSame(init, ip, p);
      CostIsProduct(p.burst, p);
      AlikeRuns(init, p);
      AlikeKept(Run(State(0, map[]), init, p, true), Run(State(0, map[]), init, p, false), es[|es| - 1], p);
    }
  }

  lemma {:induction false} TimesInParts(es: seq<Event>, i: nat, ip: string)
    requires i <= |es|
    ensures var a, b := TimesOf(es[..i], ip), TimesOf(es, ip);
            && |a| <= |b| && b[..|a|] == a && Clock(es[..i]) <= Clock(es)
            && forall k :: |a| <= k < |b| ==> Clock(es[..i]) <= b[k]
  {
    if i < |es| {
      var init := es[..|es| - 1];
      TimesInParts(init, i, ip);
      assert init[..i] == es[..i];
      TimesRise(init, ip);
    } else {
      assert es[..i] == es;
    }
  }

  lemma GrantedLater(ts: seq<int>, n: nat, p: Params)
    requires n < |ts|
    ensures GrantedAlone(ts, p) - GrantedAlone(ts[..n], p) == Granted(AfterAll(New(ts[0], p), ts[..n], p), ts[n..|ts|], p)
  {
    GrantedInParts(New(ts[0], p), ts[..n], ts[n..], p);
    assert ts == ts[..n] + ts[n..] && ts[n..|ts|] == ts[n..];
    if n == 0 {
      assert ts[..n] == [];
    } else {
      assert ts[..n][0] == ts[0];
    }
  }

  lemma LaterTimesBound(ts: seq<int>, n: nat, from: int, to: int, p: Params)
    requires InOrder(ts) && n <= |ts| && from <= to && forall k :: n <= k < |ts| ==> from <= ts[k] <= to
    ensures (GrantedAlone(ts, p) - GrantedAlone(ts[..n], p)) * p.interval <= p.burst * p.interval + (to - from)
  {
    if n == |ts| {
      assert ts[..n] == ts;
    } else {
      GrantedLater(ts, n, p);
      WindowBound(ts, n, |ts|, ts[0], p);
      assert ts[|ts| - 1] - ts[n] <= to - from;
    }
  }

  // The middleware's bound: in every schedule of all addresses' requests, cleanups and
  // time, the requests of one address that are allowed from one moment to another
  // number at most the burst plus one for each interval between them.
  lemma AddressWindowBound(es: seq<Event>, i: nat, ip: string, p: Params)
    requires i <= |es| && p.burst >= 1 && p.burst * p.interval <= IDLE + 1
    ensures (AllowedOf(es, ip, p, true) - AllowedOf(es[..i], ip, p, true)) * p.interval
              <= p.burst * p.interval + (Clock(es) - Clock(es[..i]))
  {
    ForgettingAllowsTheSame(es, ip, p);
    ForgettingAllowsTheSame(es[..i], ip, p);
    OwnBucket(es, ip, p);
    OwnBucket(es[..i], ip, p);
    TimesInParts(es, i, ip);
    TimesRise(es, ip);
    LaterTimesBound(TimesOf(es, ip), |TimesOf(es[..i], ip)|, Clock(es[..i]), Clock(es), p);
  }

  // A request leaves every other visitor alone, a cleanup removes exactly those unseen
  // for over ten minutes and leaves the others alone.
  lemma OthersKeepTheirBuckets(s: State, ip: string, other: string, p: Params)
    ensures other != ip ==>
              var t := Next(s, Request(ip), p, true);
              (other in t.visitors <==> other in s.visitors)
              && (other in s.visitors ==> t.visitors[other] == s.visitors[other])
    ensures var t := Next(s, Cleanup, p, true);
            && (other in t.visitors <==> other in s.visitors && s.now - s.visitors[other].lastSeen <= 600000)
            && (other in t.visitors ==> t.visitors[other] == s.visitors[other])
  {
  }

  // ---- the code

  // A visitor with its rate.Limiter.
  class VisitorRef {
    const ip: string
    var credit: int
    var last: int
    var lastSeen: int

    constructor (ip: string, now: int, p: Params)
      ensures this.ip == ip && Value() == Visitor(New(now, p), now)
    {
      this.ip := ip;
      credit, last, lastSeen := Capacity(p), now, now;
    }

    function Value(): Visitor
      reads this
    {
      Visitor(Bucket(credit, last), lastSeen)
    }

    // Limiter.Allow: refill, then take one token if there is one.
    method Allow(now: int, p: Params) returns (ok: bool)
      modifies this
      ensures ok == Grants(old(Value()).bucket, now, p)
      ensures Value() == old(Value()).(bucket := After(old(Value()).bucket, now, p))
      ensures var tokens := if old(credit) + (now - old(last)) > Capacity(p) then Capacity(p) else old(credit) + (now - old(last));
              && ok == (tokens >= p.interval) && lastSeen == old(lastSeen)
              && if ok then credit == tokens - p.interval && last == now else credit == old(credit) && last == old(last)
    {
      var tokens := credit + (now - last);
      if tokens > Capacity(p) {
        tokens := Capacity(p);
      }
      ok := tokens >= p.interval;
      if ok {
        credit, last := tokens - p.interval, now;
      }
    }
  }

  class IpRateLimiter {
    const p: Params
    var visitors: map<string, VisitorRef>

    function Refs(): set<VisitorRef>
      reads this
    {
      set ip | ip in visitors :: visitors[ip]
    }

    ghost predicate Valid()
      reads this, Refs()
    {
      forall ip :: ip in visitors ==> visitors[ip].ip == ip
    }

    ghost function At(now: int): State
      reads this, Refs()
    {
      State(now, map ip | ip in visitors :: visitors[ip].Value())
    }

    constructor (p: Params)
      ensures Valid() && this.p == p && visitors == map[]
    {
      this.p := p;
      visitors := map[];
    }

    method GetLimiter(ip: string, now: int) returns (v: VisitorRef)
      requires Valid()
      modifies this, Refs()
      ensures Valid() && ip in visitors && visitors[ip] == v && v.Value() == Found(old(At(now)), ip, p)
      ensures visitors.Keys == old(visitors).Keys + {ip}
      ensures forall k :: k in old(visitors) ==> visitors[k] == old(visitors)[k]
      ensures forall k :: k in old(visitors) && k != ip ==> visitors[k].Value() == old(visitors[k].Value())
      ensures ip !in old(visitors) ==> fresh(v)
    {
      if ip !in visitors {
        v := new VisitorRef(ip, now, p);
        visitors := visitors[ip := v];
        return;
      }
      v := visitors[ip];
      v.lastSeen := now;
    }

    // A request as the middleware makes it: find the visitor's limiter and ask it.
    method Serve(ip: string, now: int) returns (ok: bool)
      requires Valid()
      modifies this, Refs()
      ensures Valid() && At(now) == Served(old(At(now)), ip, p)
      ensures [ok] == Verdict(old(At(now)), Request(ip), p)
      ensures visitors.Keys == old(visitors).Keys + {ip}
      ensures forall k :: k in old(visitors) && k != ip ==>
                visitors[k] == old(visitors)[k] && visitors[k].Value() == old(visitors[k].Value())
    {
      var v := GetLimiter(ip, now);
      ok := v.Allow(now, p);
      ghost var want := Served(old(At(now)), ip, p).visitors;
      assert visitors.Keys == want.Keys && v.Value() == want[ip];
      forall k | k in visitors && k != ip ensures visitors[k].Value() == want[k] {
        assert visitors[k] != v;
      }
      assert At(now).visitors == want;
    }

    // One tick of cleanupLoop.
    method CleanupTick(now: int)
      requires Valid()
      modifies this
      ensures Valid() && At(now) == Swept(old(At(now)))
      ensures forall ip :: ip in old(visitors) ==> (ip in visitors <==> now - old(visitors)[ip].lastSeen <= 600000)
      ensures visitors.Keys <= old(visitors).Keys && forall ip :: ip in visitors ==> visitors[ip] == old(visitors)[ip]
    {
      var todo := visitors.Keys;
      while todo != {}
        invariant todo <= old(visitors).Keys && visitors.Keys <= old(visitors).Keys
        invariant forall ip :: ip in visitors ==> visitors[ip] == old(visitors)[ip]
        invariant forall ip :: ip in old(visitors) ==>
                    (ip in visitors <==> ip in todo || now - old(visitors)[ip].lastSeen <= IDLE)
        decreases todo
      {
        var ip :| ip in todo;
        todo := todo - {ip};
        if now - visitors[ip].lastSeen > IDLE {
          visitors := visitors - {ip};
        }
      }
      assert At(now).visitors == Swept(old(At(now))).visitors;
    }
  }
}
