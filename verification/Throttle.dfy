/** The fixed-window login limiter (internal/authapi/throttle.go) and the way the login
    handler drives it (internal/authapi/api.go): check, verify credentials, then note a
    failure or a success, with any number of attempts in flight. */
module Throttle {
  import opened Basics

  type Ip = string
  type Time = int   // nanoseconds on the monotonic clock
  type Tid = nat

  datatype Window = Window(fails: nat, windowAt: Time)

  /** limit and window as given to newLoginThrottle; neither is validated there. */
  datatype Config = Config(limit: int, window: Time)

  type Table = map<Ip, Window>

  predicate Live(c: Config, byIP: Table, ip: Ip, now: Time) {
    ip in byIP && now - byIP[ip].windowAt < c.window
  }

  predicate IsBlocked(c: Config, byIP: Table, ip: Ip, now: Time) {
    Live(c, byIP, ip, now) && byIP[ip].fails >= c.limit
  }

  function AfterCheck(c: Config, byIP: Table, ip: Ip, now: Time): Table {
    if Live(c, byIP, ip, now) then byIP else byIP - {ip}
  }

  /** A window that is opened is stamped by a second, later clock reading. */
  function AfterFailure(c: Config, byIP: Table, ip: Ip, now: Time, stamp: Time): Table {
    if Live(c, byIP, ip, now) then byIP[ip := byIP[ip].(fails := byIP[ip].fails + 1)]
    else byIP[ip := Window(1, stamp)]
  }

  class LoginThrottle {
    var byIP: Table
    const config: Config

    constructor (c: Config)
      ensures byIP == map[] && config == c
    {
      byIP, config := map[], c;
    }

    method Blocked(ip: Ip, now: Time) returns (r: bool)
      modifies this
      ensures r == IsBlocked(config, old(byIP), ip, now)
      ensures byIP == AfterCheck(config, old(byIP), ip, now)
      ensures r <==> ip in old(byIP) && now < old(byIP)[ip].windowAt + config.window && old(byIP)[ip].fails >= config.limit
      ensures byIP == if ip in old(byIP) && now >= old(byIP)[ip].windowAt + config.window then old(byIP) - {ip} else old(byIP)
    {
      if ip !in byIP { return false; }
      if now - byIP[ip].windowAt >= config.window {
        byIP := byIP - {ip};
        return false;
      }
      return byIP[ip].fails >= config.limit;
    }

    method NoteFailure(ip: Ip, now: Time, stamp: Time)
      modifies this
      ensures byIP == AfterFailure(config, old(byIP), ip, now, stamp)
      ensures byIP == old(byIP)[ip := if ip in old(byIP) && now < old(byIP)[ip].windowAt + config.window
                                      then Window(old(byIP)[ip].fails + 1, old(byIP)[ip].windowAt) else Window(1, stamp)]
    {
      if ip !in byIP || now - byIP[ip].windowAt >= config.window {
        byIP := byIP[ip := Window(1, stamp)];
        return;
      }
      byIP := byIP[ip := byIP[ip].(fails := byIP[ip].fails + 1)];
    }

    method NoteSuccess(ip: Ip)
      modifies this
      ensures byIP == old(byIP) - {ip}
    {
      byIP := byIP - {ip};
    }
  }

  // ---------------------------------------------------------------- login attempts

  /** A recorded failure: when, in the window opened when, as which failure of it. */
  datatype Record = Record(at: Time, start: Time, nth: nat)

  /** The limiter, the attempts past the check, and, as history, each address's
      failures since its last successful login and the latest clock reading. */
  datatype State = State(byIP: Table, open: map<Ip, set<Tid>>, log: map<Ip, seq<Record>>, clock: Time)

  datatype Step =
    | Check(ip: Ip, t: Tid, now: Time)
    | Fail(ip: Ip, t: Tid, now: Time, stamp: Time)
    | Succeed(ip: Ip, t: Tid)
    | Abandon(ip: Ip, t: Tid)   // the body does not decode

  function OpenOf(s: State, ip: Ip): set<Tid> {
    if ip in s.open then s.open[ip] else {}
  }

  function LogOf(s: State, ip: Ip): seq<Record> {
    if ip in s.log then s.log[ip] else []
  }

  function EntryOf(byIP: Table, ip: Ip): Option<Window> {
    if ip in byIP then Some(byIP[ip]) else None
  }

  function Recorded(byIP: Table, ip: Ip, now: Time): Record
    requires ip in byIP
  {
    Record(if byIP[ip].fails == 1 then byIP[ip].windowAt else now, byIP[ip].windowAt, byIP[ip].fails)
  }

  function Next(c: Config, s: State, step: Step): State {
    match step
    case Check(ip, t, now) =>
      s.(byIP := AfterCheck(c, s.byIP, ip, now),
         open := s.open[ip := OpenOf(s, ip) + if IsBlocked(c, s.byIP, ip, now) then {} else {t}],
         clock := now)
    case Fail(ip, t, now, stamp) =>
      if t !in OpenOf(s, ip) then s
      else
        var byIP := AfterFailure(c, s.byIP, ip, now, stamp);
        State(byIP, s.open[ip := OpenOf(s, ip) - {t}], s.log[ip := LogOf(s, ip) + [Recorded(byIP, ip, now)]], stamp)
    case Succeed(ip, t) =>
      if t !in OpenOf(s, ip) then s
      else s.(byIP := s.byIP - {ip}, open := s.open[ip := OpenOf(s, ip) - {t}], log := s.log[ip := []])
    case Abandon(ip, t) =>
      s.(open := s.open[ip := OpenOf(s, ip) - {t}])
  }

  function Run(c: Config, start: Time, steps: seq<Step>): State {
    if steps == [] then State(map[], map[], map[], start)
    else Next(c, Run(c, start, steps[..|steps| - 1]), steps[|steps| - 1])
  }

  /** The clock never runs backwards. */
  predicate Ticks(clock: Time, step: Step) {
    match step
    case Check(_, _, now) => clock <= now
    case Fail(_, _, now, stamp) => clock <= now <= stamp
    case _ => true
  }

  /** A run on a monotonic clock in which at most m attempts of ip overlap. */
  ghost predicate Admissible(c: Config, start: Time, steps: seq<Step>, ip: Ip, m: nat) {
    && (forall k :: 0 <= k < |steps| ==> Ticks(Run(c, start, steps[..k]).clock, steps[k]))
    && (forall k :: 0 <= k <= |steps| ==> |OpenOf(Run(c, start, steps[..k]), ip)| <= m)
  }

  /** The most failures one window can record. */
  function Most(c: Config, m: nat): int {
    (if c.limit < 1 then 1 else c.limit) + m - 1
  }

  // ---------------------------------------------------------------- the shape of a log

  predicate LogOk(w: Time, most: int, log: seq<Record>) {
    && (forall i :: 0 <= i < |log| ==> 1 <= log[i].nth <= most && log[i].start <= log[i].at
                                       && (log[i].nth == 1 ==> log[i].at == log[i].start))
    && (forall i :: 0 < i < |log| ==> Follows(w, log[i - 1], log[i]))
  }

  /** The next failure of the same window, or the first of a later one. */
  predicate Follows(w: Time, a: Record, b: Record) {
    && a.at <= b.at
    && if b.nth == 1 then a.start + w <= b.start else b.nth == a.nth + 1 && b.start == a.start
  }

  predicate EntryInv(c: Config, m: nat, entry: Option<Window>, open: set<Tid>, log: seq<Record>, clock: Time) {
    && LogOk(c.window, Most(c, m), log)
    && (log != [] ==> log[|log| - 1].at <= clock)
    && (entry.Some? ==> log != [] && entry.value == Window(log[|log| - 1].nth, log[|log| - 1].start)
                        && entry.value.fails + |open| <= Most(c, m))
    && (entry.None? && log != [] ==> log[|log| - 1].start + c.window <= clock)
  }

  predicate Inv(c: Config, m: nat, s: State, ip: Ip) {
    EntryInv(c, m, EntryOf(s.byIP, ip), OpenOf(s, ip), LogOf(s, ip), s.clock)
  }

  lemma StepKeepsInv(c: Config, m: nat, s: State, step: Step, ip: Ip)
    requires m >= 1 && Inv(c, m, s, ip) && Ticks(s.clock, step)
    requires |OpenOf(s, ip)| <= m && |OpenOf(Next(c, s, step), ip)| <= m
    ensures Inv(c, m, Next(c, s, step), ip)
  {
    hide LogOk;
    if step.ip != ip {
      OthersUntouched(c, s, step, ip);
    } else if step.Fail? && step.t in OpenOf(s, ip) {
      var byIP := AfterFailure(c, s.byIP, ip, step.now, step.stamp);
      LastRecord(c.window, Most(c, m), LogOf(s, ip));
      Extend(c.window, Most(c, m), LogOf(s, ip), Recorded(byIP, ip, step.now));
    } else if step.Succeed? && step.t in OpenOf(s, ip) {
      NoLog(c.window, Most(c, m));
    }
  }

  lemma LastRecord(w: Time, most: int, log: seq<Record>)
    requires LogOk(w, most, log)
    ensures log != [] ==> log[|log| - 1].nth >= 1 && log[|log| - 1].start <= log[|log| - 1].at
  {
  }

  lemma NoLog(w: Time, most: int)
    ensures LogOk(w, most, [])
  {
  }

  lemma Extend(w: Time, most: int, log: seq<Record>, b: Record)
    requires LogOk(w, most, log) && 1 <= b.nth <= most && b.start <= b.at && (b.nth == 1 ==> b.at == b.start)
    requires log != [] ==> Follows(w, log[|log| - 1], b)
    ensures LogOk(w, most, log + [b])
  {
  }

  /** A step on one address leaves every other address's entry, attempts and log alone. */
  lemma OthersUntouched(c: Config, s: State, step: Step, ip: Ip)
    requires step.ip != ip
    ensures var s' := Next(c, s, step);
            EntryOf(s'.byIP, ip) == EntryOf(s.byIP, ip) && OpenOf(s', ip) == OpenOf(s, ip) && LogOf(s', ip) == LogOf(s, ip)
  {
  }

  lemma {:induction false} RunKeepsInv(c: Config, start: Time, steps: seq<Step>, ip: Ip, m: nat)
    requires m >= 1 && Admissible(c, start, steps, ip, m)
    ensures Inv(c, m, Run(c, start, steps), ip)
  {
    if steps != [] {
      hide Inv, Next;
      var n := |steps| - 1;
      var before := steps[..n];
      assert steps[..n + 1] == steps;
      forall k | 0 <= k <= n ensures before[..k] == steps[..k] {}
      RunKeepsInv(c, start, before, ip, m);
      StepKeepsInv(c, m, Run(c, start, before), steps[n], ip);
    } else {
      NoLog(c.window, Most(c, m));
    }
  }

  // ---------------------------------------------------------------- the rate bound

  /** The counter of an address never passes limit + m - 1 when m attempts may overlap;
      attempts one at a time (m = 1) never pass the limit. */
  lemma CountBounded(c: Config, start: Time, steps: seq<Step>, ip: Ip, m: nat)
    requires m >= 1 && Admissible(c, start, steps, ip, m)
    ensures var s := Run(c, start, steps); ip in s.byIP ==> s.byIP[ip].fails <= Most(c, m)
  {
    RunKeepsInv(c, start, steps, ip, m);
  }

  /** The window after the one record i belongs to opens within most - nth + 1 records. */
  lemma {:induction false} NextOpening(w: Time, most: int, log: seq<Record>, i: nat) returns (j: nat)
    requires LogOk(w, most, log) && i < |log| && i + most - log[i].nth + 1 < |log|
    ensures i < j <= i + most - log[i].nth + 1 && j < |log|
    ensures log[j].nth == 1 && log[i].start + w <= log[j].start
    decreases |log| - i
  {
    assert Follows(w, log[i], log[i + 1]);
    if log[i + 1].nth == 1 { j := i + 1; } else { j := NextOpening(w, most, log, i + 1); }
  }

  lemma {:induction false} Ordered(w: Time, most: int, log: seq<Record>, i: nat, j: nat)
    requires LogOk(w, most, log) && i <= j < |log|
    ensures log[i].at <= log[j].at
  {
    if i < j { Ordered(w, most, log, i, j - 1); }
  }

  /** Any 2 * most consecutive failures take at least one window length. */
  lemma Spread(w: Time, most: int, log: seq<Record>, i: nat)
    requires LogOk(w, most, log) && most >= 1 && i + 2 * most - 1 < |log|
    ensures log[i].at + w <= log[i + 2 * most - 1].at
  {
    var j := NextOpening(w, most, log, i);
    Ordered(w, most, log, i, j);
    if log[i].nth == 1 {
      Ordered(w, most, log, j, i + 2 * most - 1);
    } else {
      var k := NextOpening(w, most, log, j);
      Ordered(w, most, log, k, i + 2 * most - 1);
    }
  }

  /** The failures of a log that fall into [a, a + w). */
  ghost function Within(log: seq<Record>, a: Time, w: Time): set<nat> {
    set i: nat | i < |log| && a <= log[i].at < a + w
  }

  lemma {:induction false} RangeSize(lo: nat, n: nat, xs: set<nat>)
    requires forall x :: x in xs ==> lo <= x < lo + n
    ensures |xs| <= n
  {
    if n > 0 { RangeSize(lo, n - 1, xs - {lo + n - 1}); } else { assert xs == {}; }
  }

  lemma WithinBounded(w: Time, most: int, log: seq<Record>, a: Time)
    requires LogOk(w, most, log) && most >= 1
    ensures |Within(log, a, w)| <= 2 * most - 1
  {
    var xs := Within(log, a, w);
    if xs != {} {
      var lo := Least(xs);
      forall x | x in xs ensures lo <= x < lo + (2 * most - 1) {
        if x >= lo + 2 * most - 1 {
          Spread(w, most, log, lo);
          Ordered(w, most, log, lo + 2 * most - 1, x);
        }
      }
      RangeSize(lo, 2 * most - 1, xs);
    }
  }

  lemma {:induction false} Least(xs: set<nat>) returns (lo: nat)
    requires xs != {}
    ensures lo in xs && forall x :: x in xs ==> lo <= x
  {
    var y :| y in xs;
    if xs == {y} {
      lo := y;
    } else {
      var z := Least(xs - {y});
      lo := if y < z then y else z;
      forall x | x in xs ensures lo <= x { assert x == y || x in xs - {y}; }
    }
  }

  /** The rate bound: in every half-open interval of one window length an address
      records at most 2 * (limit + m - 1) - 1 failures since its last success; 2 * limit - 1
      when its attempts do not overlap. */
  lemma RateBound(c: Config, start: Time, steps: seq<Step>, ip: Ip, m: nat, a: Time)
    requires m >= 1 && Admissible(c, start, steps, ip, m)
    ensures |Within(LogOf(Run(c, start, steps), ip), a, c.window)| <= 2 * Most(c, m) - 1
  {
    RunKeepsInv(c, start, steps, ip, m);
    WithinBounded(c.window, Most(c, m), LogOf(Run(c, start, steps), ip), a);
  }

  /** A success wipes the slate: the entry is gone, and the next check passes. */
  lemma SuccessClears(c: Config, s: State, ip: Ip, t: Tid, u: Tid, now: Time)
    requires t in OpenOf(s, ip)
    ensures var s' := Next(c, s, Succeed(ip, t));
            && ip !in s'.byIP && s'.byIP == s.byIP - {ip} && OpenOf(s', ip) == OpenOf(s, ip) - {t}
            && u in OpenOf(Next(c, s', Check(ip, u, now)), ip)
  {
  }

  /** An attempt whose body does not decode is over, and not counted. */
  lemma AbandonCloses(c: Config, s: State, ip: Ip, t: Tid)
    ensures var s' := Next(c, s, Abandon(ip, t));
            OpenOf(s', ip) == OpenOf(s, ip) - {t} && s'.byIP == s.byIP && s'.log == s.log
  {
  }

  // ---------------------------------------------------------------- non-interference

  function Only(steps: seq<Step>, ip: Ip): seq<Step> {
    if steps == [] then []
    else
      var n := |steps| - 1;
      Only(steps[..n], ip) + if steps[n].ip == ip then [steps[n]] else []
  }

  predicate SameFor(ip: Ip, a: State, b: State) {
    EntryOf(a.byIP, ip) == EntryOf(b.byIP, ip) && OpenOf(a, ip) == OpenOf(b, ip) && LogOf(a, ip) == LogOf(b, ip)
  }

  lemma StepSame(c: Config, a: State, b: State, step: Step, ip: Ip)
    requires SameFor(ip, a, b) && step.ip == ip
    ensures SameFor(ip, Next(c, a, step), Next(c, b, step))
  {
  }

  /** What happens to one address is what would happen if no other address existed. */
  lemma {:induction false} OtherAddressesIrrelevant(c: Config, start: Time, steps: seq<Step>, ip: Ip)
    ensures SameFor(ip, Run(c, start, steps), Run(c, start, Only(steps, ip)))
  {
    if steps != [] {
      hide Next;
      var n := |steps| - 1;
      OtherAddressesIrrelevant(c, start, steps[..n], ip);
      var s := Run(c, start, steps[..n]);
      if steps[n].ip == ip {
        var only := Only(steps[..n], ip);
        assert (only + [steps[n]])[..|only|] == only;
        StepSame(c, s, Run(c, start, only), steps[n], ip);
      } else {
        assert Only(steps, ip) == Only(steps[..n], ip);
        OthersUntouched(c, s, steps[n], ip);
      }
    }
  }

  // ---------------------------------------------------------------- the bounds are met

  /** Admissible runs grow one step at a time. */
  lemma Grow(c: Config, steps: seq<Step>, step: Step, ip: Ip, m: nat)
    requires Admissible(c, 0, steps, ip, m) && Ticks(Run(c, 0, steps).clock, step)
    requires |OpenOf(Next(c, Run(c, 0, steps), step), ip)| <= m
    ensures Admissible(c, 0, steps + [step], ip, m)
    ensures Run(c, 0, steps + [step]) == Next(c, Run(c, 0, steps), step)
  {
    hide Next, Ticks;
    var all := steps + [step];
    assert all[..|steps|] == steps && all[..|all|] == all;
    forall k | 0 <= k <= |steps| ensures all[..k] == steps[..k] {}
    assert steps[..|steps|] == steps;
  }

  /** What an admissible run, with at most m overlapping attempts, has led to for one address:
      the attempts past the check, the entry, the times of the failures, the clock. */
  datatype Mark = Mark(open: set<Tid>, entry: Option<Window>, fails: seq<Time>, clock: Time)

  ghost predicate Leads(c: Config, steps: seq<Step>, ip: Ip, m: nat, k: Mark) {
    && Admissible(c, 0, steps, ip, m)
    && var s := Run(c, 0, steps);
    && OpenOf(s, ip) == k.open && EntryOf(s.byIP, ip) == k.entry && s.clock == k.clock
    && |LogOf(s, ip)| == |k.fails| && forall i :: 0 <= i < |k.fails| ==> LogOf(s, ip)[i].at == k.fails[i]
  }

  predicate LiveAt(c: Config, w: Option<Window>, now: Time) {
    w.Some? && now - w.value.windowAt < c.window
  }

  function CheckMark(c: Config, k: Mark, t: Tid, now: Time): Mark {
    Mark(k.open + {t}, if LiveAt(c, k.entry, now) then k.entry else None, k.fails, now)
  }

  lemma Checks(c: Config, steps: seq<Step>, ip: Ip, m: nat, k: Mark, t: Tid, now: Time)
    requires Leads(c, steps, ip, m, k) && k.clock <= now && |k.open + {t}| <= m
    requires LiveAt(c, k.entry, now) ==> k.entry.value.fails < c.limit
    ensures Leads(c, steps + [Check(ip, t, now)], ip, m, CheckMark(c, k, t, now))
  {
    hide Admissible, Run;
    Grow(c, steps, Check(ip, t, now), ip, m);
  }

  function FailMark(c: Config, k: Mark, t: Tid, now: Time): Mark {
    Mark(k.open - {t},
         Some(if LiveAt(c, k.entry, now) then Window(k.entry.value.fails + 1, k.entry.value.windowAt) else Window(1, now)),
         k.fails + [now], now)
  }

  lemma Fails(c: Config, steps: seq<Step>, ip: Ip, m: nat, k: Mark, t: Tid, now: Time)
    requires Leads(c, steps, ip, m, k) && k.clock <= now && t in k.open
    requires LiveAt(c, k.entry, now) ==> k.entry.value.fails >= 1
    ensures Leads(c, steps + [Fail(ip, t, now, now)], ip, m, FailMark(c, k, t, now))
  {
    hide Admissible, Run;
    var s := Run(c, 0, steps);
    assert |k.open| <= m by { WithinOverlap(c, steps, ip, m); }
    assert |k.open - {t}| <= |k.open|;
    Grow(c, steps, Fail(ip, t, now, now), ip, m);
  }

  lemma WithinOverlap(c: Config, steps: seq<Step>, ip: Ip, m: nat)
    requires Admissible(c, 0, steps, ip, m)
    ensures |OpenOf(Run(c, 0, steps), ip)| <= m
  {
    hide Next;
    assert steps[..|steps|] == steps;
  }

  /** Attempt numbers lo up to hi - 1. */
  function Ids(lo: nat, hi: nat): (ids: set<Tid>)
    ensures forall t :: t in ids <==> lo <= t < hi
  {
    if lo >= hi then {} else Ids(lo, hi - 1) + {hi - 1}
  }

  lemma {:induction false} IdsSize(lo: nat, hi: nat)
    requires lo <= hi
    ensures |Ids(lo, hi)| == hi - lo
  {
    if lo < hi {
      IdsSize(lo, hi - 1);
      assert Ids(lo, hi) == Ids(lo, hi - 1) + {hi - 1};
    } else {
      assert Ids(lo, hi) == {};
    }
  }

  function Copies(n: nat, t: Time): seq<Time> {
    seq(n, _ => t)
  }

  /** n attempts pass the check before any of them fails. */
  lemma {:induction false} OpenUp(c: Config, steps: seq<Step>, ip: Ip, m: nat, k: Mark, n: nat, now: Time)
    returns (longer: seq<Step>)
    requires Leads(c, steps, ip, m, k) && k.open == {} && k.clock <= now && !LiveAt(c, k.entry, now) && 1 <= n <= m
    ensures Leads(c, longer, ip, m, Mark(Ids(0, n), None, k.fails, now))
  {
    hide Leads;
    IdsSize(0, n);
    if n == 1 {
      assert k.open + {0} == Ids(0, 1);
      Checks(c, steps, ip, m, k, 0, now);
      longer := steps + [Check(ip, 0, now)];
    } else {
      var before := OpenUp(c, steps, ip, m, k, n - 1, now);
      assert Ids(0, n - 1) + {n - 1} == Ids(0, n);
      Checks(c, before, ip, m, Mark(Ids(0, n - 1), None, k.fails, now), n - 1, now);
      longer := before + [Check(ip, n - 1, now)];
    }
  }

  /** n attempts one after the other, while others stay open and the window has room. */
  lemma {:induction false} Serial(c: Config, steps: seq<Step>, ip: Ip, m: nat, k: Mark, n: nat, now: Time)
    returns (longer: seq<Step>)
    requires Leads(c, steps, ip, m, k) && 0 !in k.open && |k.open| < m && k.clock <= now
    requires LiveAt(c, k.entry, now) && k.entry.value.fails >= 1 && (n > 0 ==> k.entry.value.fails + n <= c.limit)
    ensures Leads(c, longer, ip, m, Mark(k.open, Some(Window(k.entry.value.fails + n, k.entry.value.windowAt)),
                                         k.fails + Copies(n, now), if n == 0 then k.clock else now))
    decreases n
  {
    hide Leads;
    if n == 0 {
      longer := steps;
      assert k.fails + Copies(0, now) == k.fails;
      assert k == Mark(k.open, Some(Window(k.entry.value.fails, k.entry.value.windowAt)), k.fails, k.clock);
    } else {
      Checks(c, steps, ip, m, k, 0, now);
      var k1 := CheckMark(c, k, 0, now);
      Fails(c, steps + [Check(ip, 0, now)], ip, m, k1, 0, now);
      var k2 := FailMark(c, k1, 0, now);
      assert k2.open == k.open;
      longer := Serial(c, steps + [Check(ip, 0, now)] + [Fail(ip, 0, now, now)], ip, m, k2, n - 1, now);
      assert k.fails + [now] + Copies(n - 1, now) == k.fails + Copies(n, now);
    }
  }

  /** The attempts 1..n still open all fail, whatever the count. */
  lemma {:induction false} FailAll(c: Config, steps: seq<Step>, ip: Ip, m: nat, k: Mark, n: nat, now: Time)
    returns (longer: seq<Step>)
    requires Leads(c, steps, ip, m, k) && k.open == Ids(1, n + 1) && k.clock <= now
    requires LiveAt(c, k.entry, now) && k.entry.value.fails >= 1
    ensures Leads(c, longer, ip, m, Mark({}, Some(Window(k.entry.value.fails + n, k.entry.value.windowAt)),
                                         k.fails + Copies(n, now), if n == 0 then k.clock else now))
    decreases n
  {
    hide Leads;
    if n == 0 {
      longer := steps;
      assert k.fails + Copies(0, now) == k.fails && Ids(1, 1) == {};
      assert k == Mark({}, Some(Window(k.entry.value.fails, k.entry.value.windowAt)), k.fails, k.clock);
    } else {
      Fails(c, steps, ip, m, k, n, now);
      var k1 := FailMark(c, k, n, now);
      assert k1.open == Ids(1, n);
      longer := FailAll(c, steps + [Fail(ip, n, now, now)], ip, m, k1, n - 1, now);
      assert k.fails + [now] + Copies(n - 1, now) == k.fails + Copies(n, now);
    }
  }

  /** A fresh window filled to the brim: the first failure at `first`, the others at `rest`. */
  lemma Fill(c: Config, steps: seq<Step>, ip: Ip, m: nat, k: Mark, first: Time, rest: Time) returns (longer: seq<Step>, last: Time)
    requires Leads(c, steps, ip, m, k) && k.open == {} && k.clock <= first && !LiveAt(c, k.entry, first) && m >= 1
    requires first <= rest < first + c.window
    ensures last <= rest
    ensures Leads(c, longer, ip, m, Mark({}, Some(Window(Most(c, m), first)), k.fails + [first] + Copies(Most(c, m) - 1, rest), last))
  {
    hide Leads, Ids, Copies;
    var a := OpenUp(c, steps, ip, m, k, m, first);
    var k1 := Mark(Ids(0, m), None, k.fails, first);
    Fails(c, a, ip, m, k1, 0, first);
    var k2 := FailMark(c, k1, 0, first);
    IdsTail(m);
    assert k2 == Mark(Ids(1, m), Some(Window(1, first)), k.fails + [first], first);
    IdsSize(1, m);
    var n := Most(c, m) - m;
    var b := Serial(c, a + [Fail(ip, 0, first, first)], ip, m, k2, n, rest);
    var k3 := Mark(Ids(1, m), Some(Window(1 + n, first)), k2.fails + Copies(n, rest), if n == 0 then first else rest);
    longer := FailAll(c, b, ip, m, k3, m - 1, rest);
    last := if m - 1 == 0 then k3.clock else rest;
    CopiesJoin(k2.fails, n, m - 1, rest);
  }

  lemma IdsTail(m: nat)
    requires m >= 1
    ensures 0 in Ids(0, m) && 0 !in Ids(1, m) && Ids(0, m) - {0} == Ids(1, m)
  {
  }

  lemma CopiesJoin(s: seq<Time>, a: nat, b: nat, t: Time)
    ensures s + Copies(a, t) + Copies(b, t) == s + Copies(a + b, t)
  {
  }

  lemma Nothing(c: Config, ip: Ip, m: nat)
    ensures Leads(c, [], ip, m, Mark({}, None, [], 0))
  {
  }

  /** The bound on the counter is met for every limit and every degree of overlap: m attempts
      that overlap bring it to limit + m - 1, so past a positive limit whenever m >= 2. */
  lemma CountBoundTight(c: Config, ip: Ip, m: nat) returns (steps: seq<Step>)
    requires m >= 1 && c.window >= 1
    ensures Admissible(c, 0, steps, ip, m)
    ensures var s := Run(c, 0, steps); ip in s.byIP && s.byIP[ip].fails == Most(c, m)
  {
    hide Admissible, Run;
    Nothing(c, ip, m);
    var last;
    steps, last := Fill(c, [], ip, m, Mark({}, None, [], 0), 0, 0);
  }

  ghost predicate WithinLimit(c: Config, start: Time, steps: seq<Step>, ip: Ip) {
    ip in Run(c, start, steps).byIP ==> Run(c, start, steps).byIP[ip].fails <= c.limit
  }

  /** A positive limit is never passed if and only if attempts of an address do not overlap. */
  lemma LimitHoldsIff(c: Config, ip: Ip, m: nat)
    requires m >= 1 && c.limit >= 1 && c.window >= 1
    ensures (forall start, steps :: Admissible(c, start, steps, ip, m) ==> WithinLimit(c, start, steps, ip)) <==> m == 1
  {
    hide Admissible, Run;
    if m == 1 {
      forall start, steps | Admissible(c, start, steps, ip, m) ensures WithinLimit(c, start, steps, ip) {
        CountBounded(c, start, steps, ip, m);
      }
    } else {
      var steps := CountBoundTight(c, ip, m);
      assert !WithinLimit(c, 0, steps, ip);
    }
  }

  /** The rate bound cannot be improved either: for every limit, every degree m of overlap and
      every window of at least two ticks some run records 2 * (limit + m - 1) - 1 failures
      within one window length. */
  lemma RateBoundTight(c: Config, ip: Ip, m: nat) returns (steps: seq<Step>)
    requires m >= 1 && c.window >= 2
    ensures Admissible(c, 0, steps, ip, m)
    ensures |Within(LogOf(Run(c, 0, steps), ip), 1, c.window)| == 2 * Most(c, m) - 1
  {
    hide Admissible, Run;
    Nothing(c, ip, m);
    var w, most := c.window, Most(c, m);
    var a, last := Fill(c, [], ip, m, Mark({}, None, [], 0), 0, w - 1);
    var early := [] + [0] + Copies(most - 1, w - 1);
    steps, last := Fill(c, a, ip, m, Mark({}, Some(Window(most, 0)), early, last), w, w);
    var fails := early + [w] + Copies(most - 1, w);
    assert forall i :: 0 <= i < |fails| ==> fails[i] == if i == 0 then 0 else if i < most then w - 1 else w;
    TightLog(w, most, LogOf(Run(c, 0, steps), ip));
  }

  lemma TightLog(w: Time, most: int, log: seq<Record>)
    requires most >= 1 && w >= 2 && |log| == 2 * most
    requires forall i :: 0 <= i < |log| ==> log[i].at == if i == 0 then 0 else if i < most then w - 1 else w
    ensures |Within(log, 1, w)| == 2 * most - 1
  {
    IdsSize(1, 2 * most);
    assert Within(log, 1, w) == Ids(1, 2 * most);
  }
}
