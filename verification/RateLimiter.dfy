/** The rate limiter of a channel: two counters that callers read, check and increment in separate atomic steps. */
module RateLimiter {

  // Clock readings are in nanoseconds.
  const MINUTE := 60_000_000_000
  const HOUR := 3_600_000_000_000

  datatype Config = Config(perMinute: nat, perHour: nat)

  /** The counters and when their windows began. */
  datatype Counters = Counters(minute: nat, hour: nat, minuteReset: int, hourReset: int)

  function ResetMinute(c: Counters, now: int): Counters {
    if now - c.minuteReset >= MINUTE then c.(minute := 0, minuteReset := now) else c
  }

  function ResetHour(c: Counters, now: int): Counters {
    if now - c.hourReset >= HOUR then c.(hour := 0, hourReset := now) else c
  }

  /** A whole call that nothing interrupts: the counters after it, and whether it was allowed. */
  function Checked(cfg: Config, c: Counters, now: int): (Counters, bool) {
    var c := ResetHour(ResetMinute(c, now), now);
    if c.minute >= cfg.perMinute || c.hour >= cfg.perHour then (c, false)
    else (c.(minute := c.minute + 1, hour := c.hour + 1), true)
  }

  class RateLimiter {
    const config: Config
    var minuteCount: nat
    var hourCount: nat
    var lastMinuteReset: int
    var lastHourReset: int

    ghost function View(): Counters
      reads this
    {
      Counters(minuteCount, hourCount, lastMinuteReset, lastHourReset)
    }

    constructor (config: Config, now: int)
      ensures this.config == config && View() == Counters(0, 0, now, now)
    {
      this.config := config;
      minuteCount, hourCount, lastMinuteReset, lastHourReset := 0, 0, now, now;
    }

    method CheckAndIncrement(now: int) returns (allowed: bool)
      modifies this
      ensures (View(), allowed) == Checked(config, old(View()), now)
      ensures old(minuteCount) <= config.perMinute ==> minuteCount <= config.perMinute
      ensures old(hourCount) <= config.perHour ==> hourCount <= config.perHour
    {
      if now - lastMinuteReset >= MINUTE {
        minuteCount, lastMinuteReset := 0, now;
      }
      if now - lastHourReset >= HOUR {
        hourCount, lastHourReset := 0, now;
      }
      var minute, hour := minuteCount, hourCount;
      if minute >= config.perMinute || hour >= config.perHour {
        return false;
      }
      minuteCount := minuteCount + 1;
      hourCount := hourCount + 1;
      return true;
    }
  }

  // ---- concurrent callers ----

  /** Where a caller is between two of its steps, and what it has read. */
  datatype Caller =
    | Idle
    | Began(now: int)
    | MinuteDone(now: int)
    | HourDone
    | ReadMinute(minute: nat)
    | ReadBoth(minute: nat, hour: nat)
    | Admitted
    | Counted

  datatype State = State(counters: Counters, callers: seq<Caller>)

  function Start(k: nat, now: int): State {
    State(Counters(0, 0, now, now), seq(k, _ => Idle))
  }

  /** One atomic step of caller i; a caller that is idle begins a call at the clock reading `now`. */
  function Step(cfg: Config, s: State, i: nat, now: int): State
    requires i < |s.callers|
  {
    var c := s.counters;
    match s.callers[i]
    case Idle => s.(callers := s.callers[i := Began(now)])
    case Began(t) => State(ResetMinute(c, t), s.callers[i := MinuteDone(t)])
    case MinuteDone(t) => State(ResetHour(c, t), s.callers[i := HourDone])
    case HourDone => s.(callers := s.callers[i := ReadMinute(c.minute)])
    case ReadMinute(m) => s.(callers := s.callers[i := ReadBoth(m, c.hour)])
    case ReadBoth(m, h) =>
      s.(callers := s.callers[i := if m >= cfg.perMinute || h >= cfg.perHour then Idle else Admitted])
    case Admitted => State(c.(minute := c.minute + 1), s.callers[i := Counted])
    case Counted => State(c.(hour := c.hour + 1), s.callers[i := Idle])
  }

  /** A schedule says which caller moves next, and what the clock reads. */
  type Schedule = seq<(nat, int)>

  function RunFrom(cfg: Config, s: State, schedule: Schedule): State
    requires forall j :: 0 <= j < |schedule| ==> schedule[j].0 < |s.callers|
    decreases |schedule|
  {
    if schedule == [] then s else RunFrom(cfg, Step(cfg, s, schedule[0].0, schedule[0].1), schedule[1..])
  }

  ghost predicate ForCallers(schedule: Schedule, k: nat) {
    forall j :: 0 <= j < |schedule| ==> schedule[j].0 < k
  }

  /** Callers that have seen room in the minute (hour) window and not yet counted themselves there. */
  predicate PendingMinute(cfg: Config, c: Caller) {
    match c
    case ReadMinute(m) => m < cfg.perMinute
    case ReadBoth(m, _) => m < cfg.perMinute
    case Admitted => true
    case _ => false
  }

  predicate PendingHour(cfg: Config, c: Caller) {
    match c
    case ReadBoth(_, h) => h < cfg.perHour
    case Admitted => true
    case Counted => true
    case _ => false
  }

  function Pending(cfg: Config, callers: seq<Caller>, hour: bool): nat {
    if callers == [] then 0
    else
      Pending(cfg, callers[1..], hour)
      + if (if hour then PendingHour(cfg, callers[0]) else PendingMinute(cfg, callers[0])) then 1 else 0
  }

  lemma {:induction false} PendingOfUpdate(cfg: Config, callers: seq<Caller>, hour: bool, i: nat, c: Caller)
    requires i < |callers|
    ensures Pending(cfg, callers[i := c], hour)
         == Pending(cfg, callers, hour)
            - Pending(cfg, [callers[i]], hour) + Pending(cfg, [c], hour)
    ensures Pending(cfg, [c], hour) <= 1
  {
    if i == 0 {
      assert callers[0 := c][1..] == callers[1..];
    } else {
      PendingOfUpdate(cfg, callers[1..], hour, i - 1, c);
      assert callers[i := c][1..] == callers[1..][i - 1 := c];
    }
  }

  lemma {:induction false} PendingIsBounded(cfg: Config, callers: seq<Caller>, hour: bool)
    ensures Pending(cfg, callers, hour) <= |callers|
  {
    if callers != [] {
      PendingIsBounded(cfg, callers[1..], hour);
    }
  }

  /** How far a counter can get with k callers. */
  function Reach(limit: nat, k: nat): nat {
    if limit == 0 || k == 0 then 0 else limit + k - 1
  }

  ghost predicate Within(cfg: Config, s: State) {
    && s.counters.minute + Pending(cfg, s.callers, false) <= Reach(cfg.perMinute, |s.callers|)
    && s.counters.hour + Pending(cfg, s.callers, true) <= Reach(cfg.perHour, |s.callers|)
    && forall i :: 0 <= i < |s.callers| ==> CallerOk(cfg, s.callers[i])
  }

  /** A caller that counts itself found room in both windows. */
  predicate CallerOk(cfg: Config, c: Caller) {
    c.Admitted? || c.Counted? ==> cfg.perMinute > 0 && cfg.perHour > 0
  }

  lemma StepStaysWithin(cfg: Config, s: State, i: nat, now: int)
    requires i < |s.callers| && Within(cfg, s)
    ensures Within(cfg, Step(cfg, s, i, now))
  {
    var s' := Step(cfg, s, i, now);
    var c' := s'.callers[i];
    assert s'.callers == s.callers[i := c'];
    assert CallerOk(cfg, s.callers[i]);
    PendingOfUpdate(cfg, s.callers, false, i, c');
    PendingOfUpdate(cfg, s.callers, true, i, c');
    PendingIsBounded(cfg, s'.callers, false);
    PendingIsBounded(cfg, s'.callers, true);
    OnePending(cfg, s.callers[i]);
    OnePending(cfg, c');
    hide Pending;
  }

  lemma OnePending(cfg: Config, c: Caller)
    ensures Pending(cfg, [c], false) == if PendingMinute(cfg, c) then 1 else 0
    ensures Pending(cfg, [c], true) == if PendingHour(cfg, c) then 1 else 0
  {
    assert [c][1..] == [];
  }

  lemma {:induction false} RunStaysWithin(cfg: Config, s: State, schedule: Schedule)
    requires ForCallers(schedule, |s.callers|) && Within(cfg, s)
    ensures Within(cfg, RunFrom(cfg, s, schedule)) && |RunFrom(cfg, s, schedule).callers| == |s.callers|
    decreases |schedule|
  {
    if schedule != [] {
      StepStaysWithin(cfg, s, schedule[0].0, schedule[0].1);
      hide Within;
      RunStaysWithin(cfg, Step(cfg, s, schedule[0].0, schedule[0].1), schedule[1..]);
    }
  }

  lemma {:induction false} NoOnePending(cfg: Config, callers: seq<Caller>, hour: bool)
    requires forall i :: 0 <= i < |callers| ==> callers[i] == Idle
    ensures Pending(cfg, callers, hour) == 0
  {
    if callers != [] {
      NoOnePending(cfg, callers[1..], hour);
    }
  }

  /** However k callers interleave, and whenever windows restart, no count exceeds its limit by more than k - 1; with
      one caller none exceeds it, and where nothing is allowed nothing is counted. */
  lemma CountsStayWithin(cfg: Config, k: nat, start: int, schedule: Schedule)
    requires ForCallers(schedule, k)
    ensures var c := RunFrom(cfg, Start(k, start), schedule).counters;
            c.minute <= Reach(cfg.perMinute, k) && c.hour <= Reach(cfg.perHour, k)
  {
    NoOnePending(cfg, Start(k, start).callers, false);
    NoOnePending(cfg, Start(k, start).callers, true);
    RunStaysWithin(cfg, Start(k, start), schedule);
  }

  // ---- uninterrupted calls, and the bound reached ----

  lemma {:induction false} RunOfConcat(cfg: Config, s: State, a: Schedule, b: Schedule)
    requires ForCallers(a, |s.callers|) && ForCallers(b, |s.callers|)
    ensures ForCallers(a + b, |s.callers|) && |RunFrom(cfg, s, a).callers| == |s.callers|
    ensures RunFrom(cfg, s, a + b) == RunFrom(cfg, RunFrom(cfg, s, a), b)
    decreases |a|
  {
    if a == [] {
      assert a + b == b;
    } else {
      assert (a + b)[1..] == a[1..] + b;
      RunOfConcat(cfg, Step(cfg, s, a[0].0, a[0].1), a[1..], b);
    }
  }

  function Repeat(i: nat, now: int, n: nat): (r: Schedule)
    ensures forall j :: 0 <= j < |r| ==> r[j].0 == i
  {
    if n == 0 then [] else [(i, now)] + Repeat(i, now, n - 1)
  }

  lemma {:induction false} RepeatOnce(cfg: Config, s: State, i: nat, now: int, n: nat)
    requires i < |s.callers| && n > 0
    ensures RunFrom(cfg, s, Repeat(i, now, n)) == RunFrom(cfg, Step(cfg, s, i, now), Repeat(i, now, n - 1))
  {
    assert Repeat(i, now, n)[1..] == Repeat(i, now, n - 1);
  }

  /** Six steps take an idle caller to its verdict. */
  lemma SixSteps(cfg: Config, s: State, i: nat, now: int)
    requires i < |s.callers| && s.callers[i] == Idle
    ensures RunFrom(cfg, s, Repeat(i, now, 6)) == State(
              ResetHour(ResetMinute(s.counters, now), now),
              s.callers[i := if Checked(cfg, s.counters, now).1 then Admitted else Idle])
  {
    var s1 := Step(cfg, s, i, now);
    var s2 := Step(cfg, s1, i, now);
    var s3 := Step(cfg, s2, i, now);
    var s4 := Step(cfg, s3, i, now);
    var s5 := Step(cfg, s4, i, now);
    var s6 := Step(cfg, s5, i, now);
    RepeatOnce(cfg, s, i, now, 6);
    RepeatOnce(cfg, s1, i, now, 5);
    RepeatOnce(cfg, s2, i, now, 4);
    RepeatOnce(cfg, s3, i, now, 3);
    RepeatOnce(cfg, s4, i, now, 2);
    RepeatOnce(cfg, s5, i, now, 1);
    assert RunFrom(cfg, s6, Repeat(i, now, 0)) == s6;
    hide RunFrom, Repeat;
    var c := ResetHour(ResetMinute(s.counters, now), now);
    assert s5.counters == c && s5.callers == s.callers[i := ReadBoth(c.minute, c.hour)];
  }

  lemma TwoSteps(cfg: Config, s: State, i: nat, now: int)
    requires i < |s.callers| && s.callers[i] == Admitted
    ensures RunFrom(cfg, s, Repeat(i, now, 2))
         == State(s.counters.(minute := s.counters.minute + 1, hour := s.counters.hour + 1), s.callers[i := Idle])
  {
    var s1 := Step(cfg, s, i, now);
    RepeatOnce(cfg, s, i, now, 2);
    RepeatOnce(cfg, s1, i, now, 1);
    assert RunFrom(cfg, Step(cfg, s1, i, now), Repeat(i, now, 0)) == Step(cfg, s1, i, now);
    assert s1.callers[i := Idle] == s.callers[i := Idle];
  }

  /** The steps of an uninterrupted call make up the sequential method. */
  lemma UninterruptedCall(cfg: Config, s: State, i: nat, now: int)
    requires i < |s.callers| && s.callers[i] == Idle
    ensures var (after, allowed) := Checked(cfg, s.counters, now);
            RunFrom(cfg, s, Repeat(i, now, if allowed then 8 else 6)) == s.(counters := after)
  {
    SixSteps(cfg, s, i, now);
    var c := ResetHour(ResetMinute(s.counters, now), now);
    assert s.callers[i := Idle] == s.callers;
    if !(c.minute >= cfg.perMinute || c.hour >= cfg.perHour) {
      var t := RunFrom(cfg, s, Repeat(i, now, 6));
      TwoSteps(cfg, t, i, now);
      RepeatSplits(i, now, 6, 2);
      RunOfConcat(cfg, s, Repeat(i, now, 6), Repeat(i, now, 2));
      assert t.callers[i := Idle] == s.callers;
    }
  }

  lemma {:induction false} RepeatSplits(i: nat, now: int, m: nat, n: nat)
    ensures Repeat(i, now, m + n) == Repeat(i, now, m) + Repeat(i, now, n)
  {
    if m > 0 {
      RepeatSplits(i, now, m - 1, n);
    } else {
      assert Repeat(i, now, 0) + Repeat(i, now, n) == Repeat(i, now, n);
    }
  }

  /** Which counters q full minutes and r calls in the next one leave, all in the first hour. */
  function Spread(cfg: Config, q: nat, r: nat): Counters {
    if r == 0 && q > 0 then Counters(cfg.perMinute, q * cfg.perMinute, (q - 1) * MINUTE, 0)
    else Counters(r, q * cfg.perMinute + r, q * MINUTE, 0)
  }

  function Refreshed(c: Counters, now: int): Counters {
    ResetHour(ResetMinute(c, now), now)
  }

  /** Looking at the clock in minute q leaves room for a call. */
  lemma SpreadIsFresh(cfg: Config, q: nat, r: nat)
    requires q < 60
    ensures Refreshed(Spread(cfg, q, r), q * MINUTE) == Counters(r, q * cfg.perMinute + r, q * MINUTE, 0)
  {
  }

  lemma OneMoreCall(cfg: Config, q: nat, r: nat)
    requires q < 60 && r < cfg.perMinute && q * cfg.perMinute + r < cfg.perHour
    ensures Checked(cfg, Spread(cfg, q, r), q * MINUTE)
         == (if r + 1 < cfg.perMinute then Spread(cfg, q, r + 1) else Spread(cfg, q + 1, 0), true)
  {
    SpreadIsFresh(cfg, q, r);
    assert (q + 1) * cfg.perMinute == q * cfg.perMinute + cfg.perMinute;
  }

  /** Calls of caller 0 that fill q minutes, and r more. */
  lemma {:induction false} SoloCalls(cfg: Config, k: nat, q: nat, r: nat) returns (a: Schedule)
    requires k > 0 && q < 60 && r < cfg.perMinute && q * cfg.perMinute + r <= cfg.perHour
    ensures ForCallers(a, k)
    ensures RunFrom(cfg, Start(k, 0), a) == State(Spread(cfg, q, r), Start(k, 0).callers)
    decreases q, r
  {
    if q == 0 && r == 0 {
      a := [];
    } else {
      var q', r' := if r > 0 then q else q - 1, if r > 0 then r - 1 else cfg.perMinute - 1;
      assert q > 0 ==> q * cfg.perMinute == (q - 1) * cfg.perMinute + cfg.perMinute;
      var b := SoloCalls(cfg, k, q', r');
      OneMoreCall(cfg, q', r');
      var s := RunFrom(cfg, Start(k, 0), b);
      UninterruptedCall(cfg, s, 0, q' * MINUTE);
      RunOfConcat(cfg, Start(k, 0), b, Repeat(0, q' * MINUTE, 8));
      a := b + Repeat(0, q' * MINUTE, 8);
    }
  }

  /** Callers 0 to n - 1 are admitted, the others idle. */
  function Waiting(k: nat, n: nat): (r: seq<Caller>)
    ensures |r| == k
  {
    seq(k, i => if i < n then Admitted else Idle)
  }

  /** n callers see the same room before any of them counts itself. */
  lemma {:induction false} AllAdmitted(cfg: Config, c: Counters, now: int, k: nat, n: nat) returns (a: Schedule)
    requires n <= k && Refreshed(c, now).minute < cfg.perMinute && Refreshed(c, now).hour < cfg.perHour
    ensures ForCallers(a, k)
    ensures RunFrom(cfg, State(c, Waiting(k, 0)), a) == State(if n == 0 then c else Refreshed(c, now), Waiting(k, n))
  {
    if n == 0 {
      a := [];
    } else {
      var b := AllAdmitted(cfg, c, now, k, n - 1);
      var s := RunFrom(cfg, State(c, Waiting(k, 0)), b);
      SixSteps(cfg, s, n - 1, now);
      RunOfConcat(cfg, State(c, Waiting(k, 0)), b, Repeat(n - 1, now, 6));
      assert Waiting(k, n - 1)[n - 1 := Admitted] == Waiting(k, n);
      a := b + Repeat(n - 1, now, 6);
    }
  }

  lemma {:induction false} AllCount(cfg: Config, c: Counters, k: nat, n: nat) returns (a: Schedule)
    requires n <= k
    ensures ForCallers(a, k)
    ensures RunFrom(cfg, State(c, Waiting(k, n)), a)
         == State(c.(minute := c.minute + n, hour := c.hour + n), Waiting(k, 0))
    decreases n
  {
    if n == 0 {
      a := [];
    } else {
      var s := State(c, Waiting(k, n));
      TwoSteps(cfg, s, n - 1, 0);
      assert Waiting(k, n)[n - 1 := Idle] == Waiting(k, n - 1);
      var c' := c.(minute := c.minute + 1, hour := c.hour + 1);
      var b := AllCount(cfg, c', k, n - 1);
      RunOfConcat(cfg, s, Repeat(n - 1, 0, 2), b);
      a := Repeat(n - 1, 0, 2) + b;
    }
  }

  /** All callers at once pass the check in minute q, after calls that filled q minutes and r more. */
  lemma CrowdAfter(cfg: Config, k: nat, q: nat, r: nat) returns (schedule: Schedule)
    requires k > 0 && q < 60 && r < cfg.perMinute && q * cfg.perMinute + r < cfg.perHour
    ensures ForCallers(schedule, k)
    ensures RunFrom(cfg, Start(k, 0), schedule).counters
         == Counters(r + k, q * cfg.perMinute + r + k, q * MINUTE, 0)
  {
    var c, now := Spread(cfg, q, r), q * MINUTE;
    SpreadIsFresh(cfg, q, r);
    var a := SoloCalls(cfg, k, q, r);
    assert Start(k, 0).callers == Waiting(k, 0);
    var b := AllAdmitted(cfg, c, now, k, k);
    var d := AllCount(cfg, Refreshed(c, now), k, k);
    hide Spread, Refreshed, RunFrom;
    RunOfConcat(cfg, Start(k, 0), a, b);
    RunOfConcat(cfg, Start(k, 0), a + b, d);
    schedule := a + b + d;
  }

  /** The minute bound is exact for any number of callers whenever the hour leaves room for a full minute. */
  lemma MinuteBoundIsReached(cfg: Config, k: nat) returns (schedule: Schedule)
    requires k > 0 && 0 < cfg.perMinute <= cfg.perHour
    ensures ForCallers(schedule, k)
    ensures RunFrom(cfg, Start(k, 0), schedule).counters.minute == Reach(cfg.perMinute, k)
  {
    schedule := CrowdAfter(cfg, k, 0, cfg.perMinute - 1);
  }

  /** The hour bound is exact for any number of callers whenever sixty full minutes can use the hour up. */
  lemma HourBoundIsReached(cfg: Config, k: nat) returns (schedule: Schedule)
    requires k > 0 && 0 < cfg.perHour <= 60 * cfg.perMinute
    ensures ForCallers(schedule, k)
    ensures RunFrom(cfg, Start(k, 0), schedule).counters.hour == Reach(cfg.perHour, k)
  {
    var n := cfg.perHour - 1;
    Division(n, cfg.perMinute);
    schedule := CrowdAfter(cfg, k, n / cfg.perMinute, n % cfg.perMinute);
  }

  lemma Division(n: nat, d: nat)
    requires 0 < d && n < 60 * d
    ensures n / d < 60 && n % d < d && (n / d) * d + n % d == n
  {
  }
}
