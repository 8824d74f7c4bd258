/** What the rate limiter allows when nothing interrupts its calls: exactly what the calls allowed in the current minute
    and hour leave room for. */
module RateWindows {
  import opened RateLimiter

  /** When the window began in which the last of these calls fell: windows begin at a call, and the next one not before
      the one in progress is over. */
  function Opened(start: int, times: seq<int>, length: int): int {
    if times == [] then start
    else
      var n := |times| - 1;
      var began := Opened(start, times[..n], length);
      if times[n] < began + length then began else times[n]
  }

  function After(cfg: Config, start: int, times: seq<int>): Counters {
    if times == [] then Counters(0, 0, start, start)
    else Checked(cfg, After(cfg, start, times[..|times| - 1]), times[|times| - 1]).0
  }

  /** The k-th call is allowed. */
  predicate Allowed(cfg: Config, start: int, times: seq<int>, k: nat)
    requires k < |times|
  {
    Checked(cfg, After(cfg, start, times[..k]), times[k]).1
  }

  /** How many of the calls since `from` were allowed. */
  function AllowedSince(cfg: Config, start: int, times: seq<int>, from: int): nat {
    if times == [] then 0
    else
      var n := |times| - 1;
      AllowedSince(cfg, start, times[..n], from) + if from <= times[n] && Allowed(cfg, start, times, n) then 1 else 0
  }

  ghost predicate Rising(start: int, times: seq<int>) {
    && (forall k :: 0 <= k < |times| ==> start <= times[k])
    && forall j, k :: 0 <= j < k < |times| ==> times[j] <= times[k]
  }

  /** No call lies a whole window after the beginning of the window in progress. */
  lemma {:induction false} OpenedIsRecent(start: int, times: seq<int>, length: int, k: nat)
    requires Rising(start, times) && length > 0 && k < |times|
    ensures times[k] < Opened(start, times, length) + length
    ensures start <= Opened(start, times, length) <= times[|times| - 1]
    decreases times
  {
    var n := |times| - 1;
    if n > 0 {
      OpenedIsRecent(start, times[..n], length, if k < n then k else n - 1);
    }
  }

  lemma {:induction false} NoneSince(cfg: Config, start: int, times: seq<int>, from: int)
    requires forall k :: 0 <= k < |times| ==> times[k] < from
    ensures AllowedSince(cfg, start, times, from) == 0
  {
    if times != [] {
      NoneSince(cfg, start, times[..|times| - 1], from);
    }
  }

  lemma OneMoreCall(cfg: Config, start: int, times: seq<int>, now: int, from: int)
    ensures Allowed(cfg, start, times + [now], |times|) == Checked(cfg, After(cfg, start, times), now).1
    ensures AllowedSince(cfg, start, times + [now], from)
         == AllowedSince(cfg, start, times, from)
            + if from <= now && Checked(cfg, After(cfg, start, times), now).1 then 1 else 0
    ensures After(cfg, start, times + [now]) == Checked(cfg, After(cfg, start, times), now).0
  {
    assert (times + [now])[..|times|] == times;
  }

  /** The allowed calls in the window that a call at `now` falls into. */
  function InWindow(cfg: Config, start: int, times: seq<int>, now: int, length: int): nat {
    AllowedSince(cfg, start, times, Opened(start, times + [now], length))
  }

  lemma WindowAt(cfg: Config, start: int, times: seq<int>, now: int, length: int)
    requires Rising(start, times + [now]) && length > 0
    ensures var began := Opened(start, times, length);
            InWindow(cfg, start, times, now, length)
            == if now < began + length then AllowedSince(cfg, start, times, began) else 0
  {
    assert (times + [now])[..|times|] == times;
    assert forall k :: 0 <= k < |times| ==> (times + [now])[k] == times[k];
    if now >= Opened(start, times, length) + length {
      forall k | 0 <= k < |times| ensures times[k] < now {
        OpenedIsRecent(start, times, length, k);
      }
      NoneSince(cfg, start, times, now);
    }
  }

  /** The counters hold the allowed calls of the windows in progress. */
  lemma {:induction false} CountersAreCounts(cfg: Config, start: int, times: seq<int>)
    requires Rising(start, times)
    ensures var c := After(cfg, start, times);
            && c.minuteReset == Opened(start, times, 60_000_000_000)
            && c.hourReset == Opened(start, times, 3_600_000_000_000)
            && c.minute == AllowedSince(cfg, start, times, c.minuteReset)
            && c.hour == AllowedSince(cfg, start, times, c.hourReset)
  {
    if times != [] {
      var before, now := times[..|times| - 1], times[|times| - 1];
      assert times == before + [now];
      CountersAreCounts(cfg, start, before);
      WindowAt(cfg, start, before, now, MINUTE);
      WindowAt(cfg, start, before, now, HOUR);
      OpenedIsRecent(start, times, MINUTE, |before|);
      OpenedIsRecent(start, times, HOUR, |before|);
      OneMoreCall(cfg, start, before, now, Opened(start, times, MINUTE));
      OneMoreCall(cfg, start, before, now, Opened(start, times, HOUR));
      hide AllowedSince, Allowed, Rising;
    }
  }

  /** A call is allowed if and only if the calls allowed in its minute and in its hour leave room for one more. */
  lemma AllowedIff(cfg: Config, start: int, times: seq<int>, now: int)
    requires Rising(start, times + [now])
    ensures Allowed(cfg, start, times + [now], |times|) <==>
            && InWindow(cfg, start, times, now, 60_000_000_000) < cfg.perMinute
            && InWindow(cfg, start, times, now, 3_600_000_000_000) < cfg.perHour
  {
    assert forall k :: 0 <= k < |times| ==> (times + [now])[k] == times[k];
    CountersAreCounts(cfg, start, times);
    WindowAt(cfg, start, times, now, MINUTE);
    WindowAt(cfg, start, times, now, HOUR);
    OneMoreCall(cfg, start, times, now, now);
    hide AllowedSince, Allowed, Opened, InWindow, After;
  }

  /** A full count is released with its window: a call a whole hour after the hour's window began is allowed exactly if
      the limits allow anything and the minute has room. */
  lemma HourIsReleased(cfg: Config, start: int, times: seq<int>, now: int)
    requires Rising(start, times + [now]) && now >= Opened(start, times, 3_600_000_000_000) + 3_600_000_000_000
    ensures Allowed(cfg, start, times + [now], |times|) <==>
            cfg.perHour > 0 && InWindow(cfg, start, times, now, 60_000_000_000) < cfg.perMinute
  {
    AllowedIff(cfg, start, times, now);
    WindowAt(cfg, start, times, now, HOUR);
  }


  /** And so is a full minute: after a pause of a minute a call is allowed exactly if the limits allow anything and the
      hour has room. */
  lemma MinuteIsReleased(cfg: Config, start: int, times: seq<int>, now: int)
    requires Rising(start, times + [now]) && now >= Opened(start, times, 60_000_000_000) + 60_000_000_000
    ensures Allowed(cfg, start, times + [now], |times|) <==>
            cfg.perMinute > 0 && InWindow(cfg, start, times, now, 3_600_000_000_000) < cfg.perHour
  {
    AllowedIff(cfg, start, times, now);
    WindowAt(cfg, start, times, now, MINUTE);
  }
}
