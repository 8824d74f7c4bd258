/** The budget of an agent: four running totals, two of them in windows that restart lazily. */
module Budget {

  const NANOS := 1_000_000_000
  const HOUR := 3600 * NANOS
  const DAY := 86400 * NANOS

  datatype Limits = Limits(request: real, hour: real, day: real, total: real)

  /** Amounts spent, and the clock readings (in nanoseconds) at which the two windows began. */
  datatype Spent = Spent(request: real, hour: real, day: real, total: real, hourStart: int, dayStart: int)

  function Fresh(now: int): Spent {
    Spent(0.0, 0.0, 0.0, 0.0, now, now)
  }

  /** A window whose length has gone by restarts at the time it is looked at. */
  function Rolled(s: Spent, now: int): Spent {
    var s := if now - s.hourStart >= HOUR then s.(hour := 0.0, hourStart := now) else s;
    if now - s.dayStart >= DAY then s.(day := 0.0, dayStart := now) else s
  }

  predicate Fits(l: Limits, s: Spent, amount: real) {
    && s.request + amount <= l.request
    && s.hour + amount <= l.hour
    && s.day + amount <= l.day
    && s.total + amount <= l.total
  }

  function Charged(s: Spent, amount: real): Spent {
    s.(request := s.request + amount, hour := s.hour + amount, day := s.day + amount, total := s.total + amount)
  }

  class BudgetTracker {
    const limits: Limits
    var spentThisRequest: real
    var spentThisHour: real
    var spentThisDay: real
    var spentTotal: real
    var hourStart: int
    var dayStart: int

    ghost function View(): Spent
      reads this
    {
      Spent(spentThisRequest, spentThisHour, spentThisDay, spentTotal, hourStart, dayStart)
    }

    constructor (perRequest: real, perHour: real, perDay: real, total: real, now: int)
      ensures limits == Limits(perRequest, perHour, perDay, total) && View() == Fresh(now)
    {
      limits := Limits(perRequest, perHour, perDay, total);
      spentThisRequest, spentThisHour, spentThisDay, spentTotal := 0.0, 0.0, 0.0, 0.0;
      hourStart, dayStart := now, now;
    }

    method ResetIfNeeded(now: int)
      modifies this
      ensures View() == Rolled(old(View()), now)
    {
      if (now - hourStart) / NANOS >= 3600 {
        spentThisHour := 0.0;
        hourStart := now;
      }
      if (now - dayStart) / NANOS >= 86400 {
        spentThisDay := 0.0;
        dayStart := now;
      }
    }

    method CanSpend(amount: real, now: int) returns (ok: bool)
      modifies this
      ensures View() == Rolled(old(View()), now)
      ensures ok == Fits(limits, View(), amount)
      ensures spentThisRequest == old(spentThisRequest) && spentTotal == old(spentTotal)
    {
      ResetIfNeeded(now);
      ok := && spentThisRequest + amount <= limits.request
            && spentThisHour + amount <= limits.hour
            && spentThisDay + amount <= limits.day
            && spentTotal + amount <= limits.total;
    }

    method Spend(amount: real, now: int)
      modifies this
      ensures View() == Charged(Rolled(old(View()), now), amount)
      ensures spentThisRequest == old(spentThisRequest) + amount && spentTotal == old(spentTotal) + amount
    {
      ResetIfNeeded(now);
      spentThisRequest := spentThisRequest + amount;
      spentThisHour := spentThisHour + amount;
      spentThisDay := spentThisDay + amount;
      spentTotal := spentTotal + amount;
    }

    method NewRequest()
      modifies this
      ensures View() == old(View()).(request := 0.0)
      ensures spentThisRequest == 0.0 && spentTotal == old(spentTotal)
    {
      spentThisRequest := 0.0;
    }
  }
}

/** Everything ever spent, and what the limits bound over whole runs of an agent. */
module BudgetRuns {
  import opened Budget

  const COST_PER_1K_TOKENS := 0.5

  function Cost(tokens: nat): real {
    tokens as real / 1000.0 * COST_PER_1K_TOKENS
  }

  lemma CostIsMonotone(a: nat, b: nat)
    requires a <= b
    ensures 0.0 <= Cost(a) <= Cost(b)
  {
  }

  /** A thousand tokens cost half a coin, and costs add up. */
  lemma CostAddsUp(a: nat, b: nat)
    ensures Cost(a + b) == Cost(a) + Cost(b) && Cost(1000) == 0.5 && Cost(0) == 0.0
  {
  }

  /** What an agent does to its budget: begin a task; ask the model for at most `maxTokens`, with the budget checked
      at `asked` and the reply, if there is one, charged at `answered`; or, when the task went through the shared
      loop, charge all the tokens of that loop without a check. */
  datatype Event =
    | Task
    | Ask(asked: int, maxTokens: nat, answered: int, tokens: nat, failed: bool)
    | Shared(ended: int, spentTokens: nat)

  /** One charge: when, how much, for which task, and in which hour and day windows it was counted. */
  datatype Charge = Charge(time: int, amount: real, task: nat, hour: int, day: int)

  datatype State = State(spent: Spent, charges: seq<Charge>, task: nat, now: int)

  function Start(now: int): State {
    State(Fresh(now), [], 0, now)
  }

  function Pay(s: State, now: int, amount: real): State {
    var after := Charged(Rolled(s.spent, now), amount);
    s.(spent := after, now := now,
    charges := s.charges + [Charge(now, amount, s.task, after.hourStart, after.dayStart)])
  }

  function Look(s: State, now: int): State {
    s.(spent := Rolled(s.spent, now), now := now)
  }

  function Do(l: Limits, s: State, e: Event): State {
    match e
    case Task => s.(spent := s.spent.(request := 0.0), task := s.task + 1)
    case Shared(ended, tokens) => Pay(s, ended, Cost(tokens))
    case Ask(asked, maxTokens, answered, tokens, failed) =>
      var checked := Look(s, asked);
      if !Fits(l, checked.spent, Cost(maxTokens)) then checked
      else if failed then checked.(now := answered)
      else Pay(checked, answered, Cost(tokens))
  }

  function Run(l: Limits, start: int, events: seq<Event>): State {
    if events == [] then Start(start)
    else Do(l, Run(l, start, events[..|events| - 1]), events[|events| - 1])
  }

  /** Time does not run backwards, and no reply is longer than was asked for. */
  predicate Possible(s: State, e: Event) {
    match e
    case Task => true
    case Ask(asked, maxTokens, answered, tokens, _) => s.now <= asked <= answered && tokens <= maxTokens
    case Shared(ended, _) => s.now <= ended
  }

  predicate IsRun(l: Limits, start: int, events: seq<Event>) {
    events != [] ==>
      var before := events[..|events| - 1];
      IsRun(l, start, before) && Possible(Run(l, start, before), events[|events| - 1])
  }

  datatype Period = Hour | Day

  function Length(p: Period): int {
    if p == Hour then HOUR else DAY
  }

  function WindowOf(c: Charge, p: Period): int {
    if p == Hour then c.hour else c.day
  }

  function WindowStart(s: Spent, p: Period): int {
    if p == Hour then s.hourStart else s.dayStart
  }

  /** The groups of charges that a limit is about. */
  datatype Group = Everything | OfTask(task: nat) | OfWindow(period: Period, start: int)

  predicate In(c: Charge, g: Group) {
    match g
    case Everything => true
    case OfTask(t) => c.task == t
    case OfWindow(p, start) => WindowOf(c, p) == start
  }

  function LimitOf(l: Limits, g: Group): real {
    match g
    case Everything => l.total
    case OfTask(_) => l.request
    case OfWindow(Hour, _) => l.hour
    case OfWindow(Day, _) => l.day
  }

  /** A negative limit forbids what zero forbids: any charge. */
  function Cap(limit: real): real {
    if limit < 0.0 then 0.0 else limit
  }

  function Total(charges: seq<Charge>, g: Group): real {
    if charges == [] then 0.0
    else
      var last := charges[|charges| - 1];
      Total(charges[..|charges| - 1], g) + if In(last, g) then last.amount else 0.0
  }

  function TotalWithin(charges: seq<Charge>, from: int, until: int): real {
    if charges == [] then 0.0
    else
      var last := charges[|charges| - 1];
      TotalWithin(charges[..|charges| - 1], from, until) + if from <= last.time < until then last.amount else 0.0
  }

  lemma TotalOfOneMore(charges: seq<Charge>, c: Charge, g: Group)
    ensures Total(charges + [c], g) == Total(charges, g) + if In(c, g) then c.amount else 0.0
  {
    assert (charges + [c])[..|charges|] == charges;
  }

  lemma {:induction false} NothingInGroup(charges: seq<Charge>, g: Group)
    requires forall i :: 0 <= i < |charges| ==> !In(charges[i], g)
    ensures Total(charges, g) == 0.0
  {
    if charges != [] {
      NothingInGroup(charges[..|charges| - 1], g);
    }
  }

  /** Two charges fall into one window, or the later window begins after the earlier charge and window. */
  predicate Apart(c: Charge, d: Charge, p: Period) {
    || WindowOf(c, p) == WindowOf(d, p)
    || Before(c, WindowOf(d, p), p)
    || Before(d, WindowOf(c, p), p)
  }

  predicate Before(c: Charge, start: int, p: Period) {
    c.time <= start && WindowOf(c, p) + Length(p) <= start
  }

  predicate InItsWindow(c: Charge, p: Period) {
    WindowOf(c, p) <= c.time < WindowOf(c, p) + Length(p)
  }

  ghost predicate ChargeOk(s: State, i: nat)
    requires i < |s.charges|
  {
    var c := s.charges[i];
    && c.amount >= 0.0 && c.task <= s.task && c.time <= s.now
    && forall p ::
         InItsWindow(c, p) && (WindowOf(c, p) == WindowStart(s.spent, p) || Before(c, WindowStart(s.spent, p), p))
  }

  ghost predicate AllApart(charges: seq<Charge>) {
    forall i, j, p :: 0 <= i < |charges| && 0 <= j < |charges| ==> Apart(charges[i], charges[j], p)
  }

  /** The counters are the totals of the groups in progress. */
  ghost predicate Counts(s: State) {
    && s.spent.total == Total(s.charges, Everything)
    && s.spent.request == Total(s.charges, OfTask(s.task))
    && s.spent.hour == Total(s.charges, OfWindow(Hour, s.spent.hourStart))
    && s.spent.day == Total(s.charges, OfWindow(Day, s.spent.dayStart))
  }

  ghost predicate Good(s: State) {
    && s.spent.hourStart <= s.now && s.spent.dayStart <= s.now
    && (forall i :: 0 <= i < |s.charges| ==> ChargeOk(s, i))
    && AllApart(s.charges)
    && Counts(s)
  }

  ghost predicate Bounded(l: Limits, s: State) {
    forall g :: Total(s.charges, g) <= Cap(LimitOf(l, g))
  }

  /** What a charge made without a check needs for the limits to survive it. */
  predicate Afforded(l: Limits, s: State, e: Event) {
    e.Shared? ==> Fits(Capped(l), Rolled(s.spent, e.ended), Cost(e.spentTokens))
  }

  function Capped(l: Limits): Limits {
    Limits(Cap(l.request), Cap(l.hour), Cap(l.day), Cap(l.total))
  }

  lemma GoodCharges(s: State)
    requires Good(s)
    ensures forall i :: 0 <= i < |s.charges| ==> s.charges[i].amount >= 0.0
    ensures forall i, p :: 0 <= i < |s.charges| ==> InItsWindow(s.charges[i], p)
  {
    forall i | 0 <= i < |s.charges| ensures s.charges[i].amount >= 0.0 && forall p :: InItsWindow(s.charges[i], p) {
      assert ChargeOk(s, i);
    }
  }

  /** Looking at the clock later: windows may restart, and then nothing has been charged in them. */
  lemma LookKeeps(s: State, now: int)
    requires Good(s) && s.now <= now
    ensures Good(Look(s, now))
  {
    var s' := Look(s, now);
    forall i | 0 <= i < |s.charges| ensures ChargeOk(s', i) {
      assert ChargeOk(s, i);
    }
    forall p | WindowStart(s'.spent, p) != WindowStart(s.spent, p)
      ensures Total(s.charges, OfWindow(p, WindowStart(s'.spent, p))) == 0.0
    {
      forall i | 0 <= i < |s.charges| ensures !In(s.charges[i], OfWindow(p, now)) {
        assert ChargeOk(s, i);
      }
      NothingInGroup(s.charges, OfWindow(p, now));
    }
    hide Total;
    assert WindowStart(s.spent, Hour) == s.spent.hourStart && WindowStart(s.spent, Day) == s.spent.dayStart;
    assert WindowStart(s'.spent, Hour) == s'.spent.hourStart && WindowStart(s'.spent, Day) == s'.spent.dayStart;
  }

  lemma LaterKeeps(s: State, now: int)
    requires Good(s) && s.now <= now
    ensures Good(s.(now := now))
  {
    forall i | 0 <= i < |s.charges| ensures ChargeOk(s.(now := now), i) {
      assert ChargeOk(s, i);
    }
  }

  lemma PayTotals(s: State, now: int, amount: real, g: Group)
    ensures var s' := Pay(s, now, amount);
            Total(s'.charges, g) == Total(s.charges, g) + if In(s'.charges[|s.charges|], g) then amount else 0.0
  {
    TotalOfOneMore(s.charges, Pay(s, now, amount).charges[|s.charges|], g);
  }

  lemma PayKeeps(s: State, now: int, amount: real)
    requires Good(s) && s.now <= now && amount >= 0.0
    ensures Good(Pay(s, now, amount))
  {
    LookKeeps(s, now);
    var r, s' := Look(s, now), Pay(s, now, amount);
    var c := s'.charges[|s.charges|];
    forall g ensures Total(s'.charges, g) == Total(s.charges, g) + if In(c, g) then amount else 0.0 {
      PayTotals(s, now, amount, g);
    }
    hide Total;
    forall i | 0 <= i < |s'.charges| ensures ChargeOk(s', i) {
      assert i < |s.charges| ==> ChargeOk(r, i);
    }
    forall i, p | 0 <= i < |s.charges| ensures Apart(s'.charges[i], c, p) && Apart(c, s'.charges[i], p) {
      assert ChargeOk(r, i);
    }
    assert Counts(r) && Counts(s');
  }

  lemma TaskKeeps(l: Limits, s: State)
    requires Good(s)
    ensures Good(Do(l, s, Task))
  {
    var s' := Do(l, s, Task);
    forall i | 0 <= i < |s.charges| ensures ChargeOk(s', i) && !In(s.charges[i], OfTask(s'.task)) {
      assert ChargeOk(s, i);
    }
    NothingInGroup(s.charges, OfTask(s'.task));
  }

  /** In every run the four counters are the totals of the task, the windows and the lifetime in progress. */
  lemma {:induction false} RunsAreGood(l: Limits, start: int, events: seq<Event>)
    requires IsRun(l, start, events)
    ensures Good(Run(l, start, events))
  {
    if events != [] {
      var n := |events| - 1;
      RunsAreGood(l, start, events[..n]);
      var s := Run(l, start, events[..n]);
      hide Good;
      match events[n]
      case Task => TaskKeeps(l, s);
      case Shared(ended, tokens) =>
        CostIsMonotone(0, tokens);
        PayKeeps(s, ended, Cost(tokens));
      case Ask(asked, maxTokens, answered, tokens, failed) =>
        CostIsMonotone(0, tokens);
        LookKeeps(s, asked);
        LaterKeeps(Look(s, asked), answered);
        PayKeeps(Look(s, asked), answered, Cost(tokens));
    }
  }

  lemma {:induction false} TotalNotNegative(charges: seq<Charge>, g: Group)
    requires forall i :: 0 <= i < |charges| ==> charges[i].amount >= 0.0
    ensures Total(charges, g) >= 0.0
  {
    if charges != [] {
      TotalNotNegative(charges[..|charges| - 1], g);
    }
  }

  /** A charge keeps all groups within their limits exactly when it fits the counters of the moment. */
  lemma PayStaysBounded(l: Limits, s: State, now: int, amount: real)
    requires Good(s) && Bounded(l, s) && s.now <= now && amount >= 0.0
    ensures Bounded(l, Pay(s, now, amount)) <==> Fits(Capped(l), Rolled(s.spent, now), amount)
  {
    var r, s' := Look(s, now), Pay(s, now, amount);
    LookKeeps(s, now);
    PayKeeps(s, now, amount);
    assert Counts(r) && Counts(s');
    if Fits(Capped(l), r.spent, amount) {
      hide Total, Rolled, Good;
      forall g ensures Total(s'.charges, g) <= Cap(LimitOf(l, g)) {
        assert Total(s.charges, g) <= Cap(LimitOf(l, g));
        PayTotals(s, now, amount, g);
      }
    }
    if Bounded(l, s') {
      hide Total, Rolled, Good;
      assert Total(s'.charges, Everything) <= Cap(LimitOf(l, Everything));
      assert Total(s'.charges, OfTask(s.task)) <= Cap(LimitOf(l, OfTask(s.task)));
      assert Total(s'.charges, OfWindow(Hour, s'.spent.hourStart))
          <= Cap(LimitOf(l, OfWindow(Hour, s'.spent.hourStart)));
      assert Total(s'.charges, OfWindow(Day, s'.spent.dayStart)) <= Cap(LimitOf(l, OfWindow(Day, s'.spent.dayStart)));
    }
  }

  /** A reply no longer than the estimate that was checked fits when it arrives, even if windows restarted meanwhile. */
  lemma CheckedReplyFits(l: Limits, s: State, now: int, estimate: real, amount: real)
    requires Good(s) && 0.0 <= amount <= estimate && Fits(l, s.spent, estimate)
    ensures Fits(Capped(l), Rolled(s.spent, now), amount)
  {
    GoodCharges(s);
    TotalNotNegative(s.charges, OfWindow(Hour, s.spent.hourStart));
    TotalNotNegative(s.charges, OfWindow(Day, s.spent.dayStart));
  }

  lemma StepStaysBounded(l: Limits, s: State, e: Event)
    requires Good(s) && Bounded(l, s) && Possible(s, e)
    ensures Bounded(l, Do(l, s, e)) <==> Afforded(l, s, e)
  {
    match e
    case Task =>
    case Shared(ended, tokens) =>
      CostIsMonotone(0, tokens);
      PayStaysBounded(l, s, ended, Cost(tokens));
    case Ask(asked, maxTokens, answered, tokens, failed) =>
      LookKeeps(s, asked);
      assert Bounded(l, Look(s, asked));
      if Fits(l, Look(s, asked).spent, Cost(maxTokens)) && !failed {
        CostIsMonotone(0, tokens);
        CostIsMonotone(tokens, maxTokens);
        CheckedReplyFits(l, Look(s, asked), answered, Cost(maxTokens), Cost(tokens));
        PayStaysBounded(l, Look(s, asked), answered, Cost(tokens));
      }
  }

  predicate AllAfforded(l: Limits, start: int, events: seq<Event>) {
    events != [] ==>
      var before := events[..|events| - 1];
      AllAfforded(l, start, before) && Afforded(l, Run(l, start, before), events[|events| - 1])
  }

  ghost predicate AlwaysBounded(l: Limits, start: int, events: seq<Event>) {
    Bounded(l, Run(l, start, events)) && (events != [] ==> AlwaysBounded(l, start, events[..|events| - 1]))
  }

  /** Throughout a run no task, no hour window, no day window and no lifetime costs more than its limit, exactly when
      every charge of the shared loop happened to fit. Tasks of the direct loop need no such luck. */
  lemma {:induction false} WithinLimitsIff(l: Limits, start: int, events: seq<Event>)
    requires IsRun(l, start, events)
    ensures AlwaysBounded(l, start, events) <==> AllAfforded(l, start, events)
  {
    if events != [] {
      var before := events[..|events| - 1];
      WithinLimitsIff(l, start, before);
      RunsAreGood(l, start, before);
      hide Bounded, Good, Afforded, Possible, Do;
      if AlwaysBounded(l, start, before) {
        StepStaysBounded(l, Run(l, start, before), events[|events| - 1]);
      }
    }
  }

  lemma {:induction false} DirectIsAfforded(l: Limits, start: int, events: seq<Event>)
    requires forall i :: 0 <= i < |events| ==> !events[i].Shared?
    ensures AllAfforded(l, start, events)
  {
    if events != [] {
      DirectIsAfforded(l, start, events[..|events| - 1]);
    }
  }

  /** An agent that only runs the direct loop never exceeds a limit. */
  lemma DirectLoopStaysWithin(l: Limits, start: int, events: seq<Event>, g: Group)
    requires IsRun(l, start, events) && forall i :: 0 <= i < |events| ==> !events[i].Shared?
    ensures Total(Run(l, start, events).charges, g) <= Cap(LimitOf(l, g))
  {
    WithinLimitsIff(l, start, events);
    DirectIsAfforded(l, start, events);
  }

  lemma {:induction false} IntervalInTwoWindows(charges: seq<Charge>, from: int, until: int, p: Period, v: int, w: int)
    requires forall i :: 0 <= i < |charges| ==> charges[i].amount >= 0.0
    requires forall i :: 0 <= i < |charges| && from <= charges[i].time < until ==> WindowOf(charges[i], p) in {v, w}
    ensures TotalWithin(charges, from, until) <= Total(charges, OfWindow(p, v)) + Total(charges, OfWindow(p, w))
  {
    if charges != [] {
      IntervalInTwoWindows(charges[..|charges| - 1], from, until, p, v, w);
    }
  }

  /** Charges less than one window length apart fall into at most two windows. */
  lemma ThreeWindowsAreFarApart(c: Charge, d: Charge, e: Charge, p: Period)
    requires Apart(c, d, p) && Apart(d, e, p) && Apart(c, e, p)
    requires InItsWindow(c, p) && InItsWindow(d, p) && InItsWindow(e, p)
    requires |{WindowOf(c, p), WindowOf(d, p), WindowOf(e, p)}| == 3
    ensures exists x, y :: x in {c, d, e} && y in {c, d, e} && y.time - x.time >= Length(p)
  {
    var u, v, w := WindowOf(c, p), WindowOf(d, p), WindowOf(e, p);
    assert u != v && v != w && u != w by {
      assert u == v ==> {u, v, w} == {v, w};
      assert v == w ==> {u, v, w} == {u, w};
      assert u == w ==> {u, v, w} == {u, v};
    }
    var first := if u < v && u < w then c else if v < w then d else e;
    var last := if u > v && u > w then c else if v > w then d else e;
    assert last.time - first.time >= Length(p);
  }

  ghost predicate Covered(charges: seq<Charge>, from: int, until: int, p: Period, v: int, w: int) {
    forall i :: 0 <= i < |charges| && from <= charges[i].time < until ==> WindowOf(charges[i], p) in {v, w}
  }

  lemma TwoWindowsCover(charges: seq<Charge>, from: int, p: Period) returns (v: int, w: int)
    requires AllApart(charges) && forall i :: 0 <= i < |charges| ==> InItsWindow(charges[i], p)
    ensures Covered(charges, from, from + Length(p), p, v, w)
  {
    var until := from + Length(p);
    v, w := 0, 0;
    if i :| 0 <= i < |charges| && from <= charges[i].time < until {
      v, w := WindowOf(charges[i], p), WindowOf(charges[i], p);
      if j :| 0 <= j < |charges| && from <= charges[j].time < until && WindowOf(charges[j], p) != v {
        w := WindowOf(charges[j], p);
        forall k | 0 <= k < |charges| && from <= charges[k].time < until ensures WindowOf(charges[k], p) in {v, w} {
          if WindowOf(charges[k], p) !in {v, w} {
            ThreeWindowsAreFarApart(charges[i], charges[j], charges[k], p);
          }
        }
      }
    }
  }

  /** Although windows restart lazily and a reply is charged later than it is checked, what a run within its limits
      charges in any interval of one hour (or day) is at most twice the hourly (daily) limit, wherever it lies. */
  lemma AnyInterval(l: Limits, start: int, events: seq<Event>, p: Period, from: int)
    requires IsRun(l, start, events) && AllAfforded(l, start, events)
    ensures TotalWithin(Run(l, start, events).charges, from, from + Length(p)) <= 2.0 * Cap(LimitOf(l, OfWindow(p, 0)))
  {
    RunsAreGood(l, start, events);
    WithinLimitsIff(l, start, events);
    var s := Run(l, start, events);
    GoodCharges(s);
    hide Run, IsRun, AllAfforded, InItsWindow, Total, TotalWithin, Apart, ChargeOk, Counts;
    var v, w := TwoWindowsCover(s.charges, from, p);
    IntervalInTwoWindows(s.charges, from, from + Length(p), p, v, w);
    assert Total(s.charges, OfWindow(p, v)) <= Cap(LimitOf(l, OfWindow(p, v)));
    assert Total(s.charges, OfWindow(p, w)) <= Cap(LimitOf(l, OfWindow(p, w)));
  }

  lemma RunOfOneMore(l: Limits, start: int, events: seq<Event>, e: Event)
    ensures Run(l, start, events + [e]) == Do(l, Run(l, start, events), e)
    ensures IsRun(l, start, events + [e]) <==> IsRun(l, start, events) && Possible(Run(l, start, events), e)
  {
    assert (events + [e])[..|events|] == events;
    hide Do, Possible;
  }

  /** A question asked and answered at once, within the counters of the moment. */
  lemma AskAtOnce(l: Limits, s: State, now: int, tokens: nat)
    requires s.now <= now && Fits(l, Rolled(s.spent, now), Cost(tokens))
    ensures Possible(s, Ask(now, tokens, now, tokens, false))
    ensures Do(l, s, Ask(now, tokens, now, tokens, false)) == Pay(s, now, Cost(tokens))
  {
    hide Cost;
  }

  lemma WithinOfOneMore(charges: seq<Charge>, c: Charge, from: int, until: int)
    ensures TotalWithin(charges + [c], from, until)
         == TotalWithin(charges, from, until) + if from <= c.time < until then c.amount else 0.0
  {
    assert (charges + [c])[..|charges|] == charges;
  }

  /** The factor two is needed: the whole hourly limit can go just before a window ends, and again a second later. */
  lemma TwiceTheLimitInOneSecond(tokens: nat)
    ensures exists l: Limits, events: seq<Event> ::
              && IsRun(l, 0, events) && l.hour == Cost(tokens)
              && TotalWithin(Run(l, 0, events).charges, HOUR - NANOS, HOUR + 1) == 2.0 * l.hour
  {
    CostIsMonotone(0, tokens);
    hide Cost, Run, IsRun, TotalWithin;
    var c := Cost(tokens);
    var l := Limits(2.0 * c, c, 2.0 * c, 2.0 * c);
    var early, late := Ask(HOUR - NANOS, tokens, HOUR - NANOS, tokens, false), Ask(HOUR, tokens, HOUR, tokens, false);
    NothingYet(l);
    var s0, s1 := Start(0), Pay(Start(0), HOUR - NANOS, c);
    AskAtOnce(l, s0, HOUR - NANOS, tokens);
    AskAtOnce(l, s1, HOUR, tokens);
    RunOfOneMore(l, 0, [], early);
    RunOfOneMore(l, 0, [] + [early], late);
    var a, b := Charge(HOUR - NANOS, c, 0, 0, 0), Charge(HOUR, c, 0, HOUR, 0);
    assert Pay(s1, HOUR, c).charges == [] + [a] + [b];
    WithinOfOneMore([], a, HOUR - NANOS, HOUR + 1);
    WithinOfOneMore([] + [a], b, HOUR - NANOS, HOUR + 1);
  }

  lemma NothingYet(l: Limits)
    ensures IsRun(l, 0, []) && Run(l, 0, []) == Start(0) && TotalWithin([], HOUR - NANOS, HOUR + 1) == 0.0
  {
  }

  // ---- a check that would be enough for the shared loop ----

  const SHARED_PASSES := 20

  /** The shared loop makes at most twenty passes of at most `maxTokens`; had that been asked of the budget when it
      began, the charge at its end would fit. */
  predicate Prechecked(l: Limits, s: State, e: Event, begun: int, maxTokens: nat) {
    e.Shared? ==>
      && e.spentTokens <= SHARED_PASSES * maxTokens && begun <= e.ended
      && Fits(l, Rolled(s.spent, begun), Cost(SHARED_PASSES * maxTokens))
  }

  lemma PrecheckIsEnough(l: Limits, s: State, e: Event, begun: int, maxTokens: nat)
    requires Good(s) && s.now <= begun && Prechecked(l, s, e, begun, maxTokens)
    ensures Afforded(l, s, e)
  {
    if e.Shared? {
      LookKeeps(s, begun);
      CostIsMonotone(e.spentTokens, SHARED_PASSES * maxTokens);
      hide Cost, Good;
      CheckedReplyFits(l, Look(s, begun), e.ended, Cost(SHARED_PASSES * maxTokens), Cost(e.spentTokens));
    }
  }

  ghost predicate CheckedBefore(l: Limits, s: State, e: Event, maxTokens: nat) {
    exists begun :: s.now <= begun && Prechecked(l, s, e, begun, maxTokens)
  }

  /** Every task of the shared loop was checked at some time before it was charged. */
  ghost predicate AllPrechecked(l: Limits, start: int, events: seq<Event>, maxTokens: nat) {
    events != [] ==>
      var before := events[..|events| - 1];
      && AllPrechecked(l, start, before, maxTokens)
      && CheckedBefore(l, Run(l, start, before), events[|events| - 1], maxTokens)
  }

  /** A condition known beforehand: if each task of the shared loop were checked for twenty full replies, no limit would
      ever be exceeded. */
  lemma {:induction false} PrecheckedStaysWithin(l: Limits, start: int, events: seq<Event>, maxTokens: nat)
    requires IsRun(l, start, events) && AllPrechecked(l, start, events, maxTokens)
    ensures AllAfforded(l, start, events) && AlwaysBounded(l, start, events)
  {
    if events != [] {
      var before, e := events[..|events| - 1], events[|events| - 1];
      PrecheckedStaysWithin(l, start, before, maxTokens);
      RunsAreGood(l, start, before);
      hide Good, Prechecked, Afforded, Do, AlwaysBounded;
      var s := Run(l, start, before);
      var begun :| s.now <= begun && Prechecked(l, s, e, begun, maxTokens);
      PrecheckIsEnough(l, s, e, begun, maxTokens);
    }
    WithinLimitsIff(l, start, events);
  }

  /** Without the check the limits do fail: one task of the shared loop under a budget of nothing. */
  lemma SharedLoopOverspends(l: Limits, start: int, tokens: nat)
    requires l.total < Cost(tokens) && tokens > 0
    ensures IsRun(l, start, [Shared(start, tokens)])
    ensures Total(Run(l, start, [Shared(start, tokens)]).charges, Everything) > Cap(l.total)
  {
    var e := Shared(start, tokens);
    assert [e][..0] == [];
    assert Run(l, start, [e]) == Do(l, Start(start), e);
    TotalOfOneMore([], Charge(start, Cost(tokens), 0, start, start), Everything);
  }
}
