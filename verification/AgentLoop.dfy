/** The direct loop of an agent: ask the model until it answers without tool calls, under a budget. */
module AgentLoop {
  import opened Budget
  import opened BudgetRuns

  const MAX_ITERATIONS := 20

  datatype Reply =
    | Failed
    | Answer(answerTokens: nat)
    | Calls(callTokens: nat, interrupted: bool)

  /** What one iteration meets: the stop flag, the clock before and after inference, and the reply. `interrupted` says
      that the stop flag was seen while the tools ran. */
  datatype Pass = Pass(stop: bool, asked: int, answered: int, reply: Reply)

  function TokensOf(r: Reply): nat {
    match r
    case Failed => 0
    case Answer(t) => t
    case Calls(t, _) => t
  }

  datatype Outcome = Stopped | OutOfIterations | OutOfBudget | InferenceFailed | Answered

  datatype Report = Report(outcome: Outcome, iterations: nat, totalTokens: nat)

  function AskOf(pass: Pass, maxTokens: nat): Event {
    Ask(pass.asked, maxTokens, pass.answered, TokensOf(pass.reply), pass.reply.Failed?)
  }

  /** The budget after a new task and its first n questions to the model. */
  ghost function After(l: Limits, s: State, world: nat -> Pass, maxTokens: nat, n: nat): State {
    if n == 0 then Do(l, s, Task)
    else Do(l, After(l, s, world, maxTokens, n - 1), AskOf(world(n - 1), maxTokens))
  }

  ghost function TokensUpTo(world: nat -> Pass, n: nat): nat {
    if n == 0 then 0 else TokensUpTo(world, n - 1) + TokensOf(world(n - 1).reply)
  }

  /** The i-th question is one the loop goes on from. */
  ghost predicate Continues(l: Limits, s: State, world: nat -> Pass, maxTokens: nat, i: nat) {
    && !world(i).stop && world(i).reply.Calls? && !world(i).reply.interrupted
    && Fits(l, Rolled(After(l, s, world, maxTokens, i).spent, world(i).asked), Cost(maxTokens))
  }

  /** A task costs at most the request limit, whatever the clock does, if replies are no longer than asked for. */
  lemma {:induction false} TaskStaysWithinRequest(l: Limits, s: State, world: nat -> Pass, maxTokens: nat, n: nat)
    requires forall i :: 0 <= i < n ==> TokensOf(world(i).reply) <= maxTokens
    ensures 0.0 <= After(l, s, world, maxTokens, n).spent.request <= Cap(l.request)
  {
    if n > 0 {
      TaskStaysWithinRequest(l, s, world, maxTokens, n - 1);
      CostIsMonotone(TokensOf(world(n - 1).reply), maxTokens);
    }
  }

  /** What the first n questions do to the budget, as events. */
  ghost function Asks(world: nat -> Pass, maxTokens: nat, n: nat): seq<Event> {
    if n == 0 then [] else Asks(world, maxTokens, n - 1) + [AskOf(world(n - 1), maxTokens)]
  }

  /** The clock does not run backwards through the first n questions, and no reply is longer than asked for. */
  ghost predicate Orderly(world: nat -> Pass, now: int, maxTokens: nat, n: nat) {
    forall i :: 0 <= i < n ==> OrderlyPass(world, now, maxTokens, i)
  }

  ghost predicate OrderlyPass(world: nat -> Pass, now: int, maxTokens: nat, i: nat) {
    && (if i == 0 then now else world(i - 1).answered) <= world(i).asked <= world(i).answered
    && TokensOf(world(i).reply) <= maxTokens
  }

  ghost function WithTask(history: seq<Event>, world: nat -> Pass, maxTokens: nat, n: nat): seq<Event> {
    history + [Task] + Asks(world, maxTokens, n)
  }

  lemma LaterThanNow(l: Limits, s: State, e: Event)
    ensures match e
            case Task => Do(l, s, e).now == s.now
            case Ask(asked, _, answered, _, _) => asked <= answered ==> Do(l, s, e).now <= answered
            case Shared(ended, _) => Do(l, s, e).now == ended
  {
  }

  /** A task of the direct loop continues the run of its budget's history. */
  lemma {:induction false} TaskContinuesRun(l: Limits, start: int, history: seq<Event>, world: nat -> Pass,
                                            maxTokens: nat, n: nat)
    ensures var s := Run(l, start, history);
            && After(l, s, world, maxTokens, n) == Run(l, start, WithTask(history, world, maxTokens, n))
            && (n == 0 ==> After(l, s, world, maxTokens, n).now == s.now)
            && (n > 0 && Orderly(world, s.now, maxTokens, n) ==>
                  After(l, s, world, maxTokens, n).now <= world(n - 1).answered)
            && (IsRun(l, start, history) && Orderly(world, s.now, maxTokens, n) ==>
                  IsRun(l, start, WithTask(history, world, maxTokens, n)))
  {
    hide Do, Run, IsRun;
    var s := Run(l, start, history);
    if n == 0 {
      assert WithTask(history, world, maxTokens, 0) == history + [Task];
      RunOfOneMore(l, start, history, Task);
      LaterThanNow(l, s, Task);
    } else {
      TaskContinuesRun(l, start, history, world, maxTokens, n - 1);
      var before, e := WithTask(history, world, maxTokens, n - 1), AskOf(world(n - 1), maxTokens);
      assert WithTask(history, world, maxTokens, n) == before + [e];
      RunOfOneMore(l, start, before, e);
      LaterThanNow(l, Run(l, start, before), e);
      if Orderly(world, s.now, maxTokens, n) {
        assert OrderlyPass(world, s.now, maxTokens, n - 1);
        assert n > 1 ==> Orderly(world, s.now, maxTokens, n - 1);
      }
    }
  }

  lemma {:induction false} AsksAreAfforded(l: Limits, start: int, history: seq<Event>, world: nat -> Pass,
                                           maxTokens: nat, n: nat)
    requires AllAfforded(l, start, history)
    ensures AllAfforded(l, start, WithTask(history, world, maxTokens, n))
  {
    if n == 0 {
      assert WithTask(history, world, maxTokens, 0) == history + [Task];
      assert (history + [Task])[..|history|] == history;
    } else {
      AsksAreAfforded(l, start, history, world, maxTokens, n - 1);
      var before, e := WithTask(history, world, maxTokens, n - 1), AskOf(world(n - 1), maxTokens);
      assert WithTask(history, world, maxTokens, n) == before + [e];
      assert (before + [e])[..|before|] == before;
    }
  }

  /** Limits that held before a task of the direct loop hold after it: those of the task, of every hour and day window,
      and of the lifetime. */
  lemma TaskKeepsLimits(l: Limits, start: int, history: seq<Event>, world: nat -> Pass, maxTokens: nat, n: nat)
    requires IsRun(l, start, history) && AllAfforded(l, start, history)
    requires Orderly(world, Run(l, start, history).now, maxTokens, n)
    ensures Bounded(l, After(l, Run(l, start, history), world, maxTokens, n))
  {
    hide AllAfforded, IsRun, Bounded, WithTask, Run, After, Orderly;
    TaskContinuesRun(l, start, history, world, maxTokens, n);
    AsksAreAfforded(l, start, history, world, maxTokens, n);
    WithinLimitsIff(l, start, WithTask(history, world, maxTokens, n));
  }

  /** The budget allows the i-th question. */
  ghost predicate Affordable(l: Limits, s: State, world: nat -> Pass, maxTokens: nat, i: nat) {
    Fits(l, Rolled(After(l, s, world, maxTokens, i).spent, world(i).asked), Cost(maxTokens))
  }

  /** What one question does to the budget: a look at it, and a charge if it is allowed and answered. */
  lemma OneMoreAsk(l: Limits, s: State, world: nat -> Pass, maxTokens: nat, n: nat)
    ensures var seen := Rolled(After(l, s, world, maxTokens, n).spent, world(n).asked);
            After(l, s, world, maxTokens, n + 1).spent
            == (if !Affordable(l, s, world, maxTokens, n) || world(n).reply.Failed? then seen
                else Charged(Rolled(seen, world(n).answered), Cost(TokensOf(world(n).reply))))
  {
    hide Fits, Rolled, Charged, Cost;
  }

  /** A window that restarts forgets only its own charges. */
  lemma TotalsAfter(s: Spent, asked: int, answered: int, amount: real)
    ensures Rolled(s, asked).total == s.total && Rolled(s, asked).request == s.request
    ensures var charged := Charged(Rolled(Rolled(s, asked), answered), amount);
            charged.total == s.total + amount && charged.request == s.request + amount
  {
  }

  /** A task costs the tokens of the questions it could afford, which are all but perhaps the last. */
  lemma {:induction false} TaskCosts(l: Limits, s: State, world: nat -> Pass, maxTokens: nat, n: nat, paid: nat)
    requires forall i :: 0 <= i < paid ==> Affordable(l, s, world, maxTokens, i)
    requires paid == n || (paid == n - 1 && !Affordable(l, s, world, maxTokens, paid))
    ensures var after := After(l, s, world, maxTokens, n).spent;
            && after.total == s.spent.total + Cost(TokensUpTo(world, paid))
            && after.request == Cost(TokensUpTo(world, paid))
    decreases n
  {
    hide Fits, Cost, Rolled, Charged, Affordable, Do;
    CostAddsUp(0, 0);
    if n > 0 {
      var pass, before := world(n - 1), After(l, s, world, maxTokens, n - 1).spent;
      TaskCosts(l, s, world, maxTokens, n - 1, n - 1);
      OneMoreAsk(l, s, world, maxTokens, n - 1);
      TotalsAfter(before, pass.asked, pass.answered, Cost(TokensOf(pass.reply)));
      CostAddsUp(TokensUpTo(world, n - 1), TokensOf(pass.reply));
      hide After;
    } else {
      NewTask(l, s, world, maxTokens);
    }
  }

  lemma NewTask(l: Limits, s: State, world: nat -> Pass, maxTokens: nat)
    ensures After(l, s, world, maxTokens, 0).spent == s.spent.(request := 0.0) && TokensUpTo(world, 0) == 0
  {
  }

  class AgentRuntime {
    const budget: BudgetTracker
    const maxTokens: nat

    constructor (budget: BudgetTracker, maxTokens: nat)
      ensures this.budget == budget && this.maxTokens == maxTokens
    {
      this.budget, this.maxTokens := budget, maxTokens;
    }

    /** Runs one task. It asks the model at most twenty times; it goes on exactly after replies with tool calls that
        nothing interrupted, and stops for the reason it reports. */
    method RunTask(world: nat -> Pass, ghost start: int, ghost history: seq<Event>)
      returns (report: Report, ghost asks: nat)
      requires budget.View() == Run(budget.limits, start, history).spent
      modifies budget
      ensures asks <= 20 && asks <= report.iterations <= asks + 1
      ensures budget.View() == Run(budget.limits, start, WithTask(history, world, maxTokens, asks)).spent
      ensures IsRun(budget.limits, start, history)
              && Orderly(world, Run(budget.limits, start, history).now, maxTokens, asks) ==>
                IsRun(budget.limits, start, WithTask(history, world, maxTokens, asks))
      ensures IsRun(budget.limits, start, history) && AllAfforded(budget.limits, start, history)
              && Orderly(world, Run(budget.limits, start, history).now, maxTokens, asks) ==>
                Bounded(budget.limits, Run(budget.limits, start, WithTask(history, world, maxTokens, asks)))
      ensures (forall i :: 0 <= i < asks ==> TokensOf(world(i).reply) <= maxTokens) ==>
                budget.spentThisRequest <= Cap(budget.limits.request)
      ensures budget.spentTotal == old(budget.spentTotal) + Cost(report.totalTokens)
      ensures budget.spentThisRequest == Cost(report.totalTokens)
      ensures forall i :: 0 <= i < asks && i + 1 < report.iterations ==>
                            Continues(budget.limits, Run(budget.limits, start, history), world, maxTokens, i)
      ensures match report.outcome
              case Stopped =>
                && report.totalTokens == TokensUpTo(world, asks)
                && if asks < report.iterations then world(asks).stop
                   else asks > 0 && world(asks - 1).reply.Calls? && world(asks - 1).reply.interrupted
              case OutOfIterations =>
                asks == 20 < report.iterations && report.totalTokens == TokensUpTo(world, asks)
              case OutOfBudget =>
                && asks > 0 && report.totalTokens == TokensUpTo(world, asks - 1)
                && !Fits(budget.limits, budget.View(), Cost(maxTokens))
              case InferenceFailed =>
                && asks > 0 && report.totalTokens == TokensUpTo(world, asks) && world(asks - 1).reply.Failed?
              case Answered =>
                && asks > 0 && report.totalTokens == TokensUpTo(world, asks) && world(asks - 1).reply.Answer?
    {
      hide Fits, Rolled, Charged, Cost, Cap, Run, IsRun, AllAfforded, Bounded, Orderly, WithTask, Do, After;
      ghost var s := Run(budget.limits, start, history);
      budget.NewRequest();
      NewTask(budget.limits, s, world, maxTokens);
      var iterations, totalTokens := 0, 0;
      ghost var paid := 0;
      asks := 0;
      while true
        invariant iterations == asks <= MAX_ITERATIONS
        invariant totalTokens == TokensUpTo(world, asks)
        invariant paid == asks && forall i :: 0 <= i < paid ==> Affordable(budget.limits, s, world, maxTokens, i)
        invariant budget.View() == After(budget.limits, s, world, maxTokens, asks).spent
        invariant forall i :: 0 <= i < asks ==> Continues(budget.limits, s, world, maxTokens, i)
        decreases MAX_ITERATIONS - iterations
      {
        iterations := iterations + 1;
        var pass := world(iterations - 1);
        if pass.stop {
          report := Report(Stopped, iterations, totalTokens);
          break;
        }
        if iterations > MAX_ITERATIONS {
          report := Report(OutOfIterations, iterations, totalTokens);
          break;
        }
        OneMoreAsk(budget.limits, s, world, maxTokens, asks);
        asks := iterations;
        var affordable := budget.CanSpend(Cost(maxTokens), pass.asked);
        if !affordable {
          report := Report(OutOfBudget, iterations, totalTokens);
          break;
        }
        paid := asks;
        if pass.reply.Failed? {
          report := Report(InferenceFailed, iterations, totalTokens);
          break;
        }
        totalTokens := totalTokens + TokensOf(pass.reply);
        budget.Spend(Cost(TokensOf(pass.reply)), pass.answered);
        if pass.reply.Answer? {
          report := Report(Answered, iterations, totalTokens);
          break;
        }
        if pass.reply.interrupted {
          report := Report(Stopped, iterations, totalTokens);
          break;
        }
      }
      AfterTask(budget.limits, start, history, world, maxTokens, asks);
      TaskCosts(budget.limits, s, world, maxTokens, asks, paid);
    }
  }

  lemma AfterTask(l: Limits, start: int, history: seq<Event>, world: nat -> Pass, maxTokens: nat, n: nat)
    ensures var s := Run(l, start, history);
            && After(l, s, world, maxTokens, n) == Run(l, start, WithTask(history, world, maxTokens, n))
            && (IsRun(l, start, history) && Orderly(world, s.now, maxTokens, n) ==>
                  IsRun(l, start, WithTask(history, world, maxTokens, n)))
            && (IsRun(l, start, history) && AllAfforded(l, start, history) && Orderly(world, s.now, maxTokens, n) ==>
                  Bounded(l, Run(l, start, WithTask(history, world, maxTokens, n))))
            && ((forall i :: 0 <= i < n ==> TokensOf(world(i).reply) <= maxTokens) ==>
                  After(l, s, world, maxTokens, n).spent.request <= Cap(l.request))
  {
    hide AllAfforded, IsRun, Bounded, WithTask, Run, After, Orderly, Cap;
    var s := Run(l, start, history);
    TaskContinuesRun(l, start, history, world, maxTokens, n);
    if IsRun(l, start, history) && AllAfforded(l, start, history) && Orderly(world, s.now, maxTokens, n) {
      TaskKeepsLimits(l, start, history, world, maxTokens, n);
    }
    if forall i :: 0 <= i < n ==> TokensOf(world(i).reply) <= maxTokens {
      TaskStaysWithinRequest(l, s, world, maxTokens, n);
    }
  }
}
