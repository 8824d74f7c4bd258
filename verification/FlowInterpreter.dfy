/** The graph interpreter: one cursor, branch decisions, and per-while counters that reset on exit. */
module FlowInterpreter {
  import opened Common
  import opened Graph
  import opened FlowSpec
  import opened FlowRouting
  import opened FlowValidator
  import Text

  const MAX_STEPS := 10_000
  const DEFAULT_ITERATIONS := 100

  /** Everything the outside world decides, indexed by step: condition results (None is an evaluation error),
      guardrail verdicts, action outputs (None is a failure), and the approval answer in the inputs. */
  datatype Env = Env(
    inputs: string,
    rejects: bool,
    condition: nat -> Option<bool>,
    verdict: nat -> bool,
    action: nat -> Option<string>)

  datatype Record =
    | Visit(id: Id, output: Option<string>)
    | Branch(id: Id, branch: string)
    | Loop(id: Id, iteration: nat)
    | Exit(id: Id, maxed: bool)

  datatype Config = Config(cursor: Id, iters: map<Id, nat>, steps: seq<Record>)

  datatype Outcome = Next(c: Config) | Halt(steps: seq<Record>) | Fail(error: FlowError)

  /** What running one node decides: the branch to take with the new counters and records, or an early end. */
  datatype Decision =
    | Take(branch: Option<string>, iters: map<Id, nat>, steps: seq<Record>)
    | Stop(final: seq<Record>)
    | Abort(error: FlowError)

  function Cap(n: Node): (c: nat)
    ensures c >= 1
  {
    if n.maxIterations == 0 then DEFAULT_ITERATIONS else n.maxIterations
  }

  function Done(iters: map<Id, nat>, id: Id): nat {
    if id in iters then iters[id] else 0
  }

  function DecideWhile(n: Node, cond: Option<bool>, c: Config): Decision {
    var done := Done(c.iters, c.cursor);
    var exit := Some(BranchName(While, false));
    if done >= Cap(n) then Take(exit, c.iters - {c.cursor}, c.steps + [Exit(c.cursor, true)])
    else if cond.None? then Abort(StepFailed(n.id))
    else if cond.value then
      Take(Some(BranchName(While, true)), c.iters[c.cursor := done + 1], c.steps + [Loop(c.cursor, done)])
    else Take(exit, c.iters - {c.cursor}, c.steps + [Exit(c.cursor, false)])
  }

  function Choose(cls: Class, yes: bool, c: Config): Decision
    requires Branches(cls)
  {
    var name := BranchName(cls, yes);
    Take(Some(name), c.iters, c.steps + [Branch(c.cursor, name)])
  }

  function LacksText(n: Node): bool {
    Text.Trim(n.guardrailTemplate) == "" && Text.Trim(n.sourceNodeId) == ""
  }

  function Decide(n: Node, env: Env, k: nat, c: Config): Decision {
    match ClassOf(n.kind)
    case Note => Take(None, c.iters, c.steps)
    case Start => Take(None, c.iters, c.steps + [Visit(c.cursor, Some(env.inputs))])
    case End => Stop(c.steps + [Visit(c.cursor, None)])
    case Approval => Choose(Approval, !env.rejects, c)
    case If =>
      if env.condition(k).None? then Abort(StepFailed(n.id))
      else Choose(If, env.condition(k).value, c)
    case While => DecideWhile(n, env.condition(k), c)
    case Guardrails =>
      if LacksText(n) then Abort(NeedsGuardrailSource(n.id))
      else Choose(Guardrails, env.verdict(k) || n.continueOnError, c)
    case Unknown => Abort(UnknownKind(n.id))
    case _ =>
      if env.action(k).None? then Abort(StepFailed(n.id))
      else Take(None, c.iters, c.steps + [Visit(c.cursor, env.action(k))])
  }

  function Follow(n: Node, outs: seq<Edge>, d: Decision): Outcome {
    match d
    case Abort(e) => Fail(e)
    case Stop(steps) => Halt(steps)
    case Take(branch, iters, steps) =>
      match PickNext(n, outs, branch)
      case Failure(e) => Fail(e)
      case Success(None) => Halt(steps)
      case Success(Some(to)) => Next(Config(to, iters, steps))
  }

  /** One iteration of the interpreter loop. */
  function Step(f: Flow, env: Env, k: nat, c: Config): Outcome {
    var found := FindNode(f.nodes, c.cursor);
    if found.None? then Fail(MissingNode(c.cursor))
    else Follow(found.value, OutEdges(f.edges, c.cursor), Decide(found.value, env, k, c))
  }

  /** A run without the step guard: the configurations at the loop head, starting at the start node. */
  ghost predicate IsTrace(f: Flow, env: Env, t: seq<Config>) {
    && t != [] && Starts(f.nodes) != []
    && t[0] == Config(Starts(f.nodes)[0].id, map[], [])
    && forall i :: 0 <= i < |t| - 1 ==> StepAt(f, env, t, i)
  }

  ghost predicate StepAt(f: Flow, env: Env, t: seq<Config>, i: nat)
    requires i + 1 < |t|
  {
    Steps(f, env, i, t[i], t[i + 1])
  }

  ghost predicate Steps(f: Flow, env: Env, k: nat, c: Config, c': Config) {
    Step(f, env, k, c) == Next(c')
  }

  /** The work of one node, in the order the interpreter does it. */
  method Execute(n: Node, env: Env, k: nat, c: Config) returns (d: Decision)
    ensures d == Decide(n, env, k, c)
  {
    var cur, iters, steps := c.cursor, c.iters, c.steps;
    var branch: Option<string> := None;
    match ClassOf(n.kind) {
      case Note =>
      case Start =>
        steps := steps + [Visit(cur, Some(env.inputs))];
      case End =>
        return Stop(steps + [Visit(cur, None)]);
      case Approval =>
        branch := Some(if env.rejects then "reject" else "approve");
        steps := steps + [Branch(cur, branch.value)];
      case If =>
        var cond := env.condition(k);
        if cond.None? {
          return Abort(StepFailed(n.id));
        }
        branch := Some(if cond.value then "true" else "false");
        steps := steps + [Branch(cur, branch.value)];
      case While =>
        var done := if cur in iters then iters[cur] else 0;
        if done >= Cap(n) {
          return Take(Some("exit"), iters - {cur}, steps + [Exit(cur, true)]);
        }
        var cond := env.condition(k);
        if cond.None? {
          return Abort(StepFailed(n.id));
        }
        if !cond.value {
          return Take(Some("exit"), iters - {cur}, steps + [Exit(cur, false)]);
        }
        iters := iters[cur := done + 1];
        branch, steps := Some("loop"), steps + [Loop(cur, done)];
      case Guardrails =>
        if LacksText(n) {
          return Abort(NeedsGuardrailSource(n.id));
        }
        var pass := env.verdict(k);
        if !pass && n.continueOnError {
          pass := true;
        }
        branch := Some(if pass then "pass" else "fail");
        steps := steps + [Branch(cur, branch.value)];
      case Unknown =>
        return Abort(UnknownKind(n.id));
      case _ =>
        var output := env.action(k);
        if output.None? {
          return Abort(StepFailed(n.id));
        }
        steps := steps + [Visit(cur, output)];
    }
    return Take(branch, iters, steps);
  }

  /** What the caller gets when the last step of a run had this outcome; a run that could go on hit the guard. */
  function Report(last: Outcome): Result<seq<Record>, FlowError> {
    match last
    case Halt(steps) => Success(steps)
    case Fail(e) => Failure(e)
    case Next(_) => Failure(MaxStepsExceeded)
  }

  /** The run `t` ends the way `r` says, and goes on only if the guard cut it off. */
  ghost predicate Explains(f: Flow, env: Env, t: seq<Config>, r: Result<seq<Record>, FlowError>) {
    && IsTrace(f, env, t) && |t| <= 10_000
    && var last := Step(f, env, |t| - 1, t[|t| - 1]);
       r == Report(last) && (last.Next? ==> |t| == 10_000)
  }

  method RunInterpreter(f: Flow, env: Env) returns (r: Result<seq<Record>, FlowError>)
    ensures Starts(f.nodes) == [] ==> r == Failure(WrongStartCount(0))
    ensures Starts(f.nodes) != [] ==> exists t :: Explains(f, env, t, r)
  {
    hide ClassOf, Decide, PickNext, Starts, OutEdges;
    if Starts(f.nodes) == [] {
      return Failure(WrongStartCount(0));
    }
    var adj := OutgoingMap(f);
    var cursor := Some(Starts(f.nodes)[0].id);
    var iters: map<Id, nat> := map[];
    var steps: seq<Record> := [];
    var guard := 0;
    ghost var t: seq<Config> := [];
    while cursor.Some?
      invariant guard == |t| <= MAX_STEPS
      invariant cursor.Some? ==> IsTrace(f, env, t + [Config(cursor.value, iters, steps)])
      invariant cursor.None? ==> IsTrace(f, env, t) && Step(f, env, |t| - 1, t[|t| - 1]) == Halt(steps)
      decreases MAX_STEPS - guard
    {
      var cur := cursor.value;
      guard := guard + 1;
      if guard > MAX_STEPS {
        DropLast(f, env, t, Config(cur, iters, steps));
        r := Failure(MaxStepsExceeded);
        assert Explains(f, env, t, r);
        return;
      }
      t := t + [Config(cur, iters, steps)];
      var found := FindNode(f.nodes, cur);
      if found.None? {
        r := Failure(MissingNode(cur));
        assert Explains(f, env, t, r);
        return;
      }
      var d := Execute(found.value, env, guard - 1, Config(cur, iters, steps));
      ghost var here := Step(f, env, |t| - 1, t[|t| - 1]);
      assert here == Follow(found.value, Lookup(adj, cur), d);
      if d.Abort? {
        r := Failure(d.error);
        assert Explains(f, env, t, r);
        return;
      }
      if d.Stop? {
        r := Success(d.final);
        assert Explains(f, env, t, r);
        return;
      }
      iters, steps := d.iters, d.steps;
      var next := PickNext(found.value, Lookup(adj, cur), d.branch);
      if next.Failure? {
        r := Failure(next.error);
        assert Explains(f, env, t, r);
        return;
      }
      cursor := next.value;
      if cursor.Some? {
        AppendStep(f, env, t, Config(cursor.value, iters, steps));
      }
    }
    r := Success(steps);
    assert Explains(f, env, t, r);
    return;
  }

  lemma AppendStep(f: Flow, env: Env, t: seq<Config>, c: Config)
    requires IsTrace(f, env, t) && Step(f, env, |t| - 1, t[|t| - 1]) == Next(c)
    ensures IsTrace(f, env, t + [c])
  {
    hide Step;
    var t' := t + [c];
    forall i | 0 <= i < |t| ensures StepAt(f, env, t', i) {
      assert i < |t| - 1 ==> StepAt(f, env, t, i);
    }
  }

  lemma DropLast(f: Flow, env: Env, t: seq<Config>, c: Config)
    requires t != [] && IsTrace(f, env, t + [c])
    ensures IsTrace(f, env, t) && Step(f, env, |t| - 1, t[|t| - 1]) == Next(c)
  {
    hide Step;
    var t' := t + [c];
    assert StepAt(f, env, t', |t| - 1);
    forall i | 0 <= i < |t| - 1 ensures StepAt(f, env, t, i) {
      assert StepAt(f, env, t', i);
    }
  }
}
