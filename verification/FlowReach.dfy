/** Which nodes runs can reach, and exactly when every run must end: the outcomes of conditions, guardrails and actions
    are free at every step, while the approval answer comes with the inputs and is one for the whole run. */
module FlowReach {
  import opened Common
  import opened Graph
  import opened FlowSpec
  import opened FlowRouting
  import opened FlowValidator
  import opened FlowInterpreter
  import opened FlowRuns
  import opened FlowTermination
  import Text

  predicate To(n: Node, outs: seq<Edge>, yes: bool, v: Id)
    requires Branches(ClassOf(n.kind))
  {
    PickNext(n, outs, Some(BranchName(ClassOf(n.kind), yes))) == Success(Some(v))
  }

  /** Some outcome at node u sends the cursor to v: by one more loop of a while node, or without. */
  predicate Leads(f: Flow, rejects: bool, u: Id, loop: bool, v: Id) {
    FindNode(f.nodes, u).Some? &&
    var n, outs := FindNode(f.nodes, u).value, OutEdges(f.edges, u);
    match ClassOf(n.kind)
    case If => !loop && (To(n, outs, true, v) || To(n, outs, false, v))
    case While => To(n, outs, loop, v)
    case Guardrails => !loop && !LacksText(n) && (To(n, outs, true, v) || (!n.continueOnError && To(n, outs, false, v)))
    case Approval => !loop && To(n, outs, !rejects, v)
    case End => false
    case Unknown => false
    case _ => !loop && PickNext(n, outs, None) == Success(Some(v))
  }

  /** The moves a run can make without taking a loop. */
  function Forward(f: Flow, rejects: bool): Rel {
    set e | e in f.edges && Leads(f, rejects, e.from, false, e.to) :: (e.from, e.to)
  }

  /** All moves a run can make. */
  function Ways(f: Flow, rejects: bool): Rel {
    set e | e in f.edges && (Leads(f, rejects, e.from, false, e.to) || Leads(f, rejects, e.from, true, e.to))
      :: (e.from, e.to)
  }

  lemma LeadsAlongEdge(f: Flow, rejects: bool, u: Id, loop: bool, v: Id)
    requires Leads(f, rejects, u, loop, v)
    ensures (u, v) in Ways(f, rejects) && (!loop ==> (u, v) in Forward(f, rejects))
    ensures loop ==> ClassAt(f, u) == Class.While
  {
    hide ClassOf, PickNext, BranchName;
    var n, outs := FindNode(f.nodes, u).value, OutEdges(f.edges, u);
    var branch :| PickNext(n, outs, branch) == Success(Some(v));
    var e :| e in outs && e.to == v;
    assert e in f.edges && e.from == u;
  }

  /** Every step goes some way; a step that does not go forward takes a loop. */
  lemma StepLeads(f: Flow, env: Env, k: nat, c: Config, c': Config)
    requires Steps(f, env, k, c, c')
    ensures (c.cursor, c'.cursor) in Ways(f, env.rejects)
    ensures (c.cursor, c'.cursor) in Forward(f, env.rejects) || TakesLoop(f, c, c')
  {
    var loop := StepLeadsBy(f, env, k, c, c');
    LeadsAlongEdge(f, env.rejects, c.cursor, loop, c'.cursor);
    hide Leads, Step, Ways, Forward;
  }

  lemma StepLeadsBy(f: Flow, env: Env, k: nat, c: Config, c': Config) returns (loop: bool)
    requires Steps(f, env, k, c, c')
    ensures Leads(f, env.rejects, c.cursor, loop, c'.cursor) && (loop ==> TakesLoop(f, c, c'))
  {
    hide ClassOf, PickNext, BranchName, LacksText;
    var n := FindNode(f.nodes, c.cursor).value;
    loop := ClassOf(n.kind) == Class.While && Done(c.iters, c.cursor) < Cap(n) && env.condition(k) == Some(true);
  }

  // ---- steering a run ----

  /** The environments agree on everything asked before step n. */
  ghost predicate AgreeBefore(env: Env, env': Env, n: nat) {
    && env.inputs == env'.inputs && env.rejects == env'.rejects
    && forall k :: 0 <= k < n ==>
         env.condition(k) == env'.condition(k) && env.verdict(k) == env'.verdict(k) && env.action(k) == env'.action(k)
  }

  lemma StepDepends(f: Flow, env: Env, env': Env, n: nat, k: nat, c: Config)
    requires AgreeBefore(env, env', n) && k < n
    ensures Step(f, env, k, c) == Step(f, env', k, c)
  {
    hide PickNext, ClassOf, BranchName;
    assert env.condition(k) == env'.condition(k) && env.verdict(k) == env'.verdict(k);
    assert env.action(k) == env'.action(k);
    forall n ensures Decide(n, env, k, c) == Decide(n, env', k, c) {
    }
  }

  lemma TraceDepends(f: Flow, env: Env, env': Env, t: seq<Config>)
    requires IsTrace(f, env, t) && AgreeBefore(env, env', |t| - 1)
    ensures IsTrace(f, env', t)
  {
    hide Step, AgreeBefore;
    forall i | 0 <= i < |t| - 1 ensures StepAt(f, env', t, i) {
      assert StepAt(f, env, t, i);
      StepDepends(f, env, env', |t| - 1, i, t[i]);
    }
  }

  /** At step k every question is answered with `yes`, and every action succeeds. */
  function Answering(env: Env, k: nat, yes: bool): Env {
    env.(condition := (i: nat) => if i == k then Some(yes) else env.condition(i),
      verdict := (i: nat) => if i == k then yes else env.verdict(i),
      action := (i: nat) => if i == k then Some("") else env.action(i))
  }

  /** Every way is open: some answer at this step takes it, if a loop is not asked for at the cap. */
  lemma SomeAnswerLeads(f: Flow, env: Env, k: nat, c: Config, loop: bool, v: Id) returns (yes: bool)
    requires Leads(f, env.rejects, c.cursor, loop, v)
    requires loop ==> Done(c.iters, c.cursor) < CapAt(f, c.cursor)
    ensures var o := Step(f, Answering(env, k, yes), k, c);
            && o.Next? && o.c.cursor == v
            && forall w :: w != c.cursor ==> Done(o.c.iters, w) == Done(c.iters, w)
  {
    hide ClassOf, PickNext, BranchName, LacksText;
    var n, outs := FindNode(f.nodes, c.cursor).value, OutEdges(f.edges, c.cursor);
    match ClassOf(n.kind) {
      case If => yes := To(n, outs, true, v);
      case While => yes := loop;
      case Guardrails => yes := To(n, outs, true, v);
      case _ => yes := true;
    }
  }

  /** A run can be continued any way that is open, by choosing the outcome of its next step. */
  lemma Continue(f: Flow, env: Env, t: seq<Config>, loop: bool, v: Id) returns (env': Env, c: Config)
    requires IsTrace(f, env, t) && Leads(f, env.rejects, t[|t| - 1].cursor, loop, v)
    requires loop ==> Done(t[|t| - 1].iters, t[|t| - 1].cursor) < CapAt(f, t[|t| - 1].cursor)
    ensures env'.rejects == env.rejects && IsTrace(f, env', t + [c]) && c.cursor == v
    ensures forall w :: w != t[|t| - 1].cursor ==> Done(c.iters, w) == Done(t[|t| - 1].iters, w)
  {
    hide Step, Leads, CapAt;
    var k := |t| - 1;
    var yes := SomeAnswerLeads(f, env, k, t[k], loop, v);
    env' := Answering(env, k, yes);
    TraceDepends(f, env, env', t);
    c := Step(f, env', k, t[k]).c;
    AppendStep(f, env', t, c);
  }

  // ---- reaching a node ----

  /** Cutting the detour between two visits of a node. */
  lemma CutDetour(E: Rel, p: seq<Id>, i: nat, j: nat)
    requires IsWalk(E, p) && i < j < |p| && p[i] == p[j]
    ensures var q := p[..i + 1] + p[j + 1..];
            IsWalk(E, q) && |q| < |p| && q[0] == p[0] && q[|q| - 1] == p[|p| - 1]
  {
    var q := p[..i + 1] + p[j + 1..];
    forall k | 0 <= k < |q| - 1 ensures Link(E, q, k) {
      if k < i {
        assert Link(E, p, k);
      } else {
        assert Link(E, p, k + j - i);
      }
    }
  }

  lemma {:induction false} SimpleWalk(E: Rel, p: seq<Id>) returns (q: seq<Id>)
    requires IsWalk(E, p)
    ensures IsWalk(E, q) && Distinct(q) && q[0] == p[0] && q[|q| - 1] == p[|p| - 1]
    decreases |p|
  {
    if Distinct(p) {
      q := p;
    } else {
      var i, j :| 0 <= i < j < |p| && p[i] == p[j];
      CutDetour(E, p, i, j);
      q := SimpleWalk(E, p[..i + 1] + p[j + 1..]);
    }
  }

  /** A run of any length, without the step guard, under this approval answer. */
  ghost predicate IsRun(f: Flow, rejects: bool, env: Env, t: seq<Config>) {
    env.rejects == rejects && IsTrace(f, env, t)
  }

  const Calm: Env := Env("", false, k => None, k => false, k => None)

  /** A way is open by a loop or without; a node that has a loop to take may take at least one. */
  lemma SomeWay(f: Flow, rejects: bool, u: Id, v: Id) returns (loop: bool)
    requires (u, v) in Ways(f, rejects)
    ensures Leads(f, rejects, u, loop, v) && (loop ==> CapAt(f, u) > 0)
  {
    hide Leads;
    loop := !Leads(f, rejects, u, false, v);
    if loop {
      LeadsAlongEdge(f, rejects, u, true, v);
    }
  }

  /** A run along a walk without repetitions: no while node has looped before it is met. */
  lemma {:induction false} RunAlong(f: Flow, rejects: bool, p: seq<Id>, m: nat) returns (env: Env, t: seq<Config>)
    requires Starts(f.nodes) != [] && IsWalk(Ways(f, rejects), p) && Distinct(p) && p[0] == Starts(f.nodes)[0].id
    requires m < |p|
    ensures IsRun(f, rejects, env, t) && |t| == m + 1 && t[m].cursor == p[m]
    ensures forall w :: w !in p[..m] ==> Done(t[m].iters, w) == 0
    decreases m
  {
    hide Step, Leads, Ways, CapAt;
    if m == 0 {
      env := Calm.(rejects := rejects);
      t := [Config(p[0], map[], [])];
    } else {
      env, t := RunAlong(f, rejects, p, m - 1);
      assert Link(Ways(f, rejects), p, m - 1);
      var loop := SomeWay(f, rejects, p[m - 1], p[m]);
      assert p[m - 1] !in p[..m - 1];
      var c;
      env, c := Continue(f, env, t, loop, p[m]);
      assert p[..m] == p[..m - 1] + [p[m - 1]];
      t := t + [c];
    }
  }

  ghost predicate Reachable(f: Flow, rejects: bool, x: Id) {
    Starts(f.nodes) != [] && Reaches(Ways(f, rejects), Starts(f.nodes)[0].id, x)
  }

  lemma ReachableIsReached(f: Flow, rejects: bool, x: Id) returns (env: Env, t: seq<Config>)
    requires Reachable(f, rejects, x)
    ensures t != [] && IsRun(f, rejects, env, t) && t[|t| - 1].cursor == x
  {
    hide Step, Ways;
    var p :| IsWalk(Ways(f, rejects), p) && p[0] == Starts(f.nodes)[0].id && p[|p| - 1] == x;
    var q := SimpleWalk(Ways(f, rejects), p);
    env, t := RunAlong(f, rejects, q, |q| - 1);
  }

  lemma {:induction false} ReachedIsReachable(f: Flow, env: Env, t: seq<Config>, i: nat)
    requires IsTrace(f, env, t) && i < |t|
    ensures Reachable(f, env.rejects, t[i].cursor)
    decreases i
  {
    hide Step, Ways, Reaches, Forward, TakesLoop;
    if i == 0 {
      ReachSelf(Ways(f, env.rejects), t[0].cursor);
    } else {
      ReachedIsReachable(f, env, t, i - 1);
      assert StepAt(f, env, t, i - 1);
      StepLeads(f, env, i - 1, t[i - 1], t[i]);
      ReachStep(Ways(f, env.rejects), Starts(f.nodes)[0].id, t[i - 1].cursor, t[i].cursor);
    }
  }

  /** Some run visits the node. */
  ghost predicate Visited(f: Flow, rejects: bool, x: Id) {
    exists env: Env, t: seq<Config> :: t != [] && IsRun(f, rejects, env, t) && t[|t| - 1].cursor == x
  }

  /** Runs visit exactly the nodes to which ways lead from the start. */
  lemma VisitedIff(f: Flow, rejects: bool, x: Id)
    ensures Visited(f, rejects, x) <==> Reachable(f, rejects, x)
  {
    hide IsTrace, Reachable;
    if Reachable(f, rejects, x) {
      var env, t := ReachableIsReached(f, rejects, x);
    }
    if Visited(f, rejects, x) {
      var env: Env, t: seq<Config> :| t != [] && IsRun(f, rejects, env, t) && t[|t| - 1].cursor == x;
      ReachedIsReachable(f, env, t, |t| - 1);
    }
  }

  // ---- whether runs end ----

  /** A cycle of forward moves that runs can reach. */
  ghost predicate HasLiveCycle(f: Flow, rejects: bool) {
    exists p :: IsLiveCycle(f, rejects, p)
  }

  ghost predicate IsLiveCycle(f: Flow, rejects: bool, p: seq<Id>) {
    IsCycle(Forward(f, rejects), p) && Reachable(f, rejects, p[0])
  }

  /** Once on a cycle of forward moves a run can go round it for any number of steps. */
  lemma {:induction false} GoRound(f: Flow, env: Env, t: seq<Config>, p: seq<Id>, i: nat, n: nat)
    returns (env': Env, t': seq<Config>)
    requires IsTrace(f, env, t) && IsCycle(Forward(f, env.rejects), p) && i < |p| - 1 && t[|t| - 1].cursor == p[i]
    ensures env'.rejects == env.rejects && IsTrace(f, env', t') && |t'| == |t| + n
    decreases n
  {
    hide IsTrace, Leads, IsCycle;
    env', t' := env, t;
    if n > 0 {
      NextOnCycle(f, env.rejects, p, i);
      var c;
      env', c := Continue(f, env, t, false, p[i + 1]);
      var next := if i + 1 < |p| - 1 then i + 1 else 0;
      env', t' := GoRound(f, env', t + [c], p, next, n - 1);
    }
  }

  lemma NextOnCycle(f: Flow, rejects: bool, p: seq<Id>, i: nat)
    requires IsCycle(Forward(f, rejects), p) && i < |p| - 1
    ensures Leads(f, rejects, p[i], false, p[i + 1]) && p[0] == p[|p| - 1]
  {
    hide Leads;
    assert Link(Forward(f, rejects), p, i);
  }

  /** The forward moves from reachable nodes. */
  function LiveMoves(f: Flow, rejects: bool, live: set<Id>): Rel {
    set e | e in Forward(f, rejects) && e.0 in live
  }

  lemma CycleIsLive(f: Flow, rejects: bool, live: set<Id>, p: seq<Id>)
    requires IsCycle(LiveMoves(f, rejects, live), p) && forall x :: x in live ==> Reachable(f, rejects, x)
    ensures IsLiveCycle(f, rejects, p)
  {
    hide Reachable, Forward;
    assert Link(LiveMoves(f, rejects, live), p, 0);
    forall i | 0 <= i < |p| - 1 ensures Link(Forward(f, rejects), p, i) {
      assert Link(LiveMoves(f, rejects, live), p, i);
    }
  }

  lemma LiveMovesAreAcyclic(f: Flow, rejects: bool, live: set<Id>)
    requires !HasLiveCycle(f, rejects) && forall x :: x in live ==> Reachable(f, rejects, x)
    ensures Acyclic(LiveMoves(f, rejects, live))
  {
    hide Reachable, IsCycle, IsLiveCycle;
    forall p ensures !IsCycle(LiveMoves(f, rejects, live), p) {
      if IsCycle(LiveMoves(f, rejects, live), p) {
        CycleIsLive(f, rejects, live, p);
      }
    }
  }

  lemma RunsAlongLiveMoves(f: Flow, env: Env, t: seq<Config>, live: set<Id>)
    requires IsTrace(f, env, t) && forall i :: 0 <= i < |t| ==> t[i].cursor in live
    ensures Along(f, LiveMoves(f, env.rejects, live), t)
  {
    hide Step, Forward, TakesLoop;
    forall i | 0 <= i < |t| - 1 ensures GoesAlong(f, LiveMoves(f, env.rejects, live), t, i) {
      assert StepAt(f, env, t, i);
      StepLeads(f, env, i, t[i], t[i + 1]);
    }
  }

  ghost predicate AllRunsEnd(f: Flow, rejects: bool) {
    forall env: Env, t: seq<Config> :: IsRun(f, rejects, env, t) ==> |t| <= StepBound(f)
  }

  lemma WithoutLiveCycleRunsEnd(f: Flow, env: Env, t: seq<Config>)
    requires !HasLiveCycle(f, env.rejects) && IsTrace(f, env, t)
    ensures |t| <= StepBound(f)
  {
    hide IsTrace, Reachable, HasLiveCycle, StepBound;
    var live := set i | 0 <= i < |t| :: t[i].cursor;
    forall x | x in live ensures Reachable(f, env.rejects, x) {
      var i :| 0 <= i < |t| && t[i].cursor == x;
      ReachedIsReachable(f, env, t, i);
    }
    LiveMovesAreAcyclic(f, env.rejects, live);
    RunsAlongLiveMoves(f, env, t, live);
    RunIsBounded(f, LiveMoves(f, env.rejects, live), env, t);
  }

  ghost predicate SomeRunHas(f: Flow, rejects: bool, n: nat) {
    exists env: Env, t: seq<Config> :: IsRun(f, rejects, env, t) && |t| >= n
  }

  lemma LiveCycleGoesOn(f: Flow, rejects: bool, n: nat) returns (env: Env, t: seq<Config>)
    requires HasLiveCycle(f, rejects)
    ensures IsRun(f, rejects, env, t) && |t| >= n
  {
    hide IsTrace, Reachable;
    var p :| IsLiveCycle(f, rejects, p);
    env, t := ReachableIsReached(f, rejects, p[0]);
    env, t := GoRound(f, env, t, p, 0, n);
  }

  /** Without the step guard every run ends, within the product bound, if and only if no cycle of moves other than
      loops can be reached; otherwise some run goes on for any number of steps. */
  lemma AllRunsEndIff(f: Flow, rejects: bool)
    ensures AllRunsEnd(f, rejects) <==> !HasLiveCycle(f, rejects)
    ensures HasLiveCycle(f, rejects) ==>
              forall n: nat :: SomeRunHas(f, rejects, n)
  {
    hide IsTrace, HasLiveCycle, StepBound;
    if HasLiveCycle(f, rejects) {
      forall n: nat ensures SomeRunHas(f, rejects, n) {
        var env, t := LiveCycleGoesOn(f, rejects, n);
      }
      var env, t := LiveCycleGoesOn(f, rejects, StepBound(f) + 1);
    } else {
      forall env: Env, t: seq<Config> | IsRun(f, rejects, env, t) ensures |t| <= StepBound(f) {
        WithoutLiveCycleRunsEnd(f, env, t);
      }
    }
  }

  /** It suffices that every cycle of the flow uses a loop edge, which needs no look at answers or reachability. */
  lemma LoopCyclesAreNotLive(f: Flow, rejects: bool)
    requires Acyclic(WithoutLoops(f))
    ensures !HasLiveCycle(f, rejects)
  {
    hide IsTrace, HasLiveCycle, StepBound, Acyclic;
    forall env: Env, t: seq<Config> | IsRun(f, rejects, env, t) ensures |t| <= StepBound(f) {
      RunsHalt(f, env, t);
    }
    AllRunsEndIff(f, rejects);
  }

  // ---- where runs fail on a validated flow ----

  /** Some run ends at node x with this error. */
  ghost predicate SomeRunFails(f: Flow, rejects: bool, x: Id, e: FlowError) {
    exists env: Env, t: seq<Config> ::
      t != [] && IsRun(f, rejects, env, t) && t[|t| - 1].cursor == x && Step(f, env, |t| - 1, t[|t| - 1]) == Fail(e)
  }

  lemma LastStepOf(f: Flow, env: Env, t: seq<Config>)
    requires NoDangling(f) && Accepts(f) && t != [] && IsTrace(f, env, t)
    ensures t[|t| - 1].cursor in Ids(f)
    ensures FailsOnlyOutside(f, t[|t| - 1], Step(f, env, |t| - 1, t[|t| - 1]))
    ensures Reachable(f, env.rejects, t[|t| - 1].cursor)
  {
    hide Step, Reachable, FailsOnlyOutside, Accepts;
    ValidatedRunProgresses(f, env, t, |t| - 1);
    ReachedIsReachable(f, env, t, |t| - 1);
  }

  /** On a validated flow some run fails with ambiguous edges exactly at the notes with ambiguous edges that runs can
      reach, and some run meets an unknown kind exactly at the nodes of unknown kind that runs can reach. */
  lemma RunFailsIff(f: Flow, rejects: bool, x: Id)
    requires NoDangling(f) && Accepts(f)
    ensures SomeRunFails(f, rejects, x, AmbiguousEdges(x)) <==>
            Reachable(f, rejects, x) && ClassAt(f, x) == Note && Ambiguous(OutEdges(f.edges, x))
    ensures SomeRunFails(f, rejects, x, UnknownKind(x)) <==> Reachable(f, rejects, x) && ClassAt(f, x) == Unknown
  {
    hide Step, Reachable, Accepts, ClassAt, Ambiguous, OutEdges, IsTrace;
    forall env: Env, t: seq<Config> | t != [] && IsRun(f, rejects, env, t)
      ensures Reachable(f, rejects, t[|t| - 1].cursor)
      ensures FailsOnlyOutside(f, t[|t| - 1], Step(f, env, |t| - 1, t[|t| - 1]))
    {
      LastStepOf(f, env, t);
    }
    if Reachable(f, rejects, x) {
      var env, t := ReachableIsReached(f, rejects, x);
      LastStepOf(f, env, t);
      UnknownFails(f, env, |t| - 1, t[|t| - 1]);
    }
  }

  lemma UnknownFails(f: Flow, env: Env, k: nat, c: Config)
    requires c.cursor in Ids(f)
    ensures ClassAt(f, c.cursor) == Unknown ==> Step(f, env, k, c) == Fail(UnknownKind(c.cursor))
  {
    hide ClassOf, PickNext;
  }

  // ---- an accepted flow that fails at a note ----

  function Simple(id: Id, kind: string): Node {
    Node(id, kind, false, 0, "", "", false, "", "", "", "")
  }

  const S := Simple("s", "start")
  const N := Simple("n", "note")
  const A := Simple("a", "end")
  const SN := Edge("s", "n", None)
  const NA := Edge("n", "a", None)

  /** A start, a note with two edges, and an end. */
  const ForkedNote: Flow := Flow([S, N, A], [SN, NA, NA])

  lemma KindsOfForkedNote()
    ensures ClassOf(S.kind) == Start && ClassOf(N.kind) == Note && ClassOf(A.kind) == End
    ensures IsStart(S) && !IsStart(N) && !IsStart(A)
  {
    Text.LowerFixes("start");
    Text.LowerFixes("note");
    Text.LowerFixes("end");
  }

  lemma EdgesOfForkedNote(u: Id)
    ensures OutEdges(ForkedNote.edges, u) == (if "s" == u then [SN] else []) + if "n" == u then [NA, NA] else []
  {
    hide OutEdges;
    assert [] + [SN] == [SN] && [SN] + [NA] == [SN, NA] && [SN, NA] + [NA] == [SN, NA, NA];
    NoOutEdges(u);
    OutEdgesOfOneMore([], SN, u);
    OutEdgesOfOneMore([SN], NA, u);
    OutEdgesOfOneMore([SN, NA], NA, u);
  }

  lemma NoOutEdges(u: Id)
    ensures OutEdges([], u) == []
  {
  }

  lemma NodesOfForkedNote()
    ensures FindNode(ForkedNote.nodes, "s") == Some(S) && FindNode(ForkedNote.nodes, "n") == Some(N)
    ensures forall n :: n in ForkedNote.nodes <==> n in {S, N, A}
  {
    hide FindNode;
    var ns := ForkedNote.nodes;
    assert IsFirstWith(ns, "s", 0) && IsFirstWith(ns, "n", 1);
    FirstNodeIsFound(ns, "s", 0);
    FirstNodeIsFound(ns, "n", 1);
  }

  lemma ForkedNoteStarts()
    ensures Starts(ForkedNote.nodes) == [S]
  {
    KindsOfForkedNote();
    hide IsStart;
    var ns := ForkedNote.nodes;
    assert ns == [S] + [N] + [A] && ns[1..] == [N, A] && ns[1..][1..] == [A] && ns[1..][1..][1..] == [];
    assert Starts([A]) == [] && Starts([N, A]) == [];
  }

  lemma NoteIsForked()
    ensures Ambiguous([NA, NA]) && PickNext(S, [SN], None) == Success(Some("n"))
  {
    KindsOfForkedNote();
    hide ClassOf;
    assert [NA, NA][1..] == [NA] && [NA][1..] == [];
    assert Matching([NA], IsUnlabeled) == [NA] && Matching([NA], IsDefault) == [];
  }

  lemma NodesAreOk()
    ensures NodeOk(ForkedNote, S) && NodeOk(ForkedNote, A)
  {
    KindsOfForkedNote();
    EdgesOfForkedNote("s");
    EdgesOfForkedNote("a");
    hide ClassOf, OutEdges;
  }

  lemma ForkedNoteIsConnected()
    ensures NoDangling(ForkedNote)
    ensures Reaches(Arcs(ForkedNote.edges), "s", "s") && Reaches(Arcs(ForkedNote.edges), "s", "a")
  {
    var f := ForkedNote;
    assert S in f.nodes && N in f.nodes && A in f.nodes;
    assert S.id in Ids(f) && N.id in Ids(f) && A.id in Ids(f);
    assert SN in f.edges && NA in f.edges;
    assert (SN.from, SN.to) in Arcs(f.edges) && (NA.from, NA.to) in Arcs(f.edges);
    hide Reaches, Arcs, Ids;
    ReachSelf(Arcs(f.edges), "s");
    ReachStep(Arcs(f.edges), "s", "s", "n");
    ReachStep(Arcs(f.edges), "s", "n", "a");
  }

  /** The static check accepts it. */
  lemma ForkedNoteIsAccepted()
    ensures Runnable(ForkedNote) && HasInterpreterStart(ForkedNote)
  {
    hide ClassOf, NodeOk, OutEdges, Reaches, Arcs, IsStart, NoDangling, Starts;
    KindsOfForkedNote();
    NodesOfForkedNote();
    ForkedNoteStarts();
    NodesAreOk();
    EdgesOfForkedNote("s");
    ForkedNoteIsConnected();
    assert S in ForkedNote.nodes;
  }

  /** And yet it can fail: the check does not look at notes. */
  lemma AcceptedFlowFailsAtNote()
    ensures SomeRunFails(ForkedNote, false, "n", AmbiguousEdges("n"))
  {
    ForkedNoteIsAccepted();
    NodesOfForkedNote();
    ForkedNoteStarts();
    KindsOfForkedNote();
    EdgesOfForkedNote("s");
    EdgesOfForkedNote("n");
    NoteIsForked();
    assert [SN] + [] == [SN] && [] + [NA, NA] == [NA, NA];
    assert OutEdges(ForkedNote.edges, "s") == [SN];
    hide Accepts, Ways, Starts, Ambiguous, SomeRunFails, ClassOf, FindNode, OutEdges, PickNext, Reaches;
    LeadsAlongEdge(ForkedNote, false, "s", false, "n");
    ReachSelf(Ways(ForkedNote, false), "s");
    ReachStep(Ways(ForkedNote, false), "s", "s", "n");
    RunFailsIff(ForkedNote, false, "n");
  }
}
