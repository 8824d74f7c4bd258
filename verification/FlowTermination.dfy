/** Why interpreter runs end: with the loop edges of while nodes taken out the graph has an order, and
    the remaining iterations together with the cursor's position count down in mixed radix. */
module FlowTermination {
  import opened Common
  import opened Graph
  import opened FlowSpec
  import opened FlowRouting
  import opened FlowValidator
  import opened FlowInterpreter
  import opened FlowRuns
  import FlowOrder

  /** The value of digits `a` in the mixed radix `w`, least significant digit first. */
  function Value(w: seq<nat>, a: seq<nat>): nat
    requires |a| == |w|
  {
    if w == [] then 0 else a[0] + w[0] * Value(w[1..], a[1..])
  }

  function Product(w: seq<nat>): nat {
    if w == [] then 1 else w[0] * Product(w[1..])
  }

  ghost predicate Digits(w: seq<nat>, a: seq<nat>) {
    |a| == |w| && forall j :: 0 <= j < |w| ==> a[j] < w[j]
  }

  lemma MulMono(w: nat, x: nat, y: nat)
    requires x < y
    ensures w * x + w <= w * y
  {
    assert w * (x + 1) <= w * y;
  }

  lemma {:induction false} ValueBelowProduct(w: seq<nat>, a: seq<nat>)
    requires Digits(w, a)
    ensures Value(w, a) < Product(w)
  {
    if w != [] {
      ValueBelowProduct(w[1..], a[1..]);
      MulMono(w[0], Value(w[1..], a[1..]), Product(w[1..]));
    }
  }

  lemma {:induction false} ValueMono(w: seq<nat>, a: seq<nat>, b: seq<nat>)
    requires |a| == |w| == |b|
    requires forall j :: 0 <= j < |w| ==> b[j] <= a[j]
    ensures Value(w, b) <= Value(w, a)
  {
    if w != [] {
      ValueMono(w[1..], a[1..], b[1..]);
      if Value(w[1..], b[1..]) < Value(w[1..], a[1..]) {
        MulMono(w[0], Value(w[1..], b[1..]), Value(w[1..], a[1..]));
      }
    }
  }

  /** A smaller digit beats everything less significant, as long as no more significant digit grows. */
  lemma {:induction false} ValueDecreases(w: seq<nat>, a: seq<nat>, b: seq<nat>, k: nat)
    requires |a| == |w| && Digits(w, b) && k < |w| && b[k] < a[k]
    requires forall j :: k < j < |w| ==> b[j] <= a[j]
    ensures Value(w, b) < Value(w, a)
  {
    if k == 0 {
      ValueMono(w[1..], a[1..], b[1..]);
      if Value(w[1..], b[1..]) < Value(w[1..], a[1..]) {
        MulMono(w[0], Value(w[1..], b[1..]), Value(w[1..], a[1..]));
      }
    } else {
      ValueDecreases(w[1..], a[1..], b[1..], k - 1);
      MulMono(w[0], Value(w[1..], b[1..]), Value(w[1..], a[1..]));
    }
  }

  predicate IsLoopEdge(f: Flow, e: Edge) {
    ClassAt(f, e.from) == Class.While && NormalizeLabel(e.tag) == Some("loop")
  }

  /** The graph without the loop edges of while nodes. */
  function WithoutLoops(f: Flow): Rel {
    set e | e in f.edges && !IsLoopEdge(f, e) :: (e.from, e.to)
  }

  function CapAt(f: Flow, u: Id): nat {
    if ClassAt(f, u) == Class.While then Cap(FindNode(f.nodes, u).value) else 0
  }

  /** Two for every loop a node may still take, two for the cursor being before it or not. */
  function Weight(f: Flow, u: Id): nat {
    2 * CapAt(f, u) + 2
  }

  /** Every id a cursor can hold. */
  function Places(f: Flow): set<Id> {
    Ids(f) + set e | e in f.edges :: e.to
  }

  ghost function Weights(f: Flow, order: seq<Id>): seq<nat> {
    seq(|order|, i requires 0 <= i < |order| => Weight(f, order[i]))
  }

  ghost predicate WithinCaps(f: Flow, iters: map<Id, nat>) {
    forall u :: ClassAt(f, u) == Class.While ==> Done(iters, u) <= CapAt(f, u)
  }

  ghost function Remaining(f: Flow, iters: map<Id, nat>, u: Id): nat
    requires WithinCaps(f, iters)
  {
    if ClassAt(f, u) == Class.While then CapAt(f, u) - Done(iters, u) else 0
  }

  /** Digit i counts the loops node i may still take, and whether the cursor is before it. */
  ghost function Measure(f: Flow, order: seq<Id>, c: Config): (a: seq<nat>)
    requires WithinCaps(f, c.iters) && c.cursor in order
    ensures Digits(Weights(f, order), a)
  {
    var pos := IndexOf(order, c.cursor);
    seq(|order|, i requires 0 <= i < |order| =>
      2 * Remaining(f, c.iters, order[i]) + if pos < i then 1 else 0)
  }

  lemma TraceWithinCaps(f: Flow, env: Env, t: seq<Config>, i: nat)
    requires IsTrace(f, env, t) && i < |t|
    ensures WithinCaps(f, t[i].iters)
  {
    var s := t[..i + 1];
    forall j | 0 <= j < i ensures StepAt(f, env, s, j) {
      assert StepAt(f, env, t, j);
    }
    forall u | ClassAt(f, u) == Class.While ensures Done(t[i].iters, u) <= CapAt(f, u) {
      var _, _ := WhileRecordsAreBlocks(f, env, s, u);
    }
  }

  /** The step took one more loop of the while node it left. */
  predicate TakesLoop(f: Flow, c: Config, c': Config) {
    ClassAt(f, c.cursor) == Class.While && Done(c'.iters, c.cursor) == Done(c.iters, c.cursor) + 1
  }

  /** A step either moves along an edge kept by `WithoutLoops`, changing at most the counter of the node it
      leaves, or takes one more loop of the while node it leaves. */
  lemma StepProgress(f: Flow, env: Env, k: nat, c: Config, c': Config)
    requires Steps(f, env, k, c, c')
    ensures forall u :: u != c.cursor && ClassAt(f, u) == Class.While ==> Done(c'.iters, u) == Done(c.iters, u)
    ensures c'.cursor in Places(f)
    ensures (c.cursor, c'.cursor) in WithoutLoops(f) || TakesLoop(f, c, c')
  {
    hide ClassOf, Decide, Step, Logged;
    StepIsRouted(f, env, k, c, c');
    StepCounters(f, env, k, c, c');
    var e :| e in f.edges && e.from == c.cursor && e.to == c'.cursor
      && (Branches(ClassAt(f, c.cursor)) ==>
            c'.steps != [] && NormalizeLabel(e.tag) == Taken(c'.steps[|c'.steps| - 1]));
    if ClassAt(f, c.cursor) == Class.While {
      WhileDecision(FindNode(f.nodes, c.cursor).value, env, k, c);
    }
  }

  /** Every step that leaves an order intact, or takes a loop, lowers the measure. */
  lemma MeasureDecreases(f: Flow, E: Rel, order: seq<Id>, env: Env, k: nat, c: Config, c': Config)
    requires Respects(order, E) && Distinct(order) && Elems(order) == Places(f)
    requires Steps(f, env, k, c, c') && WithinCaps(f, c.iters) && WithinCaps(f, c'.iters)
    requires c.cursor in order && ((c.cursor, c'.cursor) in E || TakesLoop(f, c, c'))
    ensures c'.cursor in order
    ensures Value(Weights(f, order), Measure(f, order, c')) < Value(Weights(f, order), Measure(f, order, c))
  {
    StepProgress(f, env, k, c, c');
    assert c'.cursor in Elems(order);
    hide Step, ClassAt, Value, Places, WithoutLoops;
    var from, to := IndexOf(order, c.cursor), IndexOf(order, c'.cursor);
    if (c.cursor, c'.cursor) in E {
      assert (order[from], order[to]) in E;
      ForwardDigits(f, order, c, c');
      ValueDecreases(Weights(f, order), Measure(f, order, c), Measure(f, order, c'), to);
    } else {
      LoopDigits(f, order, c, c');
      ValueDecreases(Weights(f, order), Measure(f, order, c), Measure(f, order, c'), from);
    }
  }

  /** Moving forward clears the bit of the node moved to, and raises nothing behind it. */
  lemma ForwardDigits(f: Flow, order: seq<Id>, c: Config, c': Config)
    requires Distinct(order) && WithinCaps(f, c.iters) && WithinCaps(f, c'.iters)
    requires c.cursor in order && c'.cursor in order && IndexOf(order, c.cursor) < IndexOf(order, c'.cursor)
    requires forall u :: u != c.cursor && ClassAt(f, u) == Class.While ==> Done(c'.iters, u) == Done(c.iters, u)
    ensures var a, b, to := Measure(f, order, c), Measure(f, order, c'), IndexOf(order, c'.cursor);
            b[to] < a[to] && forall j :: to < j < |order| ==> b[j] <= a[j]
  {
    hide ClassAt, CapAt, Weight;
    var from := IndexOf(order, c.cursor);
    assert forall i :: 0 <= i < |order| && i != from ==> order[i] != c.cursor;
  }

  /** A loop takes two off the digit of its node, and leaves the counters of all others alone. */
  lemma LoopDigits(f: Flow, order: seq<Id>, c: Config, c': Config)
    requires Distinct(order) && WithinCaps(f, c.iters) && WithinCaps(f, c'.iters)
    requires c.cursor in order && c'.cursor in order && TakesLoop(f, c, c')
    requires forall u :: u != c.cursor && ClassAt(f, u) == Class.While ==> Done(c'.iters, u) == Done(c.iters, u)
    ensures var a, b, from := Measure(f, order, c), Measure(f, order, c'), IndexOf(order, c.cursor);
            b[from] < a[from] && forall j :: from < j < |order| ==> b[j] <= a[j]
  {
    hide ClassAt, CapAt, Weight;
    var from := IndexOf(order, c.cursor);
    assert forall i :: 0 <= i < |order| && i != from ==> order[i] != c.cursor;
  }

  /** The product of the weights of a set of nodes. */
  ghost function SetProduct(f: Flow, s: set<Id>): nat {
    if s == {} then 1
    else
      var u :| u in s;
      Weight(f, u) * SetProduct(f, s - {u})
  }

  lemma MulSwap(x: nat, y: nat, z: nat)
    ensures x * (y * z) == y * (x * z)
  {
  }

  lemma {:induction false} SetProductTakes(f: Flow, s: set<Id>, v: Id)
    requires v in s
    ensures SetProduct(f, s) == Weight(f, v) * SetProduct(f, s - {v})
    decreases s
  {
    var u :| u in s && SetProduct(f, s) == Weight(f, u) * SetProduct(f, s - {u});
    if u != v {
      SetProductTakes(f, s - {u}, v);
      SetProductTakes(f, s - {v}, u);
      assert s - {u} - {v} == s - {v} - {u};
      hide Weight, SetProduct;
      MulSwap(Weight(f, u), Weight(f, v), SetProduct(f, s - {u} - {v}));
    }
  }

  lemma {:induction false} ProductOfOrder(f: Flow, order: seq<Id>)
    requires Distinct(order)
    ensures Product(Weights(f, order)) == SetProduct(f, Elems(order))
  {
    if order != [] {
      var rest := order[1..];
      ProductOfOrder(f, rest);
      assert Weights(f, order)[1..] == Weights(f, rest);
      assert Elems(order) - {order[0]} == Elems(rest) by {
        assert Elems(order) == {order[0]} + Elems(rest);
      }
      SetProductTakes(f, Elems(order), order[0]);
    } else {
      assert Elems(order) == {};
    }
  }

  /** How many nodes a run can visit: the product of 2 * cap + 2 over while nodes and 2 over all others. */
  ghost function StepBound(f: Flow): nat {
    SetProduct(f, Places(f))
  }

  /** All steps of the run go along E or take a loop. */
  ghost predicate Along(f: Flow, E: Rel, t: seq<Config>) {
    forall i :: 0 <= i < |t| - 1 ==> GoesAlong(f, E, t, i)
  }

  ghost predicate GoesAlong(f: Flow, E: Rel, t: seq<Config>, i: nat)
    requires i + 1 < |t|
  {
    (t[i].cursor, t[i + 1].cursor) in E || TakesLoop(f, t[i], t[i + 1])
  }

  lemma {:induction false} RunCountsDown(f: Flow, E: Rel, order: seq<Id>, env: Env, t: seq<Config>, i: nat)
    requires Respects(order, E) && Distinct(order) && Elems(order) == Places(f)
    requires IsTrace(f, env, t) && i < |t| && Along(f, E, t)
    ensures WithinCaps(f, t[i].iters) && t[i].cursor in order
    ensures Value(Weights(f, order), Measure(f, order, t[i])) + i < Product(Weights(f, order))
    decreases i
  {
    hide Step, ClassOf, ClassAt, Value, Product;
    TraceWithinCaps(f, env, t, i);
    if i == 0 {
      assert Starts(f.nodes)[0] in f.nodes && t[0].cursor in Elems(order);
      ValueBelowProduct(Weights(f, order), Measure(f, order, t[0]));
    } else {
      RunCountsDown(f, E, order, env, t, i - 1);
      assert StepAt(f, env, t, i - 1) && GoesAlong(f, E, t, i - 1);
      MeasureDecreases(f, E, order, env, i - 1, t[i - 1], t[i]);
    }
  }

  /** A run whose steps go along an acyclic relation, loops aside, visits at most `StepBound` nodes. */
  lemma RunIsBounded(f: Flow, E: Rel, env: Env, t: seq<Config>)
    requires Acyclic(E) && IsTrace(f, env, t) && Along(f, E, t)
    ensures |t| <= StepBound(f)
  {
    var order := AcyclicHasOrder(Places(f), E);
    RunCountsDown(f, E, order, env, t, |t| - 1);
    ProductOfOrder(f, order);
  }

  /** When every cycle of the flow uses a loop edge of a while node, the interpreter halts without its step
      guard, whatever the conditions say: no run visits more than `StepBound` nodes. */
  lemma RunsHalt(f: Flow, env: Env, t: seq<Config>)
    requires Acyclic(WithoutLoops(f)) && IsTrace(f, env, t)
    ensures |t| <= StepBound(f)
  {
    hide Acyclic, Step, WithoutLoops;
    forall i | 0 <= i < |t| - 1 ensures GoesAlong(f, WithoutLoops(f), t, i) {
      assert StepAt(f, env, t, i);
      StepProgress(f, env, i, t[i], t[i + 1]);
    }
    RunIsBounded(f, WithoutLoops(f), env, t);
  }

  /** With a bound below the guard, a run as long as the guard allows is already over. */
  lemma GuardNeverFires(f: Flow, env: Env, t: seq<Config>)
    requires Acyclic(WithoutLoops(f)) && StepBound(f) <= 10_000 && IsTrace(f, env, t)
    ensures |t| == 10_000 ==> !Step(f, env, |t| - 1, t[|t| - 1]).Next?
  {
    var last := Step(f, env, |t| - 1, t[|t| - 1]);
    if last.Next? {
      AppendStep(f, env, t, last.c);
      RunsHalt(f, env, t + [last.c]);
    }
  }

  /** The branches a node can take, on any outcome but a failure. */
  function Offered(n: Node, rejects: bool): set<Option<string>> {
    var c := ClassOf(n.kind);
    match c
    case If => {Some(BranchName(c, true)), Some(BranchName(c, false))}
    case While => {Some(BranchName(c, true)), Some(BranchName(c, false))}
    case Guardrails =>
      if LacksText(n) then {}
      else if n.continueOnError then {Some(BranchName(c, true))}
      else {Some(BranchName(c, true)), Some(BranchName(c, false))}
    case Approval => {Some(BranchName(c, !rejects))}
    case End => {}
    case Unknown => {}
    case _ => {None}
  }

  /** A set of nodes that no branch leads out of, and in which none ends the run. */
  ghost predicate Trap(f: Flow, rejects: bool, S: set<Id>) {
    forall u :: u in S ==>
      && FindNode(f.nodes, u).Some?
      && Offered(FindNode(f.nodes, u).value, rejects) != {}
      && forall branch :: branch in Offered(FindNode(f.nodes, u).value, rejects) ==>
           Stays(FindNode(f.nodes, u).value, OutEdges(f.edges, u), branch, S)
  }

  predicate Stays(n: Node, outs: seq<Edge>, branch: Option<string>, S: set<Id>) {
    var r := PickNext(n, outs, branch);
    r.Success? && r.value.Some? && r.value.value in S
  }

  /** Nothing outside fails at this step. */
  predicate Succeeds(env: Env, k: nat) {
    env.condition(k).Some? && env.action(k).Some?
  }

  lemma DecisionIsOffered(n: Node, env: Env, k: nat, c: Config)
    requires Offered(n, env.rejects) != {} && Succeeds(env, k)
    ensures Decide(n, env, k, c).Take? && Decide(n, env, k, c).branch in Offered(n, env.rejects)
  {
    hide ClassOf, BranchName, LacksText, Cap;
  }

  lemma TrapStep(f: Flow, env: Env, k: nat, c: Config, S: set<Id>)
    requires Trap(f, env.rejects, S) && c.cursor in S && Succeeds(env, k)
    ensures var o := Step(f, env, k, c); o.Next? && o.c.cursor in S
  {
    hide ClassOf, PickNext, Decide, Offered, FindNode, OutEdges;
    var n := FindNode(f.nodes, c.cursor).value;
    DecisionIsOffered(n, env, k, c);
    assert Stays(n, OutEdges(f.edges, c.cursor), Decide(n, env, k, c).branch, S);
  }

  /** Why the guard is needed: a run inside a trap goes on whatever the outcomes, as long as nothing fails. */
  lemma {:induction false} TrappedRunGoesOn(f: Flow, env: Env, t: seq<Config>, S: set<Id>, n: nat)
    returns (t': seq<Config>)
    requires IsTrace(f, env, t) && Trap(f, env.rejects, S) && t[|t| - 1].cursor in S
    requires forall k :: Succeeds(env, k)
    ensures IsTrace(f, env, t') && t <= t' && |t'| == |t| + n
    decreases n
  {
    hide Step, Trap, Succeeds;
    if n == 0 {
      t' := t;
    } else {
      TrapStep(f, env, |t| - 1, t[|t| - 1], S);
      var o := Step(f, env, |t| - 1, t[|t| - 1]);
      AppendStep(f, env, t, o.c);
      t' := TrappedRunGoesOn(f, env, t + [o.c], S, n - 1);
    }
  }

  /** The only errors a validated interpreter flow can end with, and where: something outside failed at the node named,
      its kind is unknown, it is a note with ambiguous edges, or the step guard fired, which a small bound rules out. */
  lemma RunErrors(f: Flow, env: Env, r: Result<seq<Record>, FlowError>)
    requires Runnable(f) && HasInterpreterStart(f)
    requires exists t :: Explains(f, env, t, r)
    ensures r.Failure? ==> r.error == MaxStepsExceeded || ErrorAtNode(f, r.error)
    ensures Acyclic(WithoutLoops(f)) && StepBound(f) <= 10_000 ==> r != Failure(MaxStepsExceeded)
  {
    hide Step, ClassOf, ClassAt, Ambiguous, Acyclic, StepBound, Accepts;
    var t :| Explains(f, env, t, r);
    ValidatedRunProgresses(f, env, t, |t| - 1);
    if Acyclic(WithoutLoops(f)) && StepBound(f) <= 10_000 {
      GuardNeverFires(f, env, t);
    }
  }

  ghost predicate ErrorAtNode(f: Flow, e: FlowError) {
    || (e.StepFailed? && e.id in Ids(f) && ClassAt(f, e.id) in {If, Class.While, Transform, Action})
    || (e.UnknownKind? && e.id in Ids(f) && ClassAt(f, e.id) == Unknown)
    || (e.AmbiguousEdges? && e.id in Ids(f) && ClassAt(f, e.id) == Note && Ambiguous(OutEdges(f.edges, e.id)))
  }

  /** Kicking off a flow: validation, then the interpreter or the legacy order. */
  datatype Output = Interpreted(records: seq<Record>) | Ordered(steps: seq<FlowOrder.LegacyStep>)

  /** What a kickoff may report: how a complete run of the interpreter ended, or a run in topological order. */
  ghost predicate Reports(f: Flow, env: Env, reply: nat -> Option<string>, r: Result<Output, FlowError>) {
    match r
    case Success(Interpreted(records)) => HasInterpreterStart(f) && exists t :: Explains(f, env, t, Success(records))
    case Success(Ordered(steps)) =>
      !HasInterpreterStart(f) && FlowOrder.RanInOrder(f, steps) && FlowOrder.LegacyResult(f, reply, Success(steps))
    case Failure(e) =>
      if HasInterpreterStart(f) then exists t :: Explains(f, env, t, Failure(e))
      else FlowOrder.LegacyResult(f, reply, Failure(e))
  }

  method RunFlow(f: Flow, env: Env, reply: nat -> Option<string>) returns (r: Result<Output, FlowError>)
    ensures r.Success? ==> Runnable(f)
    ensures Runnable(f) ==> Reports(f, env, reply, r)
    ensures Runnable(f) && !HasInterpreterStart(f) ==> (r.Success? <==> FlowOrder.AllWork(f, reply))
    ensures Runnable(f) && r.Failure? && HasInterpreterStart(f) ==>
              r.error == MaxStepsExceeded || ErrorAtNode(f, r.error)
    ensures Runnable(f) && HasInterpreterStart(f) && Acyclic(WithoutLoops(f)) && StepBound(f) <= 10_000 ==>
              r != Failure(MaxStepsExceeded)
  {
    hide Accepts, Acyclic, Explains, HasInterpreterStart, ErrorAtNode, StepBound;
    hide FlowOrder.Sortable, FlowOrder.RanInOrder, FlowOrder.LegacyResult, FlowOrder.AllWork;
    var valid := ValidateForRun(f);
    if valid.Failure? {
      return Failure(valid.error);
    }
    if HasInterpreterStart(f) {
      StartIsListed(f);
      var out := RunInterpreter(f, env);
      RunErrors(f, env, out);
      r := if out.Success? then Success(Interpreted(out.value)) else Failure(out.error);
    } else {
      var out := FlowOrder.RunLegacy(f, reply);
      r := if out.Success? then Success(Ordered(out.value)) else Failure(out.error);
    }
  }

  lemma StartIsListed(f: Flow)
    requires HasInterpreterStart(f)
    ensures Starts(f.nodes) != []
  {
    var n :| n in f.nodes && IsStart(n);
    assert n in Starts(f.nodes);
  }
}
