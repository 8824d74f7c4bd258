/** What every interpreter run keeps: it walks along labelled edges, each while node's records form
    counted blocks, and on a validated flow no routing error can occur at a node that is not a note. */
module FlowRuns {
  import opened Common
  import opened Graph
  import opened FlowSpec
  import opened FlowRouting
  import opened FlowValidator
  import opened FlowInterpreter

  /** The branch a record reports, if its node branches. */
  function Taken(r: Record): Option<string> {
    match r
    case Visit(_, _) => None
    case Branch(_, b) => Some(b)
    case Loop(_, _) => Some(BranchName(Class.While, true))
    case Exit(_, _) => Some(BranchName(Class.While, false))
  }

  /** The class of the node an id finds. */
  function ClassAt(f: Flow, id: Id): Class {
    var found := FindNode(f.nodes, id);
    if found.Some? then ClassOf(found.value.kind) else Unknown
  }

  /** One record per step, naming the node left and its branch if it has one; notes leave none. */
  predicate Logged(cls: Class, at: Id, before: seq<Record>, after: seq<Record>) {
    if cls == Note then after == before
    else
      && |after| == |before| + 1 && after[..|before|] == before
      && after[|before|].id == at
      && (if Branches(cls) then exists yes: bool :: Taken(after[|before|]) == Some(BranchName(cls, yes))
          else Taken(after[|before|]).None?)
  }

  /** The cursor moved along an edge, at a branching node one labelled with the recorded branch. */
  ghost predicate MovesAlong(f: Flow, c: Config, c': Config) {
    exists e :: e in f.edges && e.from == c.cursor && e.to == c'.cursor
      && (Branches(ClassAt(f, c.cursor)) ==> c'.steps != [] && NormalizeLabel(e.tag) == Taken(c'.steps[|c'.steps| - 1]))
  }

  predicate IsLogged(f: Flow, c: Config, c': Config) {
    Logged(ClassAt(f, c.cursor), c.cursor, c.steps, c'.steps)
  }

  lemma DecisionIsLogged(n: Node, env: Env, k: nat, c: Config)
    ensures var d := Decide(n, env, k, c);
            d.Take? ==>
              && Logged(ClassOf(n.kind), c.cursor, c.steps, d.steps)
              && d.branch == if Branches(ClassOf(n.kind)) then Taken(d.steps[|c.steps|]) else None
  {
    hide ClassOf, BranchName, LacksText, Cap;
    var d := Decide(n, env, k, c);
    assert d.Take? && Branches(ClassOf(n.kind)) ==>
        d.branch in {Some(BranchName(ClassOf(n.kind), true)), Some(BranchName(ClassOf(n.kind), false))};
  }

  lemma StepIsRouted(f: Flow, env: Env, k: nat, c: Config, c': Config)
    requires Steps(f, env, k, c, c')
    ensures Logged(ClassAt(f, c.cursor), c.cursor, c.steps, c'.steps) && MovesAlong(f, c, c')
  {
    var n, outs := FindNode(f.nodes, c.cursor).value, OutEdges(f.edges, c.cursor);
    DecisionIsLogged(n, env, k, c);
    var d := Decide(n, env, k, c);
    if Branches(ClassOf(n.kind)) {
      var yes: bool :| d.branch == Some(BranchName(ClassOf(n.kind), yes));
      BranchRoutes(n, outs, yes);
      var e :| e in outs && e.to == c'.cursor && NormalizeLabel(e.tag) == d.branch;
      assert e in f.edges;
    } else {
      var e :| e in outs && e.to == c'.cursor;
      assert e in f.edges;
    }
  }

  /** A while node loops exactly when it is below its cap and its condition holds; otherwise it exits, resets its
      counter, and blames the cap exactly when the cap was reached. Other counters are left alone. */
  lemma WhileDecision(n: Node, env: Env, k: nat, c: Config)
    requires ClassOf(n.kind) == Class.While && Decide(n, env, k, c).Take?
    ensures var d, done := Decide(n, env, k, c), Done(c.iters, c.cursor);
            && |d.steps| == |c.steps| + 1
            && d.steps[|c.steps|] == (if done < Cap(n) && env.condition(k) == Some(true) then Loop(c.cursor, done)
                                      else Exit(c.cursor, done >= Cap(n)))
            && Done(d.iters, c.cursor) == (if d.steps[|c.steps|].Loop? then done + 1 else 0)
            && forall w :: w != c.cursor ==> Done(d.iters, w) == Done(c.iters, w)
  {
  }

  function Cursors(t: seq<Config>): (ids: seq<Id>)
    ensures |ids| == |t|
  {
    seq(|t|, i requires 0 <= i < |t| => t[i].cursor)
  }

  lemma TraceIsWalk(f: Flow, env: Env, t: seq<Config>)
    requires IsTrace(f, env, t)
    ensures IsWalk(Arcs(f.edges), Cursors(t)) && Cursors(t)[0] == Starts(f.nodes)[0].id
    ensures forall i :: 0 <= i < |t| - 1 ==> IsLogged(f, t[i], t[i + 1]) && MovesAlong(f, t[i], t[i + 1])
  {
    forall i | 0 <= i < |t| - 1
      ensures IsLogged(f, t[i], t[i + 1]) && MovesAlong(f, t[i], t[i + 1])
      ensures Link(Arcs(f.edges), Cursors(t), i)
    {
      assert StepAt(f, env, t, i);
      StepIsRouted(f, env, i, t[i], t[i + 1]);
    }
  }

  // ---- why two runs split ----

  /** What a log says about the route: which node left a record, and the branch it took. */
  function Trail(steps: seq<Record>): (r: seq<(Id, Option<string>)>)
    ensures |r| == |steps|
  {
    seq(|steps|, i requires 0 <= i < |steps| => (steps[i].id, Taken(steps[i])))
  }

  lemma TrailOfLogged(cls: Class, at: Id, before: seq<Record>, after: seq<Record>)
    requires Logged(cls, at, before, after)
    ensures Trail(after) == Trail(before) + if cls == Note then [] else [(at, Taken(after[|before|]))]
  {
    assert cls != Note ==> forall i :: 0 <= i < |before| ==> after[i] == after[..|before|][i];
  }

  lemma {:induction false} TrailGrows(f: Flow, env: Env, t: seq<Config>, i: nat, j: nat)
    requires IsTrace(f, env, t) && i <= j < |t|
    ensures Trail(t[i].steps) <= Trail(t[j].steps)
    decreases j
  {
    hide Step, ClassOf, Trail, Logged;
    if i < j {
      TrailGrows(f, env, t, i, j - 1);
      assert StepAt(f, env, t, j - 1);
      StepIsRouted(f, env, j - 1, t[j - 1], t[j]);
      TrailOfLogged(ClassAt(f, t[j - 1].cursor), t[j - 1].cursor, t[j - 1].steps, t[j].steps);
    }
  }

  /** The configurations agree on everything but what actions put out. */
  predicate SameRoute(c: Config, d: Config) {
    c.cursor == d.cursor && c.iters == d.iters && Trail(c.steps) == Trail(d.steps)
  }

  /** The outcome the node asks for at step k differs between the two environments. */
  predicate Differ(n: Node, iters: map<Id, nat>, env: Env, env': Env, k: nat) {
    match ClassOf(n.kind)
    case If => env.condition(k) != env'.condition(k)
    case While => Done(iters, n.id) < Cap(n) && env.condition(k) != env'.condition(k)
    case Guardrails => !n.continueOnError && env.verdict(k) != env'.verdict(k)
    case Approval => env.rejects != env'.rejects
    case _ => false
  }

  /** The branch and the counters of a decision follow from the outcome asked for. */
  lemma DecisionsSplitIff(n: Node, env: Env, env': Env, k: nat, c: Config, c': Config)
    requires n.id == c.cursor == c'.cursor && c.iters == c'.iters
    requires Decide(n, env, k, c).Take? && Decide(n, env', k, c').Take?
    ensures Decide(n, env, k, c).branch != Decide(n, env', k, c').branch <==> Differ(n, c.iters, env, env', k)
    ensures Decide(n, env, k, c).branch == Decide(n, env', k, c').branch ==>
              Decide(n, env, k, c).iters == Decide(n, env', k, c').iters
  {
    hide BranchName, ClassOf, LacksText, Cap;
    if Branches(ClassOf(n.kind)) {
      BranchNamesDiffer(ClassOf(n.kind));
    }
    assert ClassOf(n.kind) in {If, Class.While, Guardrails, Approval} || !Branches(ClassOf(n.kind));
  }

  lemma BranchNamesDiffer(c: Class)
    requires Branches(c)
    ensures BranchName(c, true) != BranchName(c, false)
  {
    assert BranchName(c, true)[0] != BranchName(c, false)[0];
  }

  /** Two runs that have agreed so far take different branches at the next step if and only if the outcome that its
      node asks for differs: a condition, below the cap at a while node; a guardrail verdict that is not overruled; or
      the approval answer. Otherwise they still agree, whatever the actions put out. */
  lemma RunsSplitIff(f: Flow, env: Env, env': Env, k: nat, c: Config, d: Config, c': Config, d': Config)
    requires SameRoute(c, c') && Steps(f, env, k, c, d) && Steps(f, env', k, c', d')
    ensures FindNode(f.nodes, c.cursor).Some?
    ensures Trail(d.steps) != Trail(d'.steps) <==> Differ(FindNode(f.nodes, c.cursor).value, c.iters, env, env', k)
    ensures Trail(d.steps) == Trail(d'.steps) ==> SameRoute(d, d')
  {
    hide ClassOf, PickNext, BranchName, Decide, Trail, Taken, Differ;
    var n := FindNode(f.nodes, c.cursor).value;
    var cls := ClassOf(n.kind);
    DecisionIsLogged(n, env, k, c);
    DecisionIsLogged(n, env', k, c');
    TrailOfLogged(cls, c.cursor, c.steps, d.steps);
    TrailOfLogged(cls, c.cursor, c'.steps, d'.steps);
    DecisionsSplitIff(n, env, env', k, c, c');
    if cls != Note {
      TrailsDiffer(Trail(c.steps), (c.cursor, Taken(d.steps[|c.steps|])), (c.cursor, Taken(d'.steps[|c'.steps|])));
    }
  }

  lemma TrailsDiffer<T>(a: seq<T>, x: T, y: T)
    ensures a + [x] == a + [y] <==> x == y
  {
    assert (a + [x])[|a|] == x && (a + [y])[|a|] == y;
  }

  /** The log alone determines the route: two runs of a flow, under whatever outcomes and outputs, whose logs name the
      same nodes and branches went through the same nodes with the same counters. */
  lemma {:induction false} LogDeterminesRoute(f: Flow, env: Env, t: seq<Config>, env': Env, t': seq<Config>, i: nat,
                                              j: nat)
    requires IsTrace(f, env, t) && IsTrace(f, env', t') && j <= i < |t| && i < |t'|
    requires Trail(t[i].steps) == Trail(t'[i].steps)
    ensures SameRoute(t[j], t'[j])
    decreases j
  {
    hide Step, ClassOf, Trail, FindNode, Differ;
    if j > 0 {
      LogDeterminesRoute(f, env, t, env', t', i, j - 1);
      assert StepAt(f, env, t, j - 1) && StepAt(f, env', t', j - 1);
      RunsSplitIff(f, env, env', j - 1, t[j - 1], t[j], t'[j - 1], t'[j]);
      SameLength(f, env, env', j - 1, t[j - 1], t[j], t'[j - 1], t'[j]);
      TrailGrows(f, env, t, j, i);
      TrailGrows(f, env', t', j, i);
    }
  }

  lemma SameLength(f: Flow, env: Env, env': Env, k: nat, c: Config, d: Config, c': Config, d': Config)
    requires SameRoute(c, c') && Steps(f, env, k, c, d) && Steps(f, env', k, c', d')
    ensures |Trail(d.steps)| == |Trail(d'.steps)|
  {
    hide Step, ClassOf;
    StepIsRouted(f, env, k, c, d);
    StepIsRouted(f, env', k, c', d');
    assert |Trail(c.steps)| == |Trail(c'.steps)|;
  }

  // ---- the records of a while node ----

  /** The records of one node. */
  function Of(w: Id, steps: seq<Record>): seq<Record> {
    if steps == [] then []
    else
      var last := steps[|steps| - 1];
      Of(w, steps[..|steps| - 1]) + if last.id == w then [last] else []
  }

  function Loops(w: Id, k: nat): seq<Record> {
    seq(k, i requires 0 <= i < k => Loop(w, i))
  }

  /** Finished blocks: block j loops `ks[j]` times, then exits, blaming the cap exactly when it was reached. */
  function Blocks(w: Id, cap: nat, ks: seq<nat>): seq<Record> {
    if ks == [] then []
    else
      var k := ks[|ks| - 1];
      Blocks(w, cap, ks[..|ks| - 1]) + Loops(w, k) + [Exit(w, k == cap)]
  }

  ghost predicate BlockForm(w: Id, cap: nat, recs: seq<Record>, done: nat, ks: seq<nat>, open: nat) {
    && recs == Blocks(w, cap, ks) + Loops(w, open)
    && open == done <= cap
    && forall k :: k in ks ==> k <= cap
  }

  ghost predicate InBlocks(f: Flow, w: Id, c: Config, ks: seq<nat>, open: nat)
    requires ClassAt(f, w) == Class.While
  {
    BlockForm(w, Cap(FindNode(f.nodes, w).value), Of(w, c.steps), Done(c.iters, w), ks, open)
  }

  lemma StepCounters(f: Flow, env: Env, i: nat, c: Config, c': Config)
    requires Steps(f, env, i, c, c')
    ensures var d := Decide(FindNode(f.nodes, c.cursor).value, env, i, c);
            d.Take? && c'.iters == d.iters && c'.steps == d.steps
    ensures ClassAt(f, c.cursor) != Class.While ==> c'.iters == c.iters
  {
    hide ClassOf, PickNext, BranchName;
  }

  lemma OfLogged(cls: Class, at: Id, before: seq<Record>, after: seq<Record>, w: Id)
    requires Logged(cls, at, before, after)
    ensures Of(w, after) == if at == w && cls != Note then Of(w, before) + [after[|before|]] else Of(w, before)
  {
  }

  lemma LoopsGrow(w: Id, k: nat)
    ensures Loops(w, k + 1) == Loops(w, k) + [Loop(w, k)]
  {
  }

  lemma BlocksGrow(w: Id, cap: nat, ks: seq<nat>, k: nat)
    ensures Blocks(w, cap, ks + [k]) == Blocks(w, cap, ks) + Loops(w, k) + [Exit(w, k == cap)]
  {
    assert (ks + [k])[..|ks|] == ks;
  }

  lemma ExtendBlocks(w: Id, cap: nat, recs: seq<Record>, done: nat, ks: seq<nat>, open: nat, r: Record)
    returns (ks': seq<nat>, open': nat)
    requires BlockForm(w, cap, recs, done, ks, open)
    requires r == Exit(w, done >= cap) || (r == Loop(w, done) && done < cap)
    ensures BlockForm(w, cap, recs + [r], if r.Loop? then done + 1 else 0, ks', open')
  {
    if r.Loop? {
      ks', open' := ks, open + 1;
      LoopsGrow(w, open);
    } else {
      ks', open' := ks + [open], 0;
      BlocksGrow(w, cap, ks, open);
    }
  }

  lemma BlockStep(f: Flow, env: Env, i: nat, c: Config, c': Config, w: Id, ks: seq<nat>, open: nat)
    returns (ks': seq<nat>, open': nat)
    requires ClassAt(f, w) == Class.While && Steps(f, env, i, c, c') && InBlocks(f, w, c, ks, open)
    ensures InBlocks(f, w, c', ks', open')
  {
    hide ClassOf, Decide, BranchName, MovesAlong, BlockForm, Step, Of, FindNode, Taken, Cap;
    if c.cursor == w {
      var n := FindNode(f.nodes, w).value;
      OwnStep(f, env, i, c, c', w);
      ks', open' := ExtendBlocks(w, Cap(n), Of(w, c.steps), Done(c.iters, w), ks, open, c'.steps[|c.steps|]);
    } else {
      OtherStep(f, env, i, c, c', w);
      ks', open' := ks, open;
    }
  }

  /** A step of the while node itself. */
  lemma OwnStep(f: Flow, env: Env, i: nat, c: Config, c': Config, w: Id)
    requires ClassAt(f, w) == Class.While && Steps(f, env, i, c, c') && c.cursor == w
    ensures |c'.steps| == |c.steps| + 1
    ensures var r, done := c'.steps[|c.steps|], Done(c.iters, w);
            && Of(w, c'.steps) == Of(w, c.steps) + [r]
            && (r == Exit(w, done >= Cap(FindNode(f.nodes, w).value))
                || (r == Loop(w, done) && done < Cap(FindNode(f.nodes, w).value)))
            && Done(c'.iters, w) == if r.Loop? then done + 1 else 0
  {
    hide ClassOf, Decide, BranchName, MovesAlong, Step, Of, FindNode, Taken, Cap;
    StepIsRouted(f, env, i, c, c');
    StepCounters(f, env, i, c, c');
    OfLogged(ClassAt(f, c.cursor), c.cursor, c.steps, c'.steps, w);
    WhileDecision(FindNode(f.nodes, w).value, env, i, c);
  }

  /** A step of any other node. */
  lemma OtherStep(f: Flow, env: Env, i: nat, c: Config, c': Config, w: Id)
    requires Steps(f, env, i, c, c') && c.cursor != w
    ensures Of(w, c'.steps) == Of(w, c.steps) && Done(c'.iters, w) == Done(c.iters, w)
  {
    hide ClassOf, Decide, BranchName, MovesAlong, Step, Of, FindNode, Taken, Cap;
    StepIsRouted(f, env, i, c, c');
    StepCounters(f, env, i, c, c');
    OfLogged(ClassAt(f, c.cursor), c.cursor, c.steps, c'.steps, w);
    if ClassAt(f, c.cursor) == Class.While {
      WhileDecision(FindNode(f.nodes, c.cursor).value, env, i, c);
    }
  }

  /** Every while node's records are finished blocks loop(0) .. loop(k-1), exit, then one block still open;
      no block is longer than the node's cap. */
  lemma {:induction false} WhileRecordsAreBlocks(f: Flow, env: Env, t: seq<Config>, w: Id)
    returns (ks: seq<nat>, open: nat)
    requires IsTrace(f, env, t) && ClassAt(f, w) == Class.While
    ensures InBlocks(f, w, t[|t| - 1], ks, open)
    decreases |t|
  {
    hide Step, ClassOf;
    var m := |t| - 1;
    if m == 0 {
      ks, open := [], 0;
    } else {
      assert StepAt(f, env, t, m - 1);
      var s := t[..m];
      forall i | 0 <= i < m - 1 ensures StepAt(f, env, s, i) {
        assert StepAt(f, env, t, i);
      }
      ks, open := WhileRecordsAreBlocks(f, env, s, w);
      ks, open := BlockStep(f, env, m - 1, t[m - 1], t[m], w, ks, open);
    }
  }

  /** A choice no validated node offers, but a note may: several edges, none of them singled out. */
  predicate Ambiguous(outs: seq<Edge>) {
    |outs| > 1 && |Unlabeled(outs)| != 1 && |Defaults(outs)| != 1
  }

  /** On a validated flow a step fails only because something outside failed, because the node's kind is unknown,
      or at a note, which the validator skips, exactly when its edges are ambiguous. */
  ghost predicate FailsOnlyOutside(f: Flow, c: Config, o: Outcome) {
    && (ClassAt(f, c.cursor) == Note ==> (o.Fail? <==> Ambiguous(OutEdges(f.edges, c.cursor))))
    && (o.Fail? ==>
          || (o.error == StepFailed(c.cursor) && ClassAt(f, c.cursor) in {If, Class.While, Transform, Action})
          || (o.error == UnknownKind(c.cursor) && ClassAt(f, c.cursor) == Unknown)
          || (o.error == AmbiguousEdges(c.cursor) && ClassAt(f, c.cursor) == Note))
  }

  lemma DecisionAborts(n: Node, env: Env, k: nat, c: Config)
    ensures var d := Decide(n, env, k, c);
            && (d.Stop? <==> ClassOf(n.kind) == End)
            && (d.Abort? ==>
                  || (d.error == StepFailed(n.id) && ClassOf(n.kind) in {If, Class.While, Transform, Action})
                  || (d.error == UnknownKind(n.id) && ClassOf(n.kind) == Unknown)
                  || (d.error.NeedsGuardrailSource? && ClassOf(n.kind) == Guardrails && LacksText(n)))
            && (d.Abort? ==> ClassOf(n.kind) !in {Note, Start, Approval})
  {
  }

  lemma PlainRoutes(n: Node, outs: seq<Edge>)
    requires !Branches(ClassOf(n.kind))
    ensures match PickNext(n, outs, None)
            case Success(None) => outs == []
            case Success(_) => !Ambiguous(outs)
            case Failure(e) => e == AmbiguousEdges(n.id) && Ambiguous(outs)
  {
  }

  lemma ValidatedStepProgresses(f: Flow, env: Env, k: nat, c: Config)
    requires NoDangling(f) && Accepts(f) && c.cursor in Ids(f)
    ensures FindNode(f.nodes, c.cursor).Some? && FailsOnlyOutside(f, c, Step(f, env, k, c))
    ensures Step(f, env, k, c).Next? ==> Step(f, env, k, c).c.cursor in Ids(f)
    ensures Step(f, env, k, c).Halt? ==> OutEdges(f.edges, c.cursor) == []
  {
    hide ClassOf, Decide, BranchName, PickNext, Reaches, Taken;
    var n, outs := FindNode(f.nodes, c.cursor).value, OutEdges(f.edges, c.cursor);
    var d := Decide(n, env, k, c);
    assert ClassOf(n.kind) != Note ==> NodeOk(f, n);
    DecisionAborts(n, env, k, c);
    if d.Take? {
      DecisionIsLogged(n, env, k, c);
      if Branches(ClassOf(n.kind)) {
        var yes: bool :| d.branch == Some(BranchName(ClassOf(n.kind), yes));
        BranchRoutes(n, outs, yes);
      } else {
        PlainRoutes(n, outs);
      }
    }
  }

  /** At every step of every run of a validated flow the cursor names a node and routing cannot go wrong. */
  lemma {:induction false} ValidatedRunProgresses(f: Flow, env: Env, t: seq<Config>, i: nat)
    requires NoDangling(f) && Accepts(f) && IsTrace(f, env, t) && i < |t|
    ensures t[i].cursor in Ids(f) && FailsOnlyOutside(f, t[i], Step(f, env, i, t[i]))
    ensures Step(f, env, i, t[i]).Halt? ==> OutEdges(f.edges, t[i].cursor) == []
    decreases i
  {
    hide Step, ClassOf, NodeOk, Reaches, FailsOnlyOutside;
    if i == 0 {
      assert Starts(f.nodes)[0] in f.nodes;
    } else {
      ValidatedRunProgresses(f, env, t, i - 1);
      ValidatedStepProgresses(f, env, i - 1, t[i - 1]);
      assert StepAt(f, env, t, i - 1);
    }
    ValidatedStepProgresses(f, env, i, t[i]);
  }
}
