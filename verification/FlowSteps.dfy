/** What each kind of node does, in terms of the flow as it is written: kinds and labels as the builder spells them,
    and edges by their place in the flow's list. */
module FlowSteps {
  import opened Common
  import opened Graph
  import opened FlowSpec
  import opened FlowRouting
  import opened FlowValidator
  import opened FlowInterpreter
  import opened FlowRuns
  import Text

  // ---- labels ----

  /** The label reads `want`, but for case and the white space around it. */
  ghost predicate ReadsAs(tag: Option<string>, want: string) {
    tag.Some? && exists s :: Text.Pads(tag.value, s) && Text.Lower(s) == want
  }

  ghost predicate NoLabel(tag: Option<string>) {
    tag.None? || Text.IsBlank(tag.value)
  }

  lemma LowerIsTight(s: string)
    ensures Text.IsTight(Text.Lower(s)) <==> Text.IsTight(s)
  {
    assert forall i :: 0 <= i < |s| ==> Text.IsWhitespace(Text.Lower(s)[i]) == Text.IsWhitespace(s[i]);
  }

  /** A normalized label is what the label reads, and there is none exactly if the label is absent or blank. */
  lemma NormalizedIff(tag: Option<string>, want: string)
    requires want != "" && Text.IsTight(want)
    ensures NormalizeLabel(tag) == Some(want) <==> ReadsAs(tag, want)
    ensures NormalizeLabel(tag).None? <==> NoLabel(tag)
  {
    if tag.Some? {
      var s := tag.value;
      Text.TrimPads(s);
      if Text.Lower(Text.Trim(s)) == want {
        assert ReadsAs(tag, want);
      }
      if ReadsAs(tag, want) {
        var t :| Text.Pads(s, t) && Text.Lower(t) == want;
        LowerIsTight(t);
        Text.TrimIff(s, t);
      }
      BlankIff(s);
    }
  }

  lemma BlankIff(s: string)
    ensures Text.Trim(s) == "" <==> Text.IsBlank(s)
  {
    Text.TrimIff(s, "");
    if Text.IsBlank(s) {
      assert s == "" + "" + s;
    }
  }

  // ---- edges by their place in the flow ----

  /** The i-th edge of the flow is the first one out of u with this label. */
  predicate FirstOut(edges: seq<Edge>, u: Id, want: string, i: nat) {
    && i < |edges| && edges[i].from == u && NormalizeLabel(edges[i].tag) == Some(want)
    && forall j :: 0 <= j < i && edges[j].from == u ==> NormalizeLabel(edges[j].tag) != Some(want)
  }

  /** The i-th edge of the flow is the only one out of u of this sort. */
  predicate OnlyOut(edges: seq<Edge>, u: Id, p: Edge -> bool, i: nat) {
    && i < |edges| && edges[i].from == u && p(edges[i])
    && forall j :: 0 <= j < |edges| && j != i && edges[j].from == u ==> !p(edges[j])
  }

  predicate NoneOut(edges: seq<Edge>, u: Id) {
    forall e :: e in edges ==> e.from != u
  }

  predicate AnyEdge(e: Edge) {
    true
  }

  lemma {:induction false} LabelledInConcat(a: seq<Edge>, b: seq<Edge>, want: string)
    ensures FirstLabelled(a + b, want)
         == if FirstLabelled(a, want).Some? then FirstLabelled(a, want) else FirstLabelled(b, want)
  {
    if a == [] {
      assert a + b == b;
    } else {
      assert (a + b)[1..] == a[1..] + b;
      LabelledInConcat(a[1..], b, want);
    }
  }

  lemma {:induction false} FirstOutIsFirst(edges: seq<Edge>, u: Id, want: string, i: nat)
    requires FirstOut(edges, u, want, i)
    ensures FirstLabelled(OutEdges(edges, u), want) == Some(edges[i].to)
  {
    var n := |edges| - 1;
    var before, last := edges[..n], edges[n];
    LabelledInConcat(OutEdges(before, u), if last.from == u then [last] else [], want);
    if i < n {
      FirstOutIsFirst(before, u, want, i);
    } else {
      assert FirstLabelled(OutEdges(before, u), want).None?;
    }
  }

  lemma {:induction false} LabelHasFirst(edges: seq<Edge>, u: Id, want: string)
    ensures HasLabel(OutEdges(edges, u), want) <==> exists i: nat :: FirstOut(edges, u, want, i)
  {
    hide NormalizeLabel;
    if edges != [] {
      var n := |edges| - 1;
      LabelHasFirst(edges[..n], u, want);
      if HasLabel(OutEdges(edges[..n], u), want) {
        var i: nat :| FirstOut(edges[..n], u, want, i);
        assert FirstOut(edges, u, want, i);
      } else if HasLabel(OutEdges(edges, u), want) {
        assert FirstOut(edges, u, want, n);
      }
    }
  }

  /** The edges out of u of one sort. */
  function Leaving(u: Id, p: Edge -> bool): Edge -> bool {
    (e: Edge) => e.from == u && p(e)
  }

  lemma {:induction false} MatchingInConcat(a: seq<Edge>, b: seq<Edge>, p: Edge -> bool)
    ensures Matching(a + b, p) == Matching(a, p) + Matching(b, p)
  {
    if a == [] {
      assert a + b == b;
    } else {
      assert (a + b)[1..] == a[1..] + b;
      MatchingInConcat(a[1..], b, p);
    }
  }

  lemma {:induction false} MatchingOut(edges: seq<Edge>, u: Id, p: Edge -> bool)
    ensures Matching(OutEdges(edges, u), p) == Matching(edges, Leaving(u, p))
  {
    if edges != [] {
      var n := |edges| - 1;
      var before, last := edges[..n], edges[n];
      assert edges == before + [last];
      MatchingOut(before, u, p);
      MatchingInConcat(before, [last], Leaving(u, p));
      MatchingInConcat(OutEdges(before, u), if last.from == u then [last] else [], p);
      assert [last][1..] == [];
    }
  }

  lemma {:induction false} AllMatch(s: seq<Edge>)
    ensures Matching(s, AnyEdge) == s
  {
    if s != [] {
      AllMatch(s[1..]);
    }
  }

  /** Exactly one edge of a sort leaves u if and only if one place in the flow's list is the only one of that sort. */
  lemma OnlyOutIff(edges: seq<Edge>, u: Id, p: Edge -> bool)
    ensures |Matching(OutEdges(edges, u), p)| == 1 <==> exists i: nat :: OnlyOut(edges, u, p, i)
    ensures forall i: nat :: OnlyOut(edges, u, p, i) ==> Matching(OutEdges(edges, u), p) == [edges[i]]
  {
    MatchingOut(edges, u, p);
    MatchingCount(edges, Leaving(u, p));
    assert forall i: nat :: OnlyOut(edges, u, p, i) <==> OnlyMatch(edges, Leaving(u, p), i);
  }

  // ---- where a step leads ----

  /** The step follows the first edge with this label, leaving this record and these counters; without such an edge
      it fails. */
  ghost predicate Follows(f: Flow, c: Config, o: Outcome, want: string, iters: map<Id, nat>, r: Record) {
    if exists i: nat :: FirstOut(f.edges, c.cursor, want, i) then
      exists i: nat :: FirstOut(f.edges, c.cursor, want, i) && o == Next(Config(f.edges[i].to, iters, c.steps + [r]))
    else o == Fail(MissingLabel(c.cursor, want))
  }

  /** The step goes on from a node without branches: along its only edge, its only unlabeled one, or its only default
      one. It ends the run where no edge leaves, and fails if the choice is not clear. */
  ghost predicate GoesOn(f: Flow, c: Config, o: Outcome, steps: seq<Record>) {
    if NoneOut(f.edges, c.cursor) then o == Halt(steps)
    else if exists i: nat :: OnlyOut(f.edges, c.cursor, AnyEdge, i) then LeavesBy(f, c, o, steps, AnyEdge)
    else if exists i: nat :: OnlyOut(f.edges, c.cursor, IsUnlabeled, i) then LeavesBy(f, c, o, steps, IsUnlabeled)
    else if exists i: nat :: OnlyOut(f.edges, c.cursor, IsDefault, i) then LeavesBy(f, c, o, steps, IsDefault)
    else o == Fail(AmbiguousEdges(c.cursor))
  }

  ghost predicate LeavesBy(f: Flow, c: Config, o: Outcome, steps: seq<Record>, p: Edge -> bool) {
    exists i: nat :: OnlyOut(f.edges, c.cursor, p, i) && o == Next(Config(f.edges[i].to, c.iters, steps))
  }

  lemma BranchFollows(f: Flow, n: Node, c: Config, want: string, iters: map<Id, nat>, r: Record)
    requires Branches(ClassOf(n.kind)) && n.id == c.cursor && Text.Lower(want) == want
    ensures var o := Follow(n, OutEdges(f.edges, c.cursor), Take(Some(want), iters, c.steps + [r]));
            Follows(f, c, o, want, iters, r)
  {
    hide ClassOf, NormalizeLabel;
    LabelHasFirst(f.edges, c.cursor, want);
    if i: nat :| FirstOut(f.edges, c.cursor, want, i) {
      FirstOutIsFirst(f.edges, c.cursor, want, i);
    }
  }

  lemma NoneOutIff(edges: seq<Edge>, u: Id)
    ensures NoneOut(edges, u) <==> OutEdges(edges, u) == []
  {
    if OutEdges(edges, u) != [] {
      assert OutEdges(edges, u)[0] in edges;
    }
  }

  lemma PlainGoesOn(f: Flow, n: Node, c: Config, steps: seq<Record>)
    requires !Branches(ClassOf(n.kind)) && n.id == c.cursor
    ensures GoesOn(f, c, Follow(n, OutEdges(f.edges, c.cursor), Take(None, c.iters, steps)), steps)
  {
    hide ClassOf, Branches, OnlyOut, Matching;
    OnlyOutIff(f.edges, c.cursor, AnyEdge);
    OnlyOutIff(f.edges, c.cursor, IsUnlabeled);
    OnlyOutIff(f.edges, c.cursor, IsDefault);
    AllMatch(OutEdges(f.edges, c.cursor));
    NoneOutIff(f.edges, c.cursor);
  }

  /** The cursor is at a node of one of these kinds, in whatever case they are written. */
  predicate IsAt(f: Flow, c: Config, kinds: set<string>) {
    var found := FindNode(f.nodes, c.cursor);
    found.Some? && Text.Lower(found.value.kind) in kinds
  }

  function NodeAt(f: Flow, c: Config): Node
    requires FindNode(f.nodes, c.cursor).Some?
  {
    FindNode(f.nodes, c.cursor).value
  }

  lemma LowerLabels()
    ensures forall s :: s in {"true", "false", "pass", "fail", "approve", "reject", "loop", "exit"} ==>
                          Text.Lower(s) == s
  {
    forall s | s in {"true", "false", "pass", "fail", "approve", "reject", "loop", "exit"} ensures Text.Lower(s) == s {
      Text.LowerFixes(s);
    }
  }

  // ---- the kinds of nodes ----

  lemma SortOfKind(kind: string)
    ensures Branches(ClassOf(kind)) <==> Text.Lower(kind) in BRANCHING
    ensures ClassOf(kind) == End <==> Text.Lower(kind) == "end"
    ensures ClassOf(kind) == Unknown <==> Text.Lower(kind) !in DOING + BRANCHING + {"note", "start", "end"}
  {
  }

  lemma ClassOfKind(kind: string)
    ensures Text.Lower(kind) in {"if", "ifelse"} ==> ClassOf(kind) == If
    ensures Text.Lower(kind) == "while" ==> ClassOf(kind) == Class.While
    ensures Text.Lower(kind) == "guardrails" ==> ClassOf(kind) == Guardrails
    ensures Text.Lower(kind) in {"human_approval", "humanapproval", "user_approval", "userapproval"} ==>
              ClassOf(kind) == Approval
    ensures Text.Lower(kind) in DOING ==> ClassOf(kind) in {Transform, Action}
    ensures Text.Lower(kind) == "note" ==> ClassOf(kind) == Note
    ensures Text.Lower(kind) == "start" ==> ClassOf(kind) == Start
    ensures Text.Lower(kind) == "end" ==> ClassOf(kind) == End
  {
  }

  /** An if node follows the edge its condition names; a condition that cannot be evaluated fails the run. */
  lemma IfFollowsItsCondition(f: Flow, env: Env, k: nat, c: Config)
    requires IsAt(f, c, {"if", "ifelse"})
    ensures var o := Step(f, env, k, c);
            match env.condition(k)
            case None => o == Fail(StepFailed(c.cursor))
            case Some(holds) =>
              var want := if holds then "true" else "false";
              Follows(f, c, o, want, c.iters, Branch(c.cursor, want))
  {
    hide ClassOf, PickNext, Follows;
    LowerLabels();
    var n := NodeAt(f, c);
    ClassOfKind(n.kind);
    if env.condition(k).Some? {
      var want := if env.condition(k).value then "true" else "false";
      BranchFollows(f, n, c, want, c.iters, Branch(c.cursor, want));
    }
  }

  /** An approval node follows the answer that came with the inputs. */
  lemma ApprovalFollowsTheAnswer(f: Flow, env: Env, k: nat, c: Config)
    requires IsAt(f, c, {"human_approval", "humanapproval", "user_approval", "userapproval"})
    ensures var want := if env.rejects then "reject" else "approve";
            Follows(f, c, Step(f, env, k, c), want, c.iters, Branch(c.cursor, want))
  {
    hide ClassOf, PickNext, Follows;
    LowerLabels();
    ClassOfKind(NodeAt(f, c).kind);
    var want := if env.rejects then "reject" else "approve";
    BranchFollows(f, NodeAt(f, c), c, want, c.iters, Branch(c.cursor, want));
  }

  /** A guardrail passes exactly if its verdict is good or overruled; without anything to check it fails the run. */
  lemma GuardrailFollowsItsVerdict(f: Flow, env: Env, k: nat, c: Config)
    requires IsAt(f, c, {"guardrails"})
    ensures var n, o := NodeAt(f, c), Step(f, env, k, c);
            if Text.IsBlank(n.guardrailTemplate) && Text.IsBlank(n.sourceNodeId) then
              o == Fail(NeedsGuardrailSource(c.cursor))
            else
              var want := if env.verdict(k) || n.continueOnError then "pass" else "fail";
              Follows(f, c, o, want, c.iters, Branch(c.cursor, want))
  {
    hide ClassOf, PickNext, Follows;
    LowerLabels();
    var n := NodeAt(f, c);
    ClassOfKind(n.kind);
    BlankIff(n.guardrailTemplate);
    BlankIff(n.sourceNodeId);
    var want := if env.verdict(k) || n.continueOnError then "pass" else "fail";
    BranchFollows(f, n, c, want, c.iters, Branch(c.cursor, want));
  }

  /** A while node loops while its condition holds, as often as its limit says, which is 100 if none is set. It exits
      without asking the condition once the limit is reached, and starts counting anew. */
  lemma WhileFollowsItsCondition(f: Flow, env: Env, k: nat, c: Config)
    requires IsAt(f, c, {"while"})
    ensures var n, o := NodeAt(f, c), Step(f, env, k, c);
            var done := if c.cursor in c.iters then c.iters[c.cursor] else 0;
            var limit := if n.maxIterations == 0 then 100 else n.maxIterations;
            if done >= limit then Follows(f, c, o, "exit", c.iters - {c.cursor}, Exit(c.cursor, true))
            else match env.condition(k)
              case None => o == Fail(StepFailed(c.cursor))
              case Some(holds) =>
                if holds then Follows(f, c, o, "loop", c.iters[c.cursor := done + 1], Loop(c.cursor, done))
                else Follows(f, c, o, "exit", c.iters - {c.cursor}, Exit(c.cursor, false))
  {
    hide ClassOf, PickNext, Follows;
    LowerLabels();
    var n := NodeAt(f, c);
    ClassOfKind(n.kind);
    var done := if c.cursor in c.iters then c.iters[c.cursor] else 0;
    BranchFollows(f, n, c, "exit", c.iters - {c.cursor}, Exit(c.cursor, true));
    BranchFollows(f, n, c, "exit", c.iters - {c.cursor}, Exit(c.cursor, false));
    BranchFollows(f, n, c, "loop", c.iters[c.cursor := done + 1], Loop(c.cursor, done));
  }

  /** Notes leave no trace; the start puts out the inputs; the end ends the run whatever edges leave it; the nodes that
      do something put out what they did, or fail the run. */
  lemma PlainNodesGoOn(f: Flow, env: Env, k: nat, c: Config)
    ensures var o := Step(f, env, k, c);
            && (IsAt(f, c, {"note"}) ==> GoesOn(f, c, o, c.steps))
            && (IsAt(f, c, {"start"}) ==> GoesOn(f, c, o, c.steps + [Visit(c.cursor, Some(env.inputs))]))
            && (IsAt(f, c, {"end"}) ==> o == Halt(c.steps + [Visit(c.cursor, None)]))
            && (IsAt(f, c, DOING) ==>
                  if env.action(k).None? then o == Fail(StepFailed(c.cursor))
                  else GoesOn(f, c, o, c.steps + [Visit(c.cursor, env.action(k))]))
  {
    hide GoesOn, PickNext, ClassOf;
    if FindNode(f.nodes, c.cursor).Some? {
      ClassOfKind(NodeAt(f, c).kind);
    }
    if IsAt(f, c, {"note"}) {
      PlainGoesOn(f, NodeAt(f, c), c, c.steps);
    } else if IsAt(f, c, {"start"}) {
      PlainGoesOn(f, NodeAt(f, c), c, c.steps + [Visit(c.cursor, Some(env.inputs))]);
    } else if IsAt(f, c, DOING) {
      PlainGoesOn(f, NodeAt(f, c), c, c.steps + [Visit(c.cursor, env.action(k))]);
    }
  }

  const DOING := {"transform", "mcp", "file_search", "filesearch", "set_state", "setstate", "crew", "agent", "classify",
                  "", "llm"}

  const BRANCHING := {"if", "ifelse", "while", "guardrails", "human_approval", "humanapproval", "user_approval",
                      "userapproval"}

  /** Any other kind fails the run, and so does an edge to a node that is not there. */
  lemma NothingElseRuns(f: Flow, env: Env, k: nat, c: Config)
    ensures FindNode(f.nodes, c.cursor).None? ==> Step(f, env, k, c) == Fail(MissingNode(c.cursor))
    ensures FindNode(f.nodes, c.cursor).Some? && !IsAt(f, c, DOING + BRANCHING + {"note", "start", "end"}) ==>
              Step(f, env, k, c) == Fail(UnknownKind(c.cursor))
  {
    hide ClassOf, PickNext, BranchName;
    if FindNode(f.nodes, c.cursor).Some? {
      SortOfKind(NodeAt(f, c).kind);
    }
  }
}
