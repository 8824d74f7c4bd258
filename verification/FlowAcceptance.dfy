/** What the static check demands, in terms of the flow as it is written. */
module FlowAcceptance {
  import opened Common
  import opened Graph
  import opened FlowSpec
  import opened FlowRouting
  import opened FlowValidator
  import opened FlowSteps
  import Text

  /** The s-th node is the only start. */
  predicate OnlyStart(nodes: seq<Node>, s: nat) {
    && s < |nodes| && Text.Lower(nodes[s].kind) == "start"
    && forall j :: 0 <= j < |nodes| && j != s ==> Text.Lower(nodes[j].kind) != "start"
  }

  lemma {:induction false} StartsCount(nodes: seq<Node>)
    ensures |Starts(nodes)| == 0 <==> forall j :: 0 <= j < |nodes| ==> Text.Lower(nodes[j].kind) != "start"
    ensures |Starts(nodes)| == 1 <==> exists s: nat :: OnlyStart(nodes, s)
    ensures forall s: nat :: OnlyStart(nodes, s) ==> Starts(nodes) == [nodes[s]]
  {
    if nodes != [] {
      var rest := nodes[1..];
      StartsCount(rest);
      assert forall j :: 0 < j < |nodes| ==> nodes[j] == rest[j - 1];
      assert forall j :: 0 <= j < |rest| ==> rest[j] == nodes[j + 1];
      if IsStart(nodes[0]) {
        assert |Starts(rest)| == 0 ==> OnlyStart(nodes, 0);
      } else if s: nat :| OnlyStart(rest, s) {
        assert OnlyStart(nodes, s + 1);
      }
      forall s: nat | OnlyStart(nodes, s) ensures Starts(nodes) == [nodes[s]] {
        if s > 0 {
          assert !IsStart(nodes[0]) && OnlyStart(rest, s - 1);
        } else {
          assert |Starts(rest)| == 0;
        }
      }
    }
  }

  ghost predicate LeadsOn(f: Flow, u: Id, want: string) {
    exists e :: e in f.edges && e.from == u && ReadsAs(e.tag, want)
  }

  /** The edges out of a branching node offer both its branches, an end has none, and everywhere else it is clear which
      edge to take: there is at most one, or only one without a label, or only one labelled as the default. */
  ghost predicate HasWays(f: Flow, n: Node) {
    var kind := Text.Lower(n.kind);
    if kind in {"if", "ifelse"} then LeadsOn(f, n.id, "true") && LeadsOn(f, n.id, "false")
    else if kind == "while" then LeadsOn(f, n.id, "loop") && LeadsOn(f, n.id, "exit")
    else if kind == "guardrails" then LeadsOn(f, n.id, "pass") && LeadsOn(f, n.id, "fail")
    else if kind in {"human_approval", "humanapproval", "user_approval", "userapproval"} then
      LeadsOn(f, n.id, "approve") && LeadsOn(f, n.id, "reject")
    else if kind == "end" then NoneOut(f.edges, n.id)
    else
      || NoneOut(f.edges, n.id)
      || (exists i: nat :: OnlyOut(f.edges, n.id, AnyEdge, i))
      || (exists i: nat :: OnlyOut(f.edges, n.id, IsUnlabeled, i))
      || (exists i: nat :: OnlyOut(f.edges, n.id, IsDefault, i))
  }

  /** What a node reads is there: a guardrail has a text to check, from a known node if it names one, and a transform
      that copies state names a known node or none. */
  ghost predicate ReadsKnown(f: Flow, n: Node) {
    && (Text.Lower(n.kind) == "guardrails" ==>
          if Text.IsBlank(n.sourceNodeId) then !Text.IsBlank(n.guardrailTemplate) else Names(f, n.sourceNodeId))
    && (Text.Lower(n.kind) == "transform" && Copies(n) ==>
          Text.IsBlank(n.transformFrom) || Names(f, n.transformFrom))
  }

  /** The text is the id of a node, but for the white space around it. */
  ghost predicate Names(f: Flow, s: string) {
    exists id :: id in Ids(f) && Text.Pads(s, id) && Text.IsTight(id)
  }

  predicate Copies(n: Node) {
    || Text.Lower(n.transformMode) == "copy"
    || (n.transformMode == "" && Text.IsBlank(n.transformExpressions) && Text.IsBlank(n.transformObject))
  }

  ghost predicate HasOnlyEdge(f: Flow, u: Id) {
    exists i: nat :: OnlyOut(f.edges, u, AnyEdge, i)
  }

  /** What a flow with a start has to be like. */
  ghost predicate WellBuilt(f: Flow, s: nat) {
    && OnlyStart(f.nodes, s) && HasOnlyEdge(f, f.nodes[s].id)
    && forall n :: n in f.nodes && Text.Lower(n.kind) != "note" ==>
         HasWays(f, n) && ReadsKnown(f, n) && Reaches(Arcs(f.edges), f.nodes[s].id, n.id)
  }

  lemma LabelledIff(f: Flow, u: Id, want: string)
    requires want != "" && Text.IsTight(want)
    ensures HasLabel(OutEdges(f.edges, u), want) <==> LeadsOn(f, u, want)
  {
    forall e | e in f.edges ensures NormalizeLabel(e.tag) == Some(want) <==> ReadsAs(e.tag, want) {
      NormalizedIff(e.tag, want);
    }
    hide NormalizeLabel, ReadsAs;
  }

  lemma BothLabels(f: Flow, u: Id, c: Class)
    requires Branches(c)
    ensures HasLabel(OutEdges(f.edges, u), BranchName(c, true)) <==> LeadsOn(f, u, BranchName(c, true))
    ensures HasLabel(OutEdges(f.edges, u), BranchName(c, false)) <==> LeadsOn(f, u, BranchName(c, false))
  {
    hide LeadsOn, HasLabel;
    LabelledIff(f, u, BranchName(c, true));
    LabelledIff(f, u, BranchName(c, false));
  }

  lemma ClearChoiceIff(f: Flow, u: Id)
    ensures var outs := OutEdges(f.edges, u);
            |outs| > 1 ==> (|Defaults(outs)| == 1 <==> exists i: nat :: OnlyOut(f.edges, u, IsDefault, i))
    ensures var outs := OutEdges(f.edges, u);
            |outs| > 1 ==> (|Unlabeled(outs)| == 1 <==> exists i: nat :: OnlyOut(f.edges, u, IsUnlabeled, i))
    ensures |OutEdges(f.edges, u)| <= 1 <==> NoneOut(f.edges, u) || HasOnlyEdge(f, u)
    ensures |OutEdges(f.edges, u)| == 1 <==> HasOnlyEdge(f, u)
  {
    hide OnlyOut, Matching;
    OnlyOutIff(f.edges, u, AnyEdge);
    OnlyOutIff(f.edges, u, IsUnlabeled);
    OnlyOutIff(f.edges, u, IsDefault);
    AllMatch(OutEdges(f.edges, u));
    NoneOutIff(f.edges, u);
  }

  lemma WaysIff(f: Flow, n: Node)
    ensures EdgesOk(n, OutEdges(f.edges, n.id)) <==> HasWays(f, n)
  {
    hide LeadsOn, HasLabel, OnlyOut, NoneOut, ClassOf, Matching;
    SortOfKind(n.kind);
    ClassOfKind(n.kind);
    NoneOutIff(f.edges, n.id);
    ClearChoiceIff(f, n.id);
    if Branches(ClassOf(n.kind)) {
      BothLabels(f, n.id, ClassOf(n.kind));
    }
  }

  lemma NamesIff(f: Flow, s: string)
    ensures Text.Trim(s) in Ids(f) <==> Names(f, s)
  {
    Text.TrimPads(s);
    if Names(f, s) {
      var id :| id in Ids(f) && Text.Pads(s, id) && Text.IsTight(id);
      Text.TrimIff(s, id);
    }
  }

  lemma ReadsIff(f: Flow, n: Node)
    ensures GuardrailOk(f, n) && TransformOk(f, n) <==> ReadsKnown(f, n)
  {
    hide Names;
    NamesIff(f, n.sourceNodeId);
    NamesIff(f, n.transformFrom);
    BlankIff(n.sourceNodeId);
    BlankIff(n.guardrailTemplate);
    BlankIff(n.transformFrom);
    BlankIff(n.transformExpressions);
    BlankIff(n.transformObject);
  }

  lemma NoteIff(n: Node)
    ensures ClassOf(n.kind) == Note <==> Text.Lower(n.kind) == "note"
  {
  }

  /** The static check accepts exactly the well-built flows. */
  lemma AcceptsIff(f: Flow)
    ensures Accepts(f) <==> exists s: nat :: WellBuilt(f, s)
  {
    StartsCount(f.nodes);
    forall n | n in f.nodes
      ensures NodeOk(f, n) <==> HasWays(f, n) && ReadsKnown(f, n)
      ensures ClassOf(n.kind) == Note <==> Text.Lower(n.kind) == "note"
    {
      hide ClassOf, EdgesOk, HasWays, GuardrailOk, TransformOk, ReadsKnown;
      WaysIff(f, n);
      ReadsIff(f, n);
      NoteIff(n);
    }
    hide ClassOf, NodeOk, HasWays, ReadsKnown, HasOnlyEdge, Reaches, Starts, OnlyStart;
    if s: nat :| OnlyStart(f.nodes, s) {
      ClearChoiceIff(f, f.nodes[s].id);
      assert Starts(f.nodes) == [f.nodes[s]];
      assert Accepts(f) <==> WellBuilt(f, s);
      forall r: nat | WellBuilt(f, r) ensures f.nodes[r] == f.nodes[s] {
        assert Starts(f.nodes) == [f.nodes[r]];
      }
    }
  }
}
