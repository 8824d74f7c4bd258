/** How the interpreter chooses the outgoing edge of a node. */
module FlowRouting {
  import opened Common
  import opened Graph
  import opened FlowSpec
  import Text

  /** Trimmed and lower-cased; an absent label and a blank one are the same. */
  function NormalizeLabel(l: Option<string>): Option<string> {
    match l
    case None => None
    case Some(s) =>
      var t := Text.Lower(Text.Trim(s));
      if t == "" then None else Some(t)
  }

  function FirstLabelled(outs: seq<Edge>, want: string): (r: Option<Id>)
    ensures r.Some? <==> HasLabel(outs, want)
    ensures r.Some? ==> exists e :: e in outs && e.to == r.value && NormalizeLabel(e.tag) == Some(want)
  {
    if outs == [] then None
    else if NormalizeLabel(outs[0].tag) == Some(want) then Some(outs[0].to)
    else FirstLabelled(outs[1..], want)
  }

  /** The i-th edge is the first with this label. */
  predicate IsFirst(outs: seq<Edge>, want: string, i: nat) {
    i < |outs| && NormalizeLabel(outs[i].tag) == Some(want)
    && forall j :: 0 <= j < i ==> NormalizeLabel(outs[j].tag) != Some(want)
  }

  lemma {:induction false} FirstIsFound(outs: seq<Edge>, want: string, i: nat)
    requires IsFirst(outs, want, i)
    ensures FirstLabelled(outs, want) == Some(outs[i].to)
  {
    if i > 0 {
      assert NormalizeLabel(outs[0].tag) != Some(want);
      FirstIsFound(outs[1..], want, i - 1);
    }
  }

  predicate HasLabel(outs: seq<Edge>, want: string) {
    exists e :: e in outs && NormalizeLabel(e.tag) == Some(want)
  }

  predicate IsUnlabeled(e: Edge) {
    e.tag.None? || Text.Trim(e.tag.value) == ""
  }

  predicate IsDefault(e: Edge) {
    NormalizeLabel(e.tag) == Some("default")
  }

  function Matching(outs: seq<Edge>, p: Edge -> bool): (r: seq<Edge>)
    ensures forall e :: e in r <==> e in outs && p(e)
  {
    if outs == [] then []
    else (if p(outs[0]) then [outs[0]] else []) + Matching(outs[1..], p)
  }

  function Unlabeled(outs: seq<Edge>): (r: seq<Edge>)
    ensures forall e :: e in r <==> e in outs && IsUnlabeled(e)
  {
    Matching(outs, IsUnlabeled)
  }

  function Defaults(outs: seq<Edge>): (r: seq<Edge>)
    ensures forall e :: e in r <==> e in outs && IsDefault(e)
  {
    Matching(outs, IsDefault)
  }

  predicate Branches(c: Class) {
    c in {If, While, Guardrails, Approval}
  }

  /** The label of each of the two branches a branching node needs. */
  function BranchName(c: Class, yes: bool): string
    requires Branches(c)
  {
    match c
    case If => if yes then "true" else "false"
    case While => if yes then "loop" else "exit"
    case Guardrails => if yes then "pass" else "fail"
    case _ => if yes then "approve" else "reject"
  }

  /** `Success(None)` means the flow stops here. */
  function PickNext(n: Node, outs: seq<Edge>, branch: Option<string>): (r: Result<Option<Id>, FlowError>)
    ensures r.Success? && r.value.Some? ==> exists e :: e in outs && e.to == r.value.value
  {
    if Branches(ClassOf(n.kind)) then
      if branch.None? then Failure(NoBranchComputed(n.id))
      else
        var want := Text.Lower(branch.value);
        var found := FirstLabelled(outs, want);
        if found.Some? then Success(found) else Failure(MissingLabel(n.id, want))
    else if outs == [] then Success(None)
    else if |outs| == 1 then Success(Some(outs[0].to))
    else if |Unlabeled(outs)| == 1 then assert Unlabeled(outs)[0] in outs; Success(Some(Unlabeled(outs)[0].to))
    else if |Defaults(outs)| == 1 then assert Defaults(outs)[0] in outs; Success(Some(Defaults(outs)[0].to))
    else Failure(AmbiguousEdges(n.id))
  }

  /** What the validator demands of one node that is not a note. */
  predicate NodeOk(f: Flow, n: Node) {
    EdgesOk(n, OutEdges(f.edges, n.id)) && GuardrailOk(f, n) && TransformOk(f, n)
  }

  predicate EdgesOk(n: Node, outs: seq<Edge>) {
    var c := ClassOf(n.kind);
    if Branches(c) then HasLabel(outs, BranchName(c, true)) && HasLabel(outs, BranchName(c, false))
    else if c == End then outs == []
    else |outs| > 1 ==> |Defaults(outs)| == 1 || |Unlabeled(outs)| == 1
  }

  /** A guardrail reads a template or a known node; a named source must exist even when the template wins. */
  predicate GuardrailOk(f: Flow, n: Node) {
    ClassOf(n.kind) == Guardrails ==>
      var src := Text.Trim(n.sourceNodeId);
      if src == "" then Text.Trim(n.guardrailTemplate) != "" else src in Ids(f)
  }

  predicate CopiesState(n: Node) {
    var mode := Text.Lower(n.transformMode);
    || mode == "copy"
    || (mode == "" && Text.Trim(n.transformExpressions) == "" && Text.Trim(n.transformObject) == "")
  }

  predicate TransformOk(f: Flow, n: Node) {
    ClassOf(n.kind) == Transform && CopiesState(n) ==>
      Text.Trim(n.transformFrom) == "" || Text.Trim(n.transformFrom) in Ids(f)
  }

  /** Branch names are lower case already, so routing looks for exactly the label the validator saw. */
  lemma BranchNamesAreLower(c: Class, yes: bool)
    requires Branches(c)
    ensures Text.Lower(BranchName(c, yes)) == BranchName(c, yes)
  {
    Text.LowerFixes(BranchName(c, yes));
  }

  /** Routing a computed branch either follows an edge with that label or reports that there is none. */
  lemma BranchRoutes(n: Node, outs: seq<Edge>, yes: bool)
    requires Branches(ClassOf(n.kind))
    ensures var want := BranchName(ClassOf(n.kind), yes);
            var r := PickNext(n, outs, Some(want));
            if HasLabel(outs, want) then
              && r.Success? && r.value.Some?
              && exists e :: e in outs && e.to == r.value.value && NormalizeLabel(e.tag) == Some(want)
            else r == Failure(MissingLabel(n.id, want))
  {
    BranchNamesAreLower(ClassOf(n.kind), yes);
  }

  /** Of several edges with the branch's label the one listed first is taken. */
  lemma FirstLabelWins(n: Node, outs: seq<Edge>, yes: bool, i: nat)
    requires Branches(ClassOf(n.kind)) && IsFirst(outs, BranchName(ClassOf(n.kind), yes), i)
    ensures PickNext(n, outs, Some(BranchName(ClassOf(n.kind), yes))) == Success(Some(outs[i].to))
  {
    BranchNamesAreLower(ClassOf(n.kind), yes);
    FirstIsFound(outs, BranchName(ClassOf(n.kind), yes), i);
  }

  /** The i-th edge is the only one of its kind. */
  predicate OnlyMatch(outs: seq<Edge>, p: Edge -> bool, i: nat) {
    i < |outs| && p(outs[i]) && forall j :: 0 <= j < |outs| && j != i ==> !p(outs[j])
  }

  lemma {:induction false} MatchingCount(outs: seq<Edge>, p: Edge -> bool)
    ensures |Matching(outs, p)| == 0 <==> forall j :: 0 <= j < |outs| ==> !p(outs[j])
    ensures |Matching(outs, p)| == 1 <==> exists i: nat :: OnlyMatch(outs, p, i)
    ensures forall i: nat :: OnlyMatch(outs, p, i) ==> Matching(outs, p) == [outs[i]]
  {
    if outs != [] {
      var rest := outs[1..];
      MatchingCount(rest, p);
      assert forall j :: 0 < j < |outs| ==> outs[j] == rest[j - 1];
      assert forall j :: 0 <= j < |rest| ==> rest[j] == outs[j + 1];
      if p(outs[0]) {
        assert |Matching(rest, p)| == 0 ==> OnlyMatch(outs, p, 0);
      } else if i: nat :| OnlyMatch(rest, p, i) {
        assert OnlyMatch(outs, p, i + 1);
      }
      forall i: nat | OnlyMatch(outs, p, i) ensures Matching(outs, p) == [outs[i]] {
        if i > 0 {
          assert !p(outs[0]) && OnlyMatch(rest, p, i - 1);
        } else {
          assert |Matching(rest, p)| == 0;
        }
      }
    }
  }

  /** Where a node that does not branch goes: along its only edge; of several, along the only unlabeled one; failing
      that, along the only default one. It reports an ambiguity in all other cases. */
  lemma PlainRoutesTo(n: Node, outs: seq<Edge>, branch: Option<string>, i: nat)
    requires !Branches(ClassOf(n.kind)) && i < |outs|
    ensures |outs| == 1 || OnlyMatch(outs, IsUnlabeled, i) ==> PickNext(n, outs, branch) == Success(Some(outs[i].to))
    ensures |outs| > 1 && (forall j: nat :: !OnlyMatch(outs, IsUnlabeled, j)) && OnlyMatch(outs, IsDefault, i) ==>
              PickNext(n, outs, branch) == Success(Some(outs[i].to))
    ensures PickNext(n, outs, branch).Failure? <==>
            |outs| > 1 && forall j: nat :: !OnlyMatch(outs, IsUnlabeled, j) && !OnlyMatch(outs, IsDefault, j)
  {
    MatchingCount(outs, IsUnlabeled);
    MatchingCount(outs, IsDefault);
    hide OnlyMatch, Matching, ClassOf, Branches;
  }

  /** The edges of a node are in order exactly if routing never fails there, whichever branch is taken; an end has
      none. */
  lemma EdgesOkIff(n: Node, outs: seq<Edge>)
    ensures Branches(ClassOf(n.kind)) ==>
              (EdgesOk(n, outs) <==>
               forall yes: bool :: PickNext(n, outs, Some(BranchName(ClassOf(n.kind), yes))).Success?)
    ensures ClassOf(n.kind) == End ==> (EdgesOk(n, outs) <==> outs == [])
    ensures !Branches(ClassOf(n.kind)) && ClassOf(n.kind) != End ==>
              (EdgesOk(n, outs) <==> forall branch :: PickNext(n, outs, branch).Success?)
  {
    hide ClassOf, BranchName, Matching, HasLabel;
    if Branches(ClassOf(n.kind)) {
      BranchRoutes(n, outs, true);
      BranchRoutes(n, outs, false);
    } else {
      forall branch: Option<string> ensures PickNext(n, outs, branch) == PickNext(n, outs, None) {
      }
      assert ClassOf(n.kind) != End ==> (EdgesOk(n, outs) <==> PickNext(n, outs, None).Success?);
    }
  }

  /** A validated node of any other kind never has an ambiguous choice; it stops only without outgoing edges. */
  lemma ValidatedPlainRoutes(n: Node, outs: seq<Edge>, branch: Option<string>)
    requires !Branches(ClassOf(n.kind)) && EdgesOk(n, outs)
    ensures PickNext(n, outs, branch).Success?
    ensures PickNext(n, outs, branch).value.None? <==> outs == []
  {
  }
}
