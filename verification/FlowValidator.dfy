/** The static check that interpreter flows pass before they run. */
module FlowValidator {
  import opened Common
  import opened Graph
  import opened FlowSpec
  import opened FlowRouting
  import FlowOrder
  import Text

  predicate IsStart(n: Node) {
    Text.Lower(n.kind) == "start"
  }

  function Starts(nodes: seq<Node>): (s: seq<Node>)
    ensures forall n :: n in s <==> n in nodes && IsStart(n)
  {
    if nodes == [] then []
    else (if IsStart(nodes[0]) then [nodes[0]] else []) + Starts(nodes[1..])
  }

  /** The flows `validate_interpreter` lets through. */
  ghost predicate Accepts(f: Flow) {
    && |Starts(f.nodes)| == 1
    && (forall n :: n in f.nodes && ClassOf(n.kind) != Note ==> NodeOk(f, n))
    && |OutEdges(f.edges, Starts(f.nodes)[0].id)| == 1
    && (forall n :: n in f.nodes && ClassOf(n.kind) != Note ==> Reaches(Arcs(f.edges), Starts(f.nodes)[0].id, n.id))
  }

  lemma ReachSelf(E: Rel, u: Id)
    ensures Reaches(E, u, u)
  {
    assert IsWalk(E, [u]);
  }

  lemma ReachStep(E: Rel, s: Id, u: Id, v: Id)
    requires Reaches(E, s, u) && (u, v) in E
    ensures Reaches(E, s, v)
  {
    var p :| IsWalk(E, p) && p[0] == s && p[|p| - 1] == u;
    var q := p + [v];
    forall i | 0 <= i < |q| - 1 ensures Link(E, q, i) {
      assert i + 1 < |p| ==> Link(E, p, i);
    }
    assert IsWalk(E, q);
  }

  lemma {:induction false} ClosedUnderWalks(E: Rel, S: set<Id>, p: seq<Id>)
    requires IsWalk(E, p) && p[0] in S
    requires forall u, v :: u in S && (u, v) in E ==> v in S
    ensures p[|p| - 1] in S
  {
    if |p| > 1 {
      assert Link(E, p, 0);
      forall i | 0 <= i < |p[1..]| - 1 ensures Link(E, p[1..], i) {
        assert Link(E, p, i + 1);
      }
      ClosedUnderWalks(E, S, p[1..]);
    }
  }

  /** The stack walk: what has been seen is reachable, and every edge out of it leads to something seen or stacked. */
  ghost predicate WalkState(E: Rel, start: Id, seen: set<Id>, stack: seq<Id>) {
    && (start in seen || start in stack)
    && (forall x :: x in seen || x in stack ==> Reaches(E, start, x))
    && (forall u, v :: u in seen && (u, v) in E ==> v in seen || v in stack)
  }

  lemma VisitStep(f: Flow, start: Id, seen: set<Id>, stack: seq<Id>)
    requires stack != []
    requires WalkState(Arcs(f.edges), start, seen, stack)
    ensures var x, rest := stack[|stack| - 1], stack[..|stack| - 1];
            if x in seen then WalkState(Arcs(f.edges), start, seen, rest)
            else WalkState(Arcs(f.edges), start, seen + {x}, rest + FlowOrder.Targets(OutEdges(f.edges, x)))
  {
    var E := Arcs(f.edges);
    var x, rest := stack[|stack| - 1], stack[..|stack| - 1];
    assert stack == rest + [x];
    if x !in seen {
      var outs := OutEdges(f.edges, x);
      var ts := FlowOrder.Targets(outs);
      forall y | y in ts ensures Reaches(E, start, y) {
        var i :| 0 <= i < |ts| && ts[i] == y;
        assert outs[i] in f.edges && (x, y) in E;
        ReachStep(E, start, x, y);
      }
      forall y | (x, y) in E ensures y in ts {
        var e :| e in f.edges && (e.from, e.to) == (x, y);
        var i :| 0 <= i < |outs| && outs[i] == e;
        assert ts[i] == y;
      }
    }
  }

  method ReachableFrom(f: Flow, adj: map<Id, seq<Edge>>, start: Id) returns (seen: set<Id>)
    requires forall u :: Lookup(adj, u) == OutEdges(f.edges, u)
    ensures forall v :: v in seen <==> Reaches(Arcs(f.edges), start, v)
  {
    hide Reaches, OutEdges, Arcs;
    ghost var E := Arcs(f.edges);
    ghost var everything := {start} + set e | e in f.edges :: e.to;
    seen := {};
    var stack := [start];
    ReachSelf(E, start);
    while stack != []
      invariant WalkState(E, start, seen, stack)
      invariant forall x :: x in stack ==> x in everything
      invariant seen <= everything
      decreases everything - seen, |stack|
    {
      VisitStep(f, start, seen, stack);
      var x := stack[|stack| - 1];
      stack := stack[..|stack| - 1];
      if x !in seen {
        seen := seen + {x};
        TargetsAreKnown(f, x);
        stack := stack + FlowOrder.Targets(Lookup(adj, x));
      }
    }
    WalkEnds(E, start, seen);
  }

  lemma TargetsAreKnown(f: Flow, x: Id)
    ensures forall y :: y in FlowOrder.Targets(OutEdges(f.edges, x)) ==> y in set e | e in f.edges :: e.to
  {
    var outs := OutEdges(f.edges, x);
    forall y | y in FlowOrder.Targets(outs) ensures exists e :: e in f.edges && e.to == y {
      var i :| 0 <= i < |outs| && FlowOrder.Targets(outs)[i] == y;
      assert outs[i] in f.edges;
    }
  }

  /** With nothing left on the stack, everything reachable has been seen. */
  lemma WalkEnds(E: Rel, start: Id, seen: set<Id>)
    requires WalkState(E, start, seen, [])
    ensures forall v :: v in seen <==> Reaches(E, start, v)
  {
    forall v | Reaches(E, start, v) ensures v in seen {
      var p :| IsWalk(E, p) && p[0] == start && p[|p| - 1] == v;
      ClosedUnderWalks(E, seen, p);
    }
  }

  /** Scans the outgoing labels once, remembering which of the two wanted ones occurred. */
  method HasBothLabels(outs: seq<Edge>, a: string, b: string) returns (both: bool)
    ensures both <==> HasLabel(outs, a) && HasLabel(outs, b)
  {
    var hasA, hasB := false, false;
    for i := 0 to |outs|
      invariant hasA <==> HasLabel(outs[..i], a)
      invariant hasB <==> HasLabel(outs[..i], b)
    {
      assert outs[..i + 1] == outs[..i] + [outs[i]];
      var l := NormalizeLabel(outs[i].tag);
      hasA := hasA || l == Some(a);
      hasB := hasB || l == Some(b);
    }
    assert outs[..|outs|] == outs;
    return hasA && hasB;
  }

  method CheckNode(f: Flow, n: Node, outs: seq<Edge>) returns (r: Result<(), FlowError>)
    requires outs == OutEdges(f.edges, n.id)
    ensures r.Success? <==> NodeOk(f, n)
    ensures r.Failure? && !EdgesOk(n, outs) ==>
              r.error == (if Branches(ClassOf(n.kind)) then MissingBranches(n.id)
                          else if outs != [] && ClassOf(n.kind) == End then EndHasEdges(n.id)
                          else AmbiguousEdges(n.id))
    ensures r.Failure? && EdgesOk(n, outs) ==>
              r.error == (if ClassOf(n.kind) != Guardrails then UnknownTransformSource(n.id)
                          else if Text.Trim(n.sourceNodeId) == "" then NeedsGuardrailSource(n.id)
                          else UnknownGuardrailSource(n.id))
  {
    var c := ClassOf(n.kind);
    if Branches(c) {
      var both := HasBothLabels(outs, BranchName(c, true), BranchName(c, false));
      if !both {
        return Failure(MissingBranches(n.id));
      }
    } else if c == End {
      if outs != [] {
        return Failure(EndHasEdges(n.id));
      }
    } else if |outs| > 1 && |Defaults(outs)| != 1 && |Unlabeled(outs)| != 1 {
      return Failure(AmbiguousEdges(n.id));
    }
    var ids := Ids(f);
    if c == Guardrails {
      var src := Text.Trim(n.sourceNodeId);
      if Text.Trim(n.guardrailTemplate) == "" {
        if src == "" {
          return Failure(NeedsGuardrailSource(n.id));
        }
        if src !in ids {
          return Failure(UnknownGuardrailSource(n.id));
        }
      } else if src != "" && src !in ids {
        return Failure(UnknownGuardrailSource(n.id));
      }
    }
    if c == Transform && CopiesState(n) {
      var src := Text.Trim(n.transformFrom);
      if src != "" && src !in ids {
        return Failure(UnknownTransformSource(n.id));
      }
    }
    return Success(());
  }

  method CheckNodes(f: Flow, adj: map<Id, seq<Edge>>) returns (r: Result<(), FlowError>)
    requires forall u :: Lookup(adj, u) == OutEdges(f.edges, u)
    ensures r.Success? <==> forall n :: n in f.nodes && ClassOf(n.kind) != Note ==> NodeOk(f, n)
    ensures r.Failure? ==> !r.error.Unreachable?
  {
    hide ClassOf, NodeOk;
    for i := 0 to |f.nodes|
      invariant forall k :: 0 <= k < i && ClassOf(f.nodes[k].kind) != Note ==> NodeOk(f, f.nodes[k])
    {
      var n := f.nodes[i];
      if ClassOf(n.kind) != Note {
        var checked := CheckNode(f, n, Lookup(adj, n.id));
        if checked.Failure? {
          return checked;
        }
      }
    }
    return Success(());
  }

  method CheckReached(f: Flow, seen: set<Id>) returns (r: Result<(), FlowError>)
    ensures r.Success? <==> forall n :: n in f.nodes && ClassOf(n.kind) != Note ==> n.id in seen
    ensures r.Failure? ==>
              exists n :: n in f.nodes && ClassOf(n.kind) != Note && n.id !in seen && r.error == Unreachable(n.id)
  {
    hide ClassOf;
    for i := 0 to |f.nodes|
      invariant forall k :: 0 <= k < i && ClassOf(f.nodes[k].kind) != Note ==> f.nodes[k].id in seen
    {
      var n := f.nodes[i];
      if ClassOf(n.kind) != Note && n.id !in seen {
        return Failure(Unreachable(n.id));
      }
    }
    return Success(());
  }

  method ValidateInterpreter(f: Flow) returns (r: Result<(), FlowError>)
    ensures r.Success? <==> Accepts(f)
    ensures |Starts(f.nodes)| != 1 ==> r == Failure(WrongStartCount(|Starts(f.nodes)|))
    ensures forall x :: r == Failure(Unreachable(x)) ==>
              |Starts(f.nodes)| == 1 && !Reaches(Arcs(f.edges), Starts(f.nodes)[0].id, x)
              && exists n :: n in f.nodes && n.id == x && ClassOf(n.kind) != Note
  {
    var starts := Starts(f.nodes);
    if |starts| != 1 {
      return Failure(WrongStartCount(|starts|));
    }
    var adj := OutgoingMap(f);
    r := CheckNodes(f, adj);
    if r.Failure? {
      return;
    }
    var start := starts[0].id;
    var fanOut := |Lookup(adj, start)|;
    if fanOut != 1 {
      return Failure(WrongStartEdges(fanOut));
    }
    var seen := ReachableFrom(f, adj, start);
    r := CheckReached(f, seen);
  }

  predicate HasInterpreterStart(f: Flow) {
    exists n :: n in f.nodes && IsStart(n)
  }

  ghost predicate Runnable(f: Flow) {
    && f.nodes != [] && NoDangling(f)
    && (if HasInterpreterStart(f) then Accepts(f) else FlowOrder.Sortable(f))
  }

  /** The kickoff check: structure first, then the rules of whichever mode the flow selects. */
  method ValidateForRun(f: Flow) returns (r: Result<(), FlowError>)
    ensures r.Success? <==> Runnable(f)
  {
    r := Validate(f);
    if r.Failure? {
      return;
    }
    if HasInterpreterStart(f) {
      r := ValidateInterpreter(f);
    } else {
      var sorted := FlowOrder.ExecutionOrder(f);
      r := if sorted.Success? then Success(()) else Failure(sorted.error);
    }
  }
}
