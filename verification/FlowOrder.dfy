/** Legacy flows: Kahn's topological order, and the run that follows it. */
module FlowOrder {
  import opened Common
  import opened Graph
  import opened FlowSpec
  import Text

  /** How many edges into `v` leave a node that is not done yet; parallel edges count separately. */
  ghost function Pending(edges: seq<Edge>, done: set<Id>, v: Id): nat {
    if edges == [] then 0
    else
      var last := edges[|edges| - 1];
      Pending(edges[..|edges| - 1], done, v) + if last.to == v && last.from !in done then 1 else 0
  }

  function Targets(outs: seq<Edge>): (ts: seq<Id>)
    ensures |ts| == |outs|
  {
    seq(|outs|, i requires 0 <= i < |outs| => outs[i].to)
  }

  lemma {:induction false} PendingZero(edges: seq<Edge>, done: set<Id>, v: Id)
    ensures Pending(edges, done, v) == 0 <==> forall e :: e in edges && e.to == v ==> e.from in done
  {
    if edges != [] {
      var rest, last := edges[..|edges| - 1], edges[|edges| - 1];
      PendingZero(rest, done, v);
      assert edges == rest + [last];
    }
  }

  lemma OneMoreEdge(edges: seq<Edge>, e: Edge, u: Id)
    ensures Targets(OutEdges(edges + [e], u)) == Targets(OutEdges(edges, u)) + if e.from == u then [e.to] else []
  {
    OutEdgesOfOneMore(edges, e, u);
    hide OutEdges;
  }

  lemma OneMorePending(edges: seq<Edge>, e: Edge, done: set<Id>, v: Id)
    ensures Pending(edges + [e], done, v) == Pending(edges, done, v) + if e.to == v && e.from !in done then 1 else 0
  {
    assert (edges + [e])[..|edges|] == edges;
  }

  lemma {:induction false} PendingSplit(edges: seq<Edge>, done: set<Id>, u: Id, v: Id)
    requires u !in done
    ensures Pending(edges, done, v)
         == Pending(edges, done + {u}, v) + multiset(Targets(OutEdges(edges, u)))[v]
  {
    if edges != [] {
      var rest, last := edges[..|edges| - 1], edges[|edges| - 1];
      assert edges == rest + [last];
      PendingSplit(rest, done, u, v);
      OneMoreEdge(rest, last, u);
      OneMorePending(rest, last, done, v);
      OneMorePending(rest, last, done + {u}, v);
      hide Pending, OutEdges, Targets;
    }
  }

  ghost predicate Counted(edges: seq<Edge>, indeg: map<Id, nat>) {
    forall v :: v in indeg ==> indeg[v] == Pending(edges, {}, v)
  }

  ghost predicate Listed(edges: seq<Edge>, adj: map<Id, seq<Id>>) {
    forall u :: Lookup(adj, u) == Targets(OutEdges(edges, u))
  }

  lemma CountedStep(edges: seq<Edge>, e: Edge, indeg: map<Id, nat>)
    requires Counted(edges, indeg) && e.to in indeg
    ensures Counted(edges + [e], indeg[e.to := indeg[e.to] + 1])
  {
    hide Pending;
    var indeg' := indeg[e.to := indeg[e.to] + 1];
    forall v | v in indeg' ensures indeg'[v] == Pending(edges + [e], {}, v) {
      OneMorePending(edges, e, {}, v);
    }
  }

  lemma ListedStep(edges: seq<Edge>, e: Edge, adj: map<Id, seq<Id>>)
    requires Listed(edges, adj)
    ensures Listed(edges + [e], adj[e.from := Lookup(adj, e.from) + [e.to]])
  {
    hide OutEdges, Targets;
    var adj' := adj[e.from := Lookup(adj, e.from) + [e.to]];
    forall u ensures Lookup(adj', u) == Targets(OutEdges(edges + [e], u)) {
      assert Lookup(adj, u) == Targets(OutEdges(edges, u));
      OneMoreEdge(edges, e, u);
    }
  }

  method ZeroDegrees(f: Flow) returns (indeg: map<Id, nat>)
    ensures indeg.Keys == Ids(f)
    ensures Counted([], indeg)
  {
    indeg := map[];
    for i := 0 to |f.nodes|
      invariant forall v :: v in indeg <==> exists k :: 0 <= k < i && f.nodes[k].id == v
      invariant Counted([], indeg)
    {
      indeg := indeg[f.nodes[i].id := 0];
    }
  }

  lemma NothingListed()
    ensures Listed([], map[])
  {
  }

  /** In-degrees and adjacency lists, filled edge by edge. */
  method Degrees(f: Flow) returns (indeg: map<Id, nat>, adj: map<Id, seq<Id>>)
    requires NoDangling(f)
    ensures indeg.Keys == Ids(f)
    ensures Counted(f.edges, indeg) && Listed(f.edges, adj)
  {
    hide Pending, OutEdges, Targets, Counted, Listed;
    indeg := ZeroDegrees(f);
    adj := map[];
    NothingListed();
    assert f.edges[..0] == [];
    for i := 0 to |f.edges|
      invariant indeg.Keys == Ids(f)
      invariant Counted(f.edges[..i], indeg) && Listed(f.edges[..i], adj)
    {
      var e := f.edges[i];
      CountedStep(f.edges[..i], e, indeg);
      ListedStep(f.edges[..i], e, adj);
      assert f.edges[..i + 1] == f.edges[..i] + [e];
      indeg := indeg[e.to := indeg[e.to] + 1];
      adj := adj[e.from := Lookup(adj, e.from) + [e.to]];
    }
    assert f.edges[..|f.edges|] == f.edges;
  }

  /** The nodes of in-degree zero, in whatever order the hash map yields them. */
  method InitialQueue(indeg: map<Id, nat>) returns (q: seq<Id>)
    ensures Distinct(q)
    ensures forall v :: v in q <==> v in indeg && indeg[v] == 0
  {
    q := [];
    var todo := set v | v in indeg && indeg[v] == 0;
    ghost var all := todo;
    while todo != {}
      invariant Distinct(q)
      invariant forall v :: v in q <==> v in all - todo
      invariant todo <= all
    {
      var v :| v in todo;
      assert v !in q;
      q, todo := q + [v], todo - {v};
    }
  }

  /** What the main loop keeps: in-degrees count unfinished predecessors, and exactly the nodes without any are
      listed. */
  ghost predicate Kept(f: Flow, indeg: map<Id, nat>, done: set<Id>, owed: seq<Id>, listed: seq<Id>) {
    && indeg.Keys == Ids(f)
    && Distinct(listed)
    && (forall v :: v in listed ==> v in indeg)
    && (forall v :: v in indeg ==> indeg[v] == Pending(f.edges, done, v) + multiset(owed)[v])
    && (forall v :: v in indeg ==> (indeg[v] == 0 <==> v in listed))
  }

  lemma ReleaseOne(f: Flow, indeg: map<Id, nat>, done: set<Id>, v: Id, rest: seq<Id>, listed: seq<Id>)
    requires Kept(f, indeg, done, [v] + rest, listed) && v in indeg
    ensures indeg[v] >= 1 && v !in listed
    ensures Kept(f, indeg[v := indeg[v] - 1], done, rest, if indeg[v] == 1 then listed + [v] else listed)
  {
    hide Pending, Distinct;
    assert multiset([v] + rest) == multiset{v} + multiset(rest) by {
      assert ([v] + rest)[0] == v && ([v] + rest)[1..] == rest;
    }
    assert indeg[v] >= multiset([v] + rest)[v] >= 1;
    assert v !in listed;
    DistinctWithOneMore(listed, v);
    assert forall x :: x in listed + [v] <==> x in listed || x == v;
  }

  lemma DistinctWithOneMore(s: seq<Id>, x: Id)
    requires Distinct(s) && x !in s
    ensures Distinct(s + [x])
  {
  }

  /** Finishing `u`: its successors lose one in-degree each, and those that reach zero are queued. */
  method Release(f: Flow, indeg: map<Id, nat>, nbrs: seq<Id>, q: seq<Id>, ghost out: seq<Id>)
    returns (indeg': map<Id, nat>, q': seq<Id>)
    requires Kept(f, indeg, Elems(out), nbrs, out + q)
    requires forall v :: v in nbrs ==> v in indeg
    ensures Kept(f, indeg', Elems(out), [], out + q')
  {
    hide Pending, Distinct;
    indeg', q' := indeg, q;
    for j := 0 to |nbrs|
      invariant Kept(f, indeg', Elems(out), nbrs[j..], out + q')
    {
      var v := nbrs[j];
      assert nbrs[j..] == [v] + nbrs[j + 1..];
      assert out + (q' + [v]) == (out + q') + [v];
      ReleaseOne(f, indeg', Elems(out), v, nbrs[j + 1..], out + q');
      indeg' := indeg'[v := indeg'[v] - 1];
      if indeg'[v] == 0 {
        q' := q' + [v];
      }
    }
  }

  ghost predicate PredecessorsEarlier(edges: seq<Edge>, out: seq<Id>) {
    forall k, e :: 0 <= k < |out| && e in edges && e.to == out[k] ==> e.from in out[..k]
  }

  /** Sortable flows: nonempty, without dangling edges, with distinct ids and no cycle. */
  ghost predicate Sortable(f: Flow) {
    f.nodes != [] && NoDangling(f) && Distinct(IdsInOrder(f)) && Acyclic(Arcs(f.edges))
  }

  ghost predicate IsTopological(f: Flow, out: seq<Id>) {
    && multiset(out) == multiset(IdsInOrder(f))
    && Distinct(out)
    && Respects(out, Arcs(f.edges))
    && PredecessorsEarlier(f.edges, out)
  }

  /** A queue that ran dry before listing every node leaves nodes that all wait for one another. */
  lemma StuckHasCycle(f: Flow, indeg: map<Id, nat>, out: seq<Id>)
    requires NoDangling(f) && Kept(f, indeg, Elems(out), [], out)
    requires Ids(f) != Elems(out)
    ensures !Acyclic(Arcs(f.edges))
  {
    var stuck := Ids(f) - Elems(out);
    forall v | v in stuck ensures HasPredecessor(stuck, Arcs(f.edges), v) {
      PendingZero(f.edges, Elems(out), v);
      var e :| e in f.edges && e.to == v && e.from !in Elems(out);
      assert (e.from, v) in Arcs(f.edges) && e.from in stuck;
    }
    assert forall v :: v in Elems(out) ==> v in indeg;
    assert Ids(f) == Elems(out) + stuck;
    NoSourceHasCycle(stuck, Arcs(f.edges));
  }

  lemma ListedIsTopological(f: Flow, out: seq<Id>)
    requires NoDangling(f) && Distinct(out) && Elems(out) <= Ids(f) && PredecessorsEarlier(f.edges, out)
    ensures Respects(out, Arcs(f.edges))
    ensures |out| == |f.nodes| ==> Distinct(IdsInOrder(f)) && IsTopological(f, out) && Acyclic(Arcs(f.edges))
    ensures Distinct(IdsInOrder(f)) && Elems(out) == Ids(f) ==> |out| == |f.nodes|
  {
    var E := Arcs(f.edges);
    forall i, j | 0 <= i < |out| && 0 <= j < |out| && (out[i], out[j]) in E ensures i < j {
      var e :| e in f.edges && (e.from, e.to) == (out[i], out[j]);
      assert out[i] in out[..j];
    }
    IdsAreElems(f);
    DistinctCardinality(out);
    DistinctCardinality(IdsInOrder(f));
    SubsetCardinality(Elems(out), Ids(f));
    if |out| == |f.nodes| {
      DistinctPermutation(out, IdsInOrder(f));
      forall e | e in E ensures e.0 in out && e.1 in out {
        assert e.0 in Elems(out) && e.1 in Elems(out);
      }
      OrderedIsAcyclic(out, E);
    }
  }

  /** Moving the head of the queue to the output keeps everything, once its outgoing edges are owed. */
  lemma ListFirst(f: Flow, indeg: map<Id, nat>, out: seq<Id>, q: seq<Id>)
    requires q != [] && Kept(f, indeg, Elems(out), [], out + q) && PredecessorsEarlier(f.edges, out)
    ensures var u := q[0]; u in Ids(f) - Elems(out) && Elems(out + [u]) == Elems(out) + {u}
    ensures Kept(f, indeg, Elems(out + [q[0]]), Targets(OutEdges(f.edges, q[0])), (out + [q[0]]) + q[1..])
    ensures PredecessorsEarlier(f.edges, out + [q[0]])
  {
    var u := q[0];
    var out' := out + [u];
    assert out' + q[1..] == out + q;
    assert (out + q)[|out|] == u;
    assert forall k :: 0 <= k < |out| ==> out[k] == (out + q)[k];
    assert u !in out;
    assert Elems(out') == Elems(out) + {u};
    forall v | v in indeg ensures indeg[v]
        == Pending(f.edges, Elems(out'), v) + multiset(Targets(OutEdges(f.edges, u)))[v]
    {
      PendingSplit(f.edges, Elems(out), u, v);
    }
    PendingZero(f.edges, Elems(out), u);
    assert forall k :: 0 <= k <= |out| ==> out'[..k] == out[..k];
  }

  method ExecutionOrder(f: Flow) returns (r: Result<seq<Id>, FlowError>)
    ensures r.Success? <==> Sortable(f)
    ensures r.Success? ==> IsTopological(f, r.value)
    ensures r.Failure? ==> r.error.NoNodes? || r.error.UnknownSource? || r.error.UnknownTarget? || r.error.HasCycle?
    ensures r == Failure(HasCycle) <==>
            f.nodes != [] && NoDangling(f) && !(Distinct(IdsInOrder(f)) && Acyclic(Arcs(f.edges)))
  {
    var valid := Validate(f);
    if valid.Failure? {
      return Failure(valid.error);
    }
    var indeg, adj := Degrees(f);
    var q := InitialQueue(indeg);
    var out: seq<Id> := [];
    assert out + q == q && Elems(out) == {};
    while q != []
      invariant Kept(f, indeg, Elems(out), [], out + q)
      invariant PredecessorsEarlier(f.edges, out)
      decreases Ids(f) - Elems(out)
    {
      var u := q[0];
      ListFirst(f, indeg, out, q);
      out, q := out + [u], q[1..];
      var nbrs := Lookup(adj, u);
      indeg, q := Release(f, indeg, nbrs, q, out);
    }
    assert out + q == out;
    ListedIsTopological(f, out);
    if |out| != |f.nodes| {
      if Distinct(IdsInOrder(f)) {
        StuckHasCycle(f, indeg, out);
      }
      return Failure(HasCycle);
    }
    return Success(out);
  }

  /** One executed node of a legacy run and its output. Only the prompt of a model step is built from the outputs
      recorded so far; a crew gets nothing but the inputs of the flow. */
  datatype LegacyStep =
    | CrewStep(id: Id, output: string)
    | ModelStep(id: Id, context: map<Id, string>, output: string)

  predicate IsNote(f: Flow, id: Id) {
    exists n :: n in f.nodes && n.id == id && Text.Lower(n.kind) == "note"
  }

  predicate IsCrew(f: Flow, id: Id) {
    exists n :: n in f.nodes && n.id == id && n.hasCrew
  }

  function StepIds(steps: seq<LegacyStep>): (ids: seq<Id>)
    ensures |ids| == |steps|
  {
    seq(|steps|, k requires 0 <= k < |steps| => steps[k].id)
  }

  /** The recorded outputs are exactly those of the given steps. */
  ghost predicate Recorded(outputs: map<Id, string>, steps: seq<LegacyStep>) {
    && (forall i :: 0 <= i < |steps| ==> steps[i].id in outputs && outputs[steps[i].id] == steps[i].output)
    && (forall x :: x in outputs ==> exists i :: 0 <= i < |steps| && steps[i].id == x)
  }

  /** Step k ran after every predecessor of its node that is not a note; it is a crew step exactly if its node has a
      crew, and otherwise its prompt was built from exactly the outputs of the steps before it. */
  ghost predicate StepOk(f: Flow, steps: seq<LegacyStep>, k: nat)
    requires k < |steps|
  {
    && (forall e :: e in f.edges && e.to == steps[k].id && !IsNote(f, e.from) ==> e.from in StepIds(steps[..k]))
    && (steps[k].CrewStep? <==> IsCrew(f, steps[k].id))
    && (steps[k].ModelStep? ==> Recorded(steps[k].context, steps[..k]))
  }

  ghost predicate StepsOk(f: Flow, steps: seq<LegacyStep>) {
    forall k :: 0 <= k < |steps| ==> StepOk(f, steps, k)
  }

  function NonNotes(f: Flow, ids: seq<Id>): (kept: seq<Id>)
    ensures forall x :: x in kept <==> x in ids && !IsNote(f, x)
  {
    if ids == [] then []
    else
      var last := ids[|ids| - 1];
      NonNotes(f, ids[..|ids| - 1]) + if IsNote(f, last) then [] else [last]
  }

  lemma DistinctNodes(f: Flow, m: Node, n: Node)
    requires Distinct(IdsInOrder(f)) && m in f.nodes && n in f.nodes && m.id == n.id
    ensures m == n
  {
    var i :| 0 <= i < |f.nodes| && f.nodes[i] == n;
    var j :| 0 <= j < |f.nodes| && f.nodes[j] == m;
    assert IdsInOrder(f)[i] == IdsInOrder(f)[j];
  }

  lemma UniqueNode(f: Flow, n: Node)
    requires Distinct(IdsInOrder(f)) && n in f.nodes
    ensures IsNote(f, n.id) <==> ClassOf(n.kind) == Note
    ensures IsCrew(f, n.id) <==> n.hasCrew
    ensures LacksCrew(f, n.id) <==> Text.Lower(n.kind) == "crew" && !n.hasCrew
  {
    hide Distinct, IdsInOrder;
    forall m | m in f.nodes && m.id == n.id ensures m == n {
      DistinctNodes(f, m, n);
    }
  }

  /** What the legacy loop keeps after handling the first `i` nodes of the order. */
  ghost predicate Ran(f: Flow, order: seq<Id>, i: nat, outputs: map<Id, string>, steps: seq<LegacyStep>)
    requires i <= |order|
  {
    StepsOk(f, steps) && StepIds(steps) == NonNotes(f, order[..i]) && Recorded(outputs, steps)
  }

  lemma ExtendOk(f: Flow, steps: seq<LegacyStep>, step: LegacyStep)
    requires StepsOk(f, steps)
    ensures StepOk(f, steps + [step], |steps|) ==> StepsOk(f, steps + [step])
  {
    var steps' := steps + [step];
    forall k | 0 <= k < |steps| ensures StepOk(f, steps', k) {
      assert StepOk(f, steps, k);
      assert steps'[..k] == steps[..k] && steps'[k] == steps[k];
      hide IsNote, IsCrew, Recorded, StepIds;
    }
  }

  lemma NextIsOk(f: Flow, order: seq<Id>, i: nat, outputs: map<Id, string>, steps: seq<LegacyStep>, step: LegacyStep)
    requires i < |order| && PredecessorsEarlier(f.edges, order)
    requires Ran(f, order, i, outputs, steps) && step.id == order[i]
    requires step.CrewStep? <==> IsCrew(f, step.id)
    requires step.ModelStep? ==> step.context == outputs
    ensures StepOk(f, steps + [step], |steps|)
  {
    hide StepsOk, Recorded, IsNote, IsCrew, StepIds;
    assert (steps + [step])[..|steps|] == steps;
    forall e | e in f.edges && e.to == step.id && !IsNote(f, e.from) ensures e.from in StepIds(steps) {
      assert e.from in order[..i];
    }
  }

  lemma ExtendIds(f: Flow, order: seq<Id>, i: nat, steps: seq<LegacyStep>, step: LegacyStep)
    requires i < |order| && Distinct(order) && StepIds(steps) == NonNotes(f, order[..i])
    requires step.id == order[i] && !IsNote(f, step.id)
    ensures StepIds(steps + [step]) == NonNotes(f, order[..i + 1])
    ensures forall k :: 0 <= k < |steps| ==> steps[k].id != step.id
  {
    forall k | 0 <= k < |steps| ensures steps[k].id != step.id {
      assert StepIds(steps)[k] in NonNotes(f, order[..i]);
    }
    assert order[..i + 1][..i] == order[..i];
  }

  lemma ExtendSteps(f: Flow, order: seq<Id>, i: nat, outputs: map<Id, string>, steps: seq<LegacyStep>, step: LegacyStep)
    requires i < |order| && Distinct(order) && PredecessorsEarlier(f.edges, order)
    requires Ran(f, order, i, outputs, steps)
    requires step.id == order[i] && !IsNote(f, step.id)
    requires step.CrewStep? <==> IsCrew(f, step.id)
    requires step.ModelStep? ==> step.context == outputs
    ensures Ran(f, order, i + 1, outputs[step.id := step.output], steps + [step])
  {
    hide StepsOk, StepOk, Recorded, IsNote, IsCrew, StepIds, NonNotes, PredecessorsEarlier, Distinct;
    NextIsOk(f, order, i, outputs, steps, step);
    ExtendOk(f, steps, step);
    ExtendIds(f, order, i, steps, step);
    RecordedStep(outputs, steps, step);
  }

  lemma SkipNote(f: Flow, order: seq<Id>, i: nat, outputs: map<Id, string>, steps: seq<LegacyStep>)
    requires i < |order| && IsNote(f, order[i]) && Ran(f, order, i, outputs, steps)
    ensures Ran(f, order, i + 1, outputs, steps)
  {
    hide StepsOk, IsNote, Recorded;
    assert order[..i + 1][..i] == order[..i];
  }

  lemma RecordedStep(outputs: map<Id, string>, steps: seq<LegacyStep>, step: LegacyStep)
    requires Recorded(outputs, steps)
    requires forall k :: 0 <= k < |steps| ==> steps[k].id != step.id
    ensures Recorded(outputs[step.id := step.output], steps + [step])
  {
    var steps' := steps + [step];
    forall x | x in outputs ensures exists k :: 0 <= k < |steps'| && steps'[k].id == x {
      var k :| 0 <= k < |steps| && steps[k].id == x;
      assert steps'[k].id == x;
    }
    assert steps'[|steps|].id == step.id;
  }

  lemma SameMembers(order: seq<Id>, ids: seq<Id>)
    requires multiset(order) == multiset(ids)
    ensures forall x :: x in order <==> x in ids
  {
    forall x ensures x in order <==> x in ids {
      assert x in multiset(order) <==> x in multiset(ids);
    }
  }

  lemma ListedIsFound(f: Flow, order: seq<Id>, i: nat)
    requires multiset(order) == multiset(IdsInOrder(f)) && i < |order|
    ensures FindNode(f.nodes, order[i]).Some?
  {
    SameMembers(order, IdsInOrder(f));
    assert order[i] in IdsInOrder(f);
  }

  /** The run of a legacy flow went through every node that is not a note once, in an order that respects every edge. */
  ghost predicate RanInOrder(f: Flow, steps: seq<LegacyStep>) {
    StepsOk(f, steps) && exists order :: IsTopological(f, order) && StepIds(steps) == NonNotes(f, order)
  }

  lemma NothingRan(f: Flow, order: seq<Id>)
    ensures Ran(f, order, 0, map[], [])
  {
    assert order[..0] == [];
  }

  lemma AllRan(f: Flow, order: seq<Id>, outputs: map<Id, string>, steps: seq<LegacyStep>)
    requires IsTopological(f, order) && Ran(f, order, |order|, outputs, steps)
    ensures RanInOrder(f, steps)
  {
    assert order[..|order|] == order;
    hide IsTopological, StepsOk;
  }

  /** A crew node without a crew. */
  predicate LacksCrew(f: Flow, id: Id) {
    exists n :: n in f.nodes && n.id == id && Text.Lower(n.kind) == "crew" && !n.hasCrew
  }

  /** The k-th node to run can run, and gets an answer. */
  predicate Works(f: Flow, ids: seq<Id>, reply: nat -> Option<string>, k: nat)
    requires k < |ids|
  {
    !LacksCrew(f, ids[k]) && reply(k).Some?
  }

  /** How a run through these nodes ends: with their outputs, or with the error of the first node that does not work. */
  ghost predicate EndsWith(f: Flow, ids: seq<Id>, reply: nat -> Option<string>, r: Result<seq<LegacyStep>, FlowError>) {
    match r
    case Success(steps) =>
      && StepIds(steps) == ids
      && forall k :: 0 <= k < |ids| ==> Works(f, ids, reply, k) && reply(k) == Some(steps[k].output)
    case Failure(e) => exists k: nat :: StopsAt(f, ids, reply, k, e)
  }

  ghost predicate StopsAt(f: Flow, ids: seq<Id>, reply: nat -> Option<string>, k: nat, e: FlowError) {
    && k < |ids| && (forall j :: 0 <= j < k ==> Works(f, ids, reply, j)) && !Works(f, ids, reply, k)
    && e == if LacksCrew(f, ids[k]) then MissingCrewSpec(ids[k]) else StepFailed(ids[k])
  }

  /** The ids of the nodes to run. */
  function ToRun(f: Flow): set<Id> {
    set n | n in f.nodes && Text.Lower(n.kind) != "note" :: n.id
  }

  /** No run fails: every crew node has a crew, and each of the nodes to run gets an answer. */
  predicate AllWork(f: Flow, reply: nat -> Option<string>) {
    (forall n :: n in f.nodes && Text.Lower(n.kind) == "crew" ==> n.hasCrew)
    && forall k :: 0 <= k < |ToRun(f)| ==> reply(k).Some?
  }

  /** What running a sortable flow gives: in some topological order, the end that order leads to. */
  ghost predicate LegacyResult(f: Flow, reply: nat -> Option<string>, r: Result<seq<LegacyStep>, FlowError>) {
    exists order :: IsTopological(f, order) && EndsWith(f, NonNotes(f, order), reply, r)
  }

  lemma {:induction false} NonNotesGrow(f: Flow, order: seq<Id>, i: nat)
    requires i <= |order|
    ensures NonNotes(f, order[..i]) <= NonNotes(f, order)
    decreases |order|
  {
    if i == |order| {
      assert order[..i] == order;
    } else {
      assert order[..|order| - 1][..i] == order[..i];
      NonNotesGrow(f, order[..|order| - 1], i);
    }
  }

  /** The first `|steps|` nodes worked. */
  ghost predicate Worked(f: Flow, reply: nat -> Option<string>, steps: seq<LegacyStep>) {
    forall k :: 0 <= k < |steps| ==> !LacksCrew(f, steps[k].id) && reply(k) == Some(steps[k].output)
  }

  /** The node reached is the next one to run. */
  lemma NextToRun(f: Flow, order: seq<Id>, i: nat, ran: seq<Id>)
    requires i < |order| && !IsNote(f, order[i]) && ran == NonNotes(f, order[..i])
    ensures ran + [order[i]] <= NonNotes(f, order)
  {
    hide IsNote;
    NonNotesGrow(f, order, i + 1);
    assert order[..i + 1][..i] == order[..i];
  }

  lemma StoppedHere(f: Flow, order: seq<Id>, i: nat, steps: seq<LegacyStep>, reply: nat -> Option<string>, e: FlowError)
    requires i < |order| && !IsNote(f, order[i]) && StepIds(steps) == NonNotes(f, order[..i]) && Worked(f, reply, steps)
    requires IsTopological(f, order) && (LacksCrew(f, order[i]) || reply(|steps|).None?)
    requires e == if LacksCrew(f, order[i]) then MissingCrewSpec(order[i]) else StepFailed(order[i])
    ensures LegacyResult(f, reply, Failure(e))
  {
    hide IsTopological, IsNote, LacksCrew, NonNotes;
    NextToRun(f, order, i, StepIds(steps));
    var ids, k := NonNotes(f, order), |steps|;
    assert ids[..k + 1] == StepIds(steps) + [order[i]];
    assert ids[k] == order[i];
    forall j | 0 <= j < k ensures Works(f, ids, reply, j) {
      assert ids[j] == ids[..k + 1][j] == steps[j].id;
    }
    assert StopsAt(f, ids, reply, k, e);
  }

  lemma AllWorked(f: Flow, order: seq<Id>, steps: seq<LegacyStep>, reply: nat -> Option<string>)
    requires IsTopological(f, order) && StepIds(steps) == NonNotes(f, order) && Worked(f, reply, steps)
    ensures LegacyResult(f, reply, Success(steps))
  {
    hide IsTopological, LacksCrew;
    forall k | 0 <= k < |steps| ensures Works(f, StepIds(steps), reply, k) {
    }
  }

  lemma {:induction false} NonNotesAreDistinct(f: Flow, ids: seq<Id>)
    requires Distinct(ids)
    ensures Distinct(NonNotes(f, ids))
  {
    if ids != [] {
      NonNotesAreDistinct(f, ids[..|ids| - 1]);
      assert ids == ids[..|ids| - 1] + [ids[|ids| - 1]];
    }
  }

  /** A topological order runs each node that is not a note once. */
  lemma RunsAll(f: Flow, order: seq<Id>)
    requires Sortable(f) && IsTopological(f, order)
    ensures Elems(NonNotes(f, order)) == ToRun(f) && |NonNotes(f, order)| == |ToRun(f)|
  {
    hide ClassOf;
    var ids := NonNotes(f, order);
    SameMembers(order, IdsInOrder(f));
    IdsAreElems(f);
    forall x ensures x in Elems(ids) <==> x in ToRun(f) {
      assert x in order <==> x in Elems(IdsInOrder(f));
      if x in Ids(f) {
        var n :| n in f.nodes && n.id == x;
        forall m | m in f.nodes && m.id == x ensures m == n {
          DistinctNodes(f, m, n);
        }
      }
    }
    NonNotesAreDistinct(f, order);
    DistinctCardinality(ids);
  }

  lemma AllWorkIff(f: Flow, ids: seq<Id>, reply: nat -> Option<string>)
    requires Elems(ids) == ToRun(f) && |ids| == |ToRun(f)|
    ensures AllWork(f, reply) <==> forall k :: 0 <= k < |ids| ==> Works(f, ids, reply, k)
  {
    if forall k :: 0 <= k < |ids| ==> Works(f, ids, reply, k) {
      forall n | n in f.nodes && Text.Lower(n.kind) == "crew" ensures n.hasCrew {
        assert n.id in Elems(ids);
        var k :| 0 <= k < |ids| && ids[k] == n.id;
        assert Works(f, ids, reply, k);
      }
      hide ToRun, Elems, LacksCrew;
      forall k | 0 <= k < |ids| ensures reply(k).Some? {
        assert Works(f, ids, reply, k);
      }
    }
  }

  /** Whatever the order: a run succeeds exactly if all crews are there and every answer asked for comes. */
  lemma SucceedsIff(f: Flow, reply: nat -> Option<string>, r: Result<seq<LegacyStep>, FlowError>)
    requires Sortable(f) && LegacyResult(f, reply, r)
    ensures r.Success? <==> AllWork(f, reply)
  {
    var order :| IsTopological(f, order) && EndsWith(f, NonNotes(f, order), reply, r);
    RunsAll(f, order);
    hide Sortable, IsTopological, NonNotes, AllWork, Works, ToRun, Elems;
    AllWorkIff(f, NonNotes(f, order), reply);
  }

  lemma ListedRuns(f: Flow, ids: seq<Id>, k: nat)
    requires k < |ids| && Elems(ids) == ToRun(f)
    ensures exists n :: n in f.nodes && n.id == ids[k] && Text.Lower(n.kind) != "note"
  {
    assert ids[k] in Elems(ids);
  }

  /** The error of a run names a crew node without a crew, or a node that can run and got no answer. */
  lemma FailureMeans(f: Flow, reply: nat -> Option<string>, e: FlowError)
    requires Sortable(f) && LegacyResult(f, reply, Failure(e))
    ensures e.MissingCrewSpec? || e.StepFailed?
    ensures e.MissingCrewSpec? ==>
              exists n :: n in f.nodes && n.id == e.id && Text.Lower(n.kind) == "crew" && !n.hasCrew
    ensures e.StepFailed? ==>
              && (exists n :: n in f.nodes && n.id == e.id && Text.Lower(n.kind) != "note")
              && exists k :: 0 <= k < |ToRun(f)| && reply(k).None?
  {
    var order :| IsTopological(f, order) && EndsWith(f, NonNotes(f, order), reply, Failure(e));
    var ids := NonNotes(f, order);
    RunsAll(f, order);
    hide Sortable, IsTopological, NonNotes, Elems;
    var k: nat :| StopsAt(f, ids, reply, k, e);
    ListedRuns(f, ids, k);
  }

  lemma WorkedOneMore(f: Flow, reply: nat -> Option<string>, steps: seq<LegacyStep>, step: LegacyStep)
    requires Worked(f, reply, steps) && !LacksCrew(f, step.id) && reply(|steps|) == Some(step.output)
    ensures Worked(f, reply, steps + [step])
  {
    hide LacksCrew;
  }

  lemma NothingWorked(f: Flow, reply: nat -> Option<string>)
    ensures Worked(f, reply, [])
  {
  }

  /** Why the run fails here. */
  lemma FailsHere(f: Flow, order: seq<Id>, i: nat, outputs: map<Id, string>, steps: seq<LegacyStep>,
                  reply: nat -> Option<string>, e: FlowError)
    requires i < |order| && !IsNote(f, order[i]) && Ran(f, order, i, outputs, steps) && Worked(f, reply, steps)
    requires Sortable(f) && IsTopological(f, order) && (LacksCrew(f, order[i]) || reply(|steps|).None?)
    requires e == if LacksCrew(f, order[i]) then MissingCrewSpec(order[i]) else StepFailed(order[i])
    ensures LegacyResult(f, reply, Failure(e)) && !AllWork(f, reply)
  {
    hide Ran, Worked, Sortable, IsTopological, IsNote, LacksCrew, LegacyResult, AllWork;
    RanIds(f, order, i, outputs, steps);
    StoppedHere(f, order, i, steps, reply, e);
    SucceedsIff(f, reply, Failure(e));
  }

  lemma Succeeds(f: Flow, order: seq<Id>, outputs: map<Id, string>, steps: seq<LegacyStep>,
                 reply: nat -> Option<string>)
    requires Ran(f, order, |order|, outputs, steps) && Worked(f, reply, steps) && Sortable(f) && IsTopological(f, order)
    ensures RanInOrder(f, steps) && LegacyResult(f, reply, Success(steps)) && AllWork(f, reply)
  {
    hide Ran, Worked, Sortable, IsTopological, LegacyResult, AllWork, RanInOrder;
    AllRan(f, order, outputs, steps);
    RanIds(f, order, |order|, outputs, steps);
    assert order[..|order|] == order;
    AllWorked(f, order, steps, reply);
    SucceedsIff(f, reply, Success(steps));
  }

  /** Runs every node in topological order; `reply` is what the model or crew returns for each executed step. */
  method RunLegacy(f: Flow, reply: nat -> Option<string>) returns (r: Result<seq<LegacyStep>, FlowError>)
    ensures r.Success? ==> RanInOrder(f, r.value)
    ensures Sortable(f) ==> LegacyResult(f, reply, r)
    ensures r.Success? <==> Sortable(f) && AllWork(f, reply)
    ensures r.Failure? && !Sortable(f) ==>
              r.error.NoNodes? || r.error.UnknownSource? || r.error.UnknownTarget? || r.error.HasCycle?
  {
    hide Sortable, Ran, RanInOrder, ClassOf, PredecessorsEarlier, Respects, Distinct, IsNote, IsCrew, LacksCrew,
      AllWork, LegacyResult, Worked;
    var sorted := ExecutionOrder(f);
    if sorted.Failure? {
      return Failure(sorted.error);
    }
    var order := sorted.value;
    var outputs: map<Id, string> := map[];
    var steps: seq<LegacyStep> := [];
    NothingRan(f, order);
    NothingWorked(f, reply);
    SortableIds(f);
    for i := 0 to |order|
      invariant Ran(f, order, i, outputs, steps) && Worked(f, reply, steps)
    {
      var id := order[i];
      ListedIsFound(f, order, i);
      var found := FindNode(f.nodes, id);
      if found.None? {
        return Failure(MissingNode(id));
      }
      var node := found.value;
      UniqueNode(f, node);
      if ClassOf(node.kind) == Note {
        SkipNote(f, order, i, outputs, steps);
        continue;
      }
      var isCrew := Text.Lower(node.kind) == "crew" || node.hasCrew;
      if isCrew && !node.hasCrew {
        FailsHere(f, order, i, outputs, steps, reply, MissingCrewSpec(id));
        return Failure(MissingCrewSpec(id));
      }
      var output := reply(|steps|);
      if output.None? {
        FailsHere(f, order, i, outputs, steps, reply, StepFailed(id));
        return Failure(StepFailed(id));
      }
      var step := if isCrew then CrewStep(id, output.value) else ModelStep(id, outputs, output.value);
      ExtendSteps(f, order, i, outputs, steps, step);
      WorkedOneMore(f, reply, steps, step);
      steps, outputs := steps + [step], outputs[id := step.output];
    }
    Succeeds(f, order, outputs, steps, reply);
    return Success(steps);
  }

  lemma RanIds(f: Flow, order: seq<Id>, i: nat, outputs: map<Id, string>, steps: seq<LegacyStep>)
    requires i <= |order| && Ran(f, order, i, outputs, steps)
    ensures StepIds(steps) == NonNotes(f, order[..i])
  {
  }

  lemma SortableIds(f: Flow)
    requires Sortable(f)
    ensures Distinct(IdsInOrder(f))
  {
  }
}
