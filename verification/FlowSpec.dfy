/** Flow graphs as the workflow builder stores them, and the lookups both execution modes share. */
module FlowSpec {
  import opened Common
  import opened Graph
  import Text

  datatype Node = Node(
    id: Id,
    kind: string,
    hasCrew: bool,
    maxIterations: nat,
    sourceNodeId: string,
    guardrailTemplate: string,
    continueOnError: bool,
    transformMode: string,
    transformFrom: string,
    transformExpressions: string,
    transformObject: string)

  datatype Edge = Edge(from: Id, to: Id, tag: Option<string>)

  datatype Flow = Flow(nodes: seq<Node>, edges: seq<Edge>)

  datatype FlowError =
    | NoNodes
    | UnknownSource(id: Id)
    | UnknownTarget(id: Id)
    | HasCycle
    | MissingNode(id: Id)
    | MissingCrewSpec(id: Id)
    | StepFailed(id: Id)
    | WrongStartCount(count: nat)
    | WrongStartEdges(count: nat)
    | MissingBranches(id: Id)
    | EndHasEdges(id: Id)
    | AmbiguousEdges(id: Id)
    | NeedsGuardrailSource(id: Id)
    | UnknownGuardrailSource(id: Id)
    | UnknownTransformSource(id: Id)
    | Unreachable(id: Id)
    | NoBranchComputed(id: Id)
    | MissingLabel(id: Id, want: string)
    | UnknownKind(id: Id)
    | MaxStepsExceeded

  /** What a node's `kind` selects, once lower-cased. Kinds with the same control flow share a class. */
  datatype Class = Note | Start | End | Approval | If | While | Guardrails | Transform | Action | Unknown

  function ClassOf(kind: string): Class {
    var k := Text.Lower(kind);
    if k == "note" then Note
    else if k == "start" then Start
    else if k == "end" then End
    else if k in ["human_approval", "humanapproval", "user_approval", "userapproval"] then Approval
    else if k in ["if", "ifelse"] then If
    else if k == "while" then While
    else if k == "guardrails" then Guardrails
    else if k == "transform" then Transform
    else if k in ["mcp", "file_search", "filesearch", "set_state", "setstate", "crew", "agent", "classify", "", "llm"]
    then Action
    else Unknown
  }

  function IdsInOrder(f: Flow): (ids: seq<Id>)
    ensures |ids| == |f.nodes|
  {
    seq(|f.nodes|, i requires 0 <= i < |f.nodes| => f.nodes[i].id)
  }

  function Ids(f: Flow): set<Id> {
    set n | n in f.nodes :: n.id
  }

  lemma IdsAreElems(f: Flow)
    ensures Elems(IdsInOrder(f)) == Ids(f)
  {
    forall x | x in Ids(f) ensures x in Elems(IdsInOrder(f)) {
      var n :| n in f.nodes && n.id == x;
      var i :| 0 <= i < |f.nodes| && f.nodes[i] == n;
      assert IdsInOrder(f)[i] == x;
    }
  }

  function Arcs(edges: seq<Edge>): Rel {
    set e | e in edges :: (e.from, e.to)
  }

  predicate NoDangling(f: Flow) {
    forall e :: e in f.edges ==> e.from in Ids(f) && e.to in Ids(f)
  }

  /** The first node with the given id: duplicate ids hide later nodes. */
  function FindNode(nodes: seq<Node>, id: Id): (r: Option<Node>)
    ensures r.Some? ==> r.value in nodes && r.value.id == id
    ensures r.None? ==> forall n :: n in nodes ==> n.id != id
  {
    if nodes == [] then None
    else if nodes[0].id == id then Some(nodes[0])
    else FindNode(nodes[1..], id)
  }

  /** The i-th node is the first with this id. */
  predicate IsFirstWith(nodes: seq<Node>, id: Id, i: nat) {
    i < |nodes| && nodes[i].id == id && forall j :: 0 <= j < i ==> nodes[j].id != id
  }

  /** Of several nodes with one id the one listed first is found. */
  lemma {:induction false} FirstNodeIsFound(nodes: seq<Node>, id: Id, i: nat)
    requires IsFirstWith(nodes, id, i)
    ensures FindNode(nodes, id) == Some(nodes[i])
  {
    if i > 0 {
      assert nodes[0].id != id;
      FirstNodeIsFound(nodes[1..], id, i - 1);
    }
  }

  /** The edges leaving `u`, in the order the flow lists them. */
  function OutEdges(edges: seq<Edge>, u: Id): (outs: seq<Edge>)
    ensures forall e :: e in outs <==> e in edges && e.from == u
  {
    if edges == [] then []
    else
      var last := edges[|edges| - 1];
      OutEdges(edges[..|edges| - 1], u) + if last.from == u then [last] else []
  }

  lemma OutEdgesOfOneMore(edges: seq<Edge>, e: Edge, u: Id)
    ensures OutEdges(edges + [e], u) == OutEdges(edges, u) + if e.from == u then [e] else []
  {
    assert (edges + [e])[..|edges|] == edges;
  }

  function Lookup<T>(m: map<Id, seq<T>>, u: Id): seq<T> {
    if u in m then m[u] else []
  }

  /** An adjacency map filled edge by edge; an id without outgoing edges has no entry. */
  method OutgoingMap(f: Flow) returns (adj: map<Id, seq<Edge>>)
    ensures forall u :: Lookup(adj, u) == OutEdges(f.edges, u)
  {
    adj := map[];
    for i := 0 to |f.edges|
      invariant forall u :: Lookup(adj, u) == OutEdges(f.edges[..i], u)
    {
      var e := f.edges[i];
      assert f.edges[..i + 1][..i] == f.edges[..i];
      adj := adj[e.from := Lookup(adj, e.from) + [e]];
    }
    assert f.edges[..|f.edges|] == f.edges;
  }

  /** The i-th edge is the first that names an unknown node. */
  predicate FirstDangling(f: Flow, i: nat) {
    && i < |f.edges| && (f.edges[i].from !in Ids(f) || f.edges[i].to !in Ids(f))
    && forall k :: 0 <= k < i ==> f.edges[k].from in Ids(f) && f.edges[k].to in Ids(f)
  }

  function Offence(f: Flow, e: Edge): FlowError {
    if e.from !in Ids(f) then UnknownSource(e.from) else UnknownTarget(e.to)
  }

  /** Rejects empty flows and edges that name an unknown node, reporting the first offence. */
  method Validate(f: Flow) returns (r: Result<(), FlowError>)
    ensures r.Success? <==> f.nodes != [] && NoDangling(f)
    ensures r == Failure(NoNodes) <==> f.nodes == []
    ensures r.Failure? && f.nodes != [] ==> exists i: nat :: FirstDangling(f, i) && r.error == Offence(f, f.edges[i])
  {
    if f.nodes == [] {
      return Failure(NoNodes);
    }
    var ids := Ids(f);
    for i := 0 to |f.edges|
      invariant forall k :: 0 <= k < i ==> f.edges[k].from in ids && f.edges[k].to in ids
    {
      var e := f.edges[i];
      assert e.from !in ids || e.to !in ids ==> FirstDangling(f, i);
      if e.from !in ids {
        return Failure(UnknownSource(e.from));
      }
      if e.to !in ids {
        return Failure(UnknownTarget(e.to));
      }
    }
    return Success(());
  }
}
