/** Directed graphs as sets of pairs: walks, cycles, and orders that respect every edge. */
module Graph {
  import opened Common

  type Id = string
  type Rel = set<(Id, Id)>

  ghost predicate IsWalk(E: Rel, p: seq<Id>) {
    && p != []
    && forall i :: 0 <= i < |p| - 1 ==> Link(E, p, i)
  }

  ghost predicate Link(E: Rel, p: seq<Id>, i: nat)
    requires i + 1 < |p|
  {
    (p[i], p[i + 1]) in E
  }

  ghost predicate Reaches(E: Rel, u: Id, v: Id) {
    exists p :: IsWalk(E, p) && p[0] == u && p[|p| - 1] == v
  }

  ghost predicate IsCycle(E: Rel, p: seq<Id>) {
    IsWalk(E, p) && |p| >= 2 && p[0] == p[|p| - 1]
  }

  ghost predicate Acyclic(E: Rel) {
    forall p :: !IsCycle(E, p)
  }

  /** Every edge between two listed nodes goes from an earlier position to a later one. */
  ghost predicate Respects(order: seq<Id>, E: Rel) {
    forall i, j :: 0 <= i < |order| && 0 <= j < |order| && (order[i], order[j]) in E ==> i < j
  }

  ghost predicate HasPredecessor(S: set<Id>, E: Rel, v: Id) {
    exists u :: u in S && (u, v) in E
  }

  ghost function IndexOf(order: seq<Id>, v: Id): (i: nat)
    requires v in order
    ensures i < |order| && order[i] == v
  {
    var i :| 0 <= i < |order| && order[i] == v; i
  }

  lemma {:induction false} WalkClimbs(order: seq<Id>, E: Rel, p: seq<Id>, k: nat)
    requires Respects(order, E) && IsWalk(E, p) && k < |p|
    requires forall v :: v in p ==> v in order
    ensures IndexOf(order, p[0]) + k <= IndexOf(order, p[k])
  {
    if k > 0 {
      WalkClimbs(order, E, p, k - 1);
      assert Link(E, p, k - 1);
    }
  }

  lemma OrderedIsAcyclic(order: seq<Id>, E: Rel)
    requires Respects(order, E)
    requires forall e :: e in E ==> e.0 in order && e.1 in order
    ensures Acyclic(E)
  {
    forall p | IsCycle(E, p) ensures false {
      forall v | v in p ensures v in order {
        var i :| 0 <= i < |p| && p[i] == v;
        if i + 1 < |p| {
          assert Link(E, p, i);
        } else {
          assert Link(E, p, i - 1);
        }
      }
      WalkClimbs(order, E, p, |p| - 1);
    }
  }

  lemma {:induction false} WalkBackwards(S: set<Id>, E: Rel, n: nat) returns (p: seq<Id>)
    requires S != {}
    requires forall v :: v in S ==> HasPredecessor(S, E, v)
    ensures |p| == n + 1 && IsWalk(E, p) && Elems(p) <= S
  {
    if n == 0 {
      var v :| v in S;
      p := [v];
    } else {
      var q := WalkBackwards(S, E, n - 1);
      assert q[0] in Elems(q);
      assert HasPredecessor(S, E, q[0]);
      var u :| u in S && (u, q[0]) in E;
      p := [u] + q;
      forall i | 0 <= i < n ensures Link(E, p, i) {
        assert i > 0 ==> Link(E, q, i - 1);
      }
      assert Elems(p) == {u} + Elems(q);
    }
  }

  /** Pigeonhole: a finite nonempty set in which every node has a predecessor contains a cycle. */
  lemma NoSourceHasCycle(S: set<Id>, E: Rel)
    requires S != {}
    requires forall v :: v in S ==> HasPredecessor(S, E, v)
    ensures !Acyclic(E)
  {
    var p := WalkBackwards(S, E, |S|);
    SubsetCardinality(Elems(p), S);
    DistinctCardinality(p);
    var i, j :| 0 <= i < j < |p| && p[i] == p[j];
    var c := p[i..j + 1];
    forall k | 0 <= k < |c| - 1 ensures Link(E, c, k) {
      assert Link(E, p, i + k);
    }
    assert IsCycle(E, c);
  }

  lemma {:induction false} AcyclicHasOrder(V: set<Id>, E: Rel) returns (order: seq<Id>)
    requires Acyclic(E)
    ensures Distinct(order) && Elems(order) == V && Respects(order, E)
  {
    if V == {} {
      order := [];
    } else {
      if forall v :: v in V ==> HasPredecessor(V, E, v) {
        NoSourceHasCycle(V, E);
      }
      var v :| v in V && !HasPredecessor(V, E, v);
      var rest := AcyclicHasOrder(V - {v}, E);
      order := [v] + rest;
      assert Elems(order) == {v} + Elems(rest);
      assert forall i :: 0 <= i < |rest| ==> rest[i] in Elems(rest);
      assert forall i :: 0 <= i < |order| ==> order[i] in V;
      forall i, j | 0 <= i < |order| && 0 <= j < |order| && (order[i], order[j]) in E ensures i < j {
        assert j != 0;
        if i > 0 {
          assert order[i] == rest[i - 1] && order[j] == rest[j - 1];
        }
      }
    }
  }
}
