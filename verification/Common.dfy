/** Result and option types, and a few facts about sequences without repetitions. */
module Common {

  datatype Option<+T> = None | Some(value: T)

  datatype Result<+T, +E> = Success(value: T) | Failure(error: E)

  ghost predicate Distinct<T(!new)>(s: seq<T>) {
    forall i, j :: 0 <= i < j < |s| ==> s[i] != s[j]
  }

  function SaturatingSub(a: nat, b: nat): nat {
    if a < b then 0 else a - b
  }

  function Elems<T>(s: seq<T>): set<T> {
    set x | x in s
  }

  lemma {:induction false} DistinctCardinality<T(!new)>(s: seq<T>)
    ensures |Elems(s)| <= |s|
    ensures |Elems(s)| == |s| <==> Distinct(s)
  {
    if s != [] {
      var rest := s[1..];
      DistinctCardinality(rest);
      assert Elems(s) == {s[0]} + Elems(rest);
      if s[0] in rest {
        assert Elems(s) == Elems(rest);
      } else {
        assert Distinct(rest) ==> Distinct(s);
      }
      assert Distinct(s) ==> Distinct(rest);
    }
  }

  lemma SubsetCardinality<T>(a: set<T>, b: set<T>)
    requires a <= b
    ensures |a| <= |b|
    ensures |a| == |b| ==> a == b
  {
    assert b == a + (b - a);
  }

  lemma {:induction false} DistinctPermutation<T(!new)>(s: seq<T>, t: seq<T>)
    requires Distinct(s) && Distinct(t) && Elems(s) == Elems(t)
    ensures multiset(s) == multiset(t)
  {
    forall x ensures multiset(s)[x] == multiset(t)[x] {
      DistinctMultiplicity(s, x);
      DistinctMultiplicity(t, x);
      assert x in s <==> x in Elems(s);
      assert x in t <==> x in Elems(t);
    }
  }

  lemma {:induction false} DistinctMultiplicity<T(!new)>(s: seq<T>, x: T)
    requires Distinct(s)
    ensures multiset(s)[x] == if x in s then 1 else 0
  {
    if s != [] {
      assert s == [s[0]] + s[1..];
      DistinctMultiplicity(s[1..], x);
    }
  }
}
