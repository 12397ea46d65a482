/** Facts about sequences used throughout the model. */
module Seqs {

  /** No element occurs twice. */
  ghost predicate Distinct<T>(s: seq<T>)
  {
    forall i, j :: 0 <= i < j < |s| ==> s[i] != s[j]
  }

  /** Two sequences without a common element, each without repeats, concatenate to one without repeats. */
  lemma DistinctConcat<T>(a: seq<T>, b: seq<T>)
    requires Distinct(a) && Distinct(b)
    requires forall x :: x in a ==> x !in b
    ensures Distinct(a + b)
  {
    forall i, j | 0 <= i < j < |a + b|
      ensures (a + b)[i] != (a + b)[j]
    {
      if j >= |a| && i < |a| {
        assert (a + b)[i] in a;
        assert (a + b)[j] == b[j - |a|];
      }
    }
  }

  /** A sequence without repeats has as many distinct elements as it is long. */
  lemma {:induction false} DistinctCardinality<T>(s: seq<T>)
    requires Distinct(s)
    ensures |set x | x in s| == |s|
  {
    if s != [] {
      var rest := s[1..];
      assert Distinct(rest) by {
        forall i, j | 0 <= i < j < |rest| ensures rest[i] != rest[j] {
          assert rest[i] == s[i + 1] && rest[j] == s[j + 1];
        }
      }
      DistinctCardinality(rest);
      assert s[0] !in rest by {
        forall k | 0 <= k < |rest| ensures rest[k] != s[0] {
          assert rest[k] == s[k + 1];
        }
      }
      assert (set x | x in s) == {s[0]} + (set x | x in rest) by {
        assert s == [s[0]] + rest;
      }
    }
  }

  /** The concatenation of a sequence of sequences, in order. */
  function Flatten<T>(ss: seq<seq<T>>): seq<T>
  {
    if |ss| == 0 then [] else Flatten(ss[..|ss| - 1]) + ss[|ss| - 1]
  }

  lemma FlattenAppend<T>(ss: seq<seq<T>>, s: seq<T>)
    ensures Flatten(ss + [s]) == Flatten(ss) + s
  {
    assert (ss + [s])[..|ss|] == ss;
  }

  /** An element of the concatenation is an element of one of the parts, and back. */
  lemma {:induction false} InFlatten<T>(ss: seq<seq<T>>, x: T)
    ensures x in Flatten(ss) <==> exists m :: 0 <= m < |ss| && x in ss[m]
  {
    if |ss| > 0 {
      var init := ss[..|ss| - 1];
      InFlatten(init, x);
      assert forall m :: 0 <= m < |init| ==> init[m] == ss[m];
      if x in Flatten(init) {
        var m :| 0 <= m < |init| && x in init[m];
        assert x in ss[m];
      }
    }
  }

  /** Parts each without repeats and pairwise without common elements concatenate to a
      sequence without repeats, as long as all parts together. */
  lemma {:induction false} DistinctFlatten<T>(ss: seq<seq<T>>, n: nat)
    requires forall m :: 0 <= m < |ss| ==> Distinct(ss[m]) && |ss[m]| == n
    requires forall m, m' :: 0 <= m < m' < |ss| ==> forall x :: x in ss[m] ==> x !in ss[m']
    ensures Distinct(Flatten(ss)) && |Flatten(ss)| == n * |ss|
  {
    if |ss| > 0 {
      var init, last := ss[..|ss| - 1], ss[|ss| - 1];
      assert forall m :: 0 <= m < |init| ==> init[m] == ss[m];
      DistinctFlatten(init, n);
      forall x | x in Flatten(init)
        ensures x !in last
      {
        InFlatten(init, x);
      }
      DistinctConcat(Flatten(init), last);
    }
  }
}
