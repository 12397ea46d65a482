/** The random helpers of the generator: getRandomInt, getRandomVersion,
    getOppositeVersion and shuffle.  Math.random is replaced by an injected
    stream of draws: the t-th call returns rand(t) / Unit. */
module Random {
  import opened Seqs

  /** Every draw u stands for the double u / 2^53 in [0, 1). */
  const Unit: nat := 0x20_0000_0000_0000

  /** The draw stream only yields values in [0, Unit). */
  ghost predicate ValidRandom(rand: nat -> nat)
  {
    forall t :: rand(t) < Unit
  }

  /** Math.floor(Math.random() * max) when Math.random() returned u / Unit. */
  function RandomInt(u: nat, max: nat): (r: nat)
    requires u < Unit
    ensures max == 0 ==> r == 0
    ensures max > 0 ==> r < max
  {
    ScaledBelow(u, max);
    u * max / Unit
  }

  lemma ScaledBelow(u: nat, max: nat)
    requires u < Unit
    ensures max > 0 ==> u * max / Unit < max
  {
    if max > 0 {
      var q := u * max / Unit;
      assert (Unit - u) * max > 0;
      assert u * max < Unit * max;
      assert q * Unit <= u * max;
    }
  }

  /** The two counterbalancing labels. */
  datatype Version = A | B
  {
    /** The label as it appears in frame identifiers. */
    function Label(): string
    {
      if this == A then "A" else "B"
    }
  }

  /** getRandomVersion: "A" when getRandomInt(100) is odd, "B" when it is even. */
  function RandomVersion(u: nat): Version
    requires u < Unit
  {
    if RandomInt(u, 100) % 2 == 1 then A else B
  }

  /** Both labels can come out of the coin toss. */
  lemma RandomVersionReachesBoth()
    ensures exists u: nat :: u < Unit && RandomVersion(u) == A
    ensures exists u: nat :: u < Unit && RandomVersion(u) == B
  {
    var a := Unit / 64;
    assert a * 100 == 2 * Unit - 28 * a;
    assert Unit <= a * 100 < 2 * Unit;
    assert RandomInt(a, 100) == 1;
    assert RandomVersion(a) == A;
    assert RandomInt(0, 100) == 0;
    assert RandomVersion(0) == B;
  }

  /** getOppositeVersion. */
  function Opposite(v: Version): (r: Version)
    ensures r != v
  {
    if v == A then B else A
  }

  lemma OppositeInvolutive(v: Version)
    ensures Opposite(Opposite(v)) == v
  {
  }

  /** Number of calls of Math.random that shuffling n elements makes. */
  function ShuffleDraws(n: nat): nat
  {
    if n == 0 then 0 else n - 1
  }

  /** Exchanges the elements at positions i and j. */
  function Swap<T>(s: seq<T>, i: nat, j: nat): (r: seq<T>)
    requires i < |s| && j < |s|
  {
    s[i := s[j]][j := s[i]]
  }

  /** The remaining iterations i, i-1, ..., 1 of shuffle's loop on the copy b,
      the first of them using draw pos.  The partner j is drawn from [0, i). */
  function ShuffleFrom<T>(b: seq<T>, i: nat, rand: nat -> nat, pos: nat): seq<T>
    requires ValidRandom(rand) && i < |b|
    decreases i
  {
    if i == 0 then b
    else ShuffleFrom(Swap(b, i, RandomInt(rand(pos), i)), i - 1, rand, pos + 1)
  }

  /** What shuffle returns for s when its first draw is pos. */
  function Shuffled<T>(s: seq<T>, rand: nat -> nat, pos: nat): seq<T>
    requires ValidRandom(rand)
  {
    if |s| == 0 then s else ShuffleFrom(s, |s| - 1, rand, pos)
  }

  /** shuffle: copies the array and swaps from the end downwards. */
  method Shuffle<T>(s: seq<T>, rand: nat -> nat, pos: nat) returns (r: seq<T>, next: nat)
    requires ValidRandom(rand)
    ensures r == Shuffled(s, rand, pos)
    ensures next == pos + ShuffleDraws(|s|)
  {
    var shuffled := new T[|s|](k requires 0 <= k < |s| => s[k]);
    assert shuffled[..] == s;
    var i := |s| - 1;
    next := pos;
    while i > 0
      invariant -1 <= i < |s| && (i == -1 <==> |s| == 0)
      invariant next == pos + (|s| - 1 - i)
      invariant |s| > 0 ==> ShuffleFrom(shuffled[..], i, rand, next) == Shuffled(s, rand, pos)
    {
      var j := RandomInt(rand(next), i);
      ghost var before := shuffled[..];
      var temp := shuffled[i];
      shuffled[i] := shuffled[j];
      shuffled[j] := temp;
      assert shuffled[..] == Swap(before, i, j);
      next := next + 1;
      i := i - 1;
    }
    r := shuffled[..];
  }

  lemma {:induction false} ShuffleFromPermutes<T>(b: seq<T>, i: nat, rand: nat -> nat, pos: nat)
    requires ValidRandom(rand) && i < |b|
    ensures |ShuffleFrom(b, i, rand, pos)| == |b|
    ensures multiset(ShuffleFrom(b, i, rand, pos)) == multiset(b)
    decreases i
  {
    if i > 0 {
      var j := RandomInt(rand(pos), i);
      SwapPermutes(b, i, j);
      ShuffleFromPermutes(Swap(b, i, j), i - 1, rand, pos + 1);
    }
  }

  lemma SwapPermutes<T>(b: seq<T>, i: nat, j: nat)
    requires i < |b| && j < |b|
    ensures |Swap(b, i, j)| == |b| && multiset(Swap(b, i, j)) == multiset(b)
  {
    var c := b[i := b[j]];
    assert multiset(c) == multiset(b) - multiset{b[i]} + multiset{b[j]};
    assert multiset(c[j := b[i]]) == multiset(c) - multiset{c[j]} + multiset{b[i]};
  }

  /** shuffle returns a permutation of its input. */
  lemma ShuffledPermutes<T>(s: seq<T>, rand: nat -> nat, pos: nat)
    requires ValidRandom(rand)
    ensures |Shuffled(s, rand, pos)| == |s|
    ensures multiset(Shuffled(s, rand, pos)) == multiset(s)
  {
    if |s| > 0 {
      ShuffleFromPermutes(s, |s| - 1, rand, pos);
    }
  }

  /** For 0 or 1 elements the loop does not run and the copy is returned as it is. */
  lemma ShuffledShort<T>(s: seq<T>, rand: nat -> nat, pos: nat)
    requires ValidRandom(rand) && |s| <= 1
    ensures Shuffled(s, rand, pos) == s
  {
  }

  lemma SwapKeepsDistinct<T>(b: seq<T>, i: nat, j: nat)
    requires i < |b| && j < |b| && Distinct(b)
    ensures Distinct(Swap(b, i, j))
  {
    var c := Swap(b, i, j);
    forall p, q | 0 <= p < q < |c| ensures c[p] != c[q] {
      var p' := if p == i then j else if p == j then i else p;
      var q' := if q == i then j else if q == j then i else q;
      assert c[p] == b[p'] && c[q] == b[q'];
    }
  }

  lemma {:induction false} ShuffleFromKeepsDistinct<T>(b: seq<T>, i: nat, rand: nat -> nat, pos: nat)
    requires ValidRandom(rand) && i < |b| && Distinct(b)
    ensures Distinct(ShuffleFrom(b, i, rand, pos))
    decreases i
  {
    if i > 0 {
      var j := RandomInt(rand(pos), i);
      SwapKeepsDistinct(b, i, j);
      ShuffleFromKeepsDistinct(Swap(b, i, j), i - 1, rand, pos + 1);
    }
  }

  /** Shuffling elements that are pairwise different yields elements that are pairwise different. */
  lemma ShuffledKeepsDistinct<T>(s: seq<T>, rand: nat -> nat, pos: nat)
    requires ValidRandom(rand) && Distinct(s)
    ensures Distinct(Shuffled(s, rand, pos))
  {
    if |s| > 0 {
      ShuffleFromKeepsDistinct(s, |s| - 1, rand, pos);
    }
  }

  /** The swaps ignore the elements: if entry k of b is s[idx[k]], then after the same
      iterations on b and on idx, entry k of b is still s at entry k of idx. */
  lemma {:induction false} ShuffleFromAlong<T>(b: seq<T>, idx: seq<nat>, s: seq<T>, i: nat, rand: nat -> nat, pos: nat)
    requires ValidRandom(rand) && i < |b| && |idx| == |b|
    requires forall k :: 0 <= k < |b| ==> idx[k] < |s| && b[k] == s[idx[k]]
    ensures |ShuffleFrom(b, i, rand, pos)| == |b| && |ShuffleFrom<nat>(idx, i, rand, pos)| == |b|
    ensures forall k :: 0 <= k < |b| ==>
      ShuffleFrom<nat>(idx, i, rand, pos)[k] < |s| && ShuffleFrom(b, i, rand, pos)[k] == s[ShuffleFrom<nat>(idx, i, rand, pos)[k]]
    decreases i
  {
    if i > 0 {
      var j := RandomInt(rand(pos), i);
      var b', idx' := Swap(b, i, j), Swap(idx, i, j);
      forall k | 0 <= k < |b|
        ensures idx'[k] < |s| && b'[k] == s[idx'[k]]
      {
        var k' := if k == i then j else if k == j then i else k;
        assert b'[k] == b[k'] && idx'[k] == idx[k'];
      }
      ShuffleFromAlong(b', idx', s, i - 1, rand, pos + 1);
    }
  }

  /** Shuffling a sequence is shuffling its indices and reading the sequence there. */
  lemma ShuffledAlong<T>(b: seq<T>, idx: seq<nat>, s: seq<T>, rand: nat -> nat, pos: nat)
    requires ValidRandom(rand) && |idx| == |b|
    requires forall k :: 0 <= k < |b| ==> idx[k] < |s| && b[k] == s[idx[k]]
    ensures |Shuffled(b, rand, pos)| == |b| && |Shuffled<nat>(idx, rand, pos)| == |b|
    ensures forall k :: 0 <= k < |b| ==>
      Shuffled<nat>(idx, rand, pos)[k] < |s| && Shuffled(b, rand, pos)[k] == s[Shuffled<nat>(idx, rand, pos)[k]]
  {
    if |b| > 0 {
      ShuffleFromAlong(b, idx, s, |b| - 1, rand, pos);
    }
  }

  /** Entry k of a shuffled sequence is the entry of s at entry k of the shuffled indices. */
  lemma ShuffledByIndex<T>(s: seq<T>, idx: seq<nat>, rand: nat -> nat, pos: nat)
    requires ValidRandom(rand) && |idx| == |s|
    requires forall k :: 0 <= k < |s| ==> idx[k] == k
    ensures |Shuffled(s, rand, pos)| == |s| && |Shuffled<nat>(idx, rand, pos)| == |s|
    ensures forall k :: 0 <= k < |s| ==>
      Shuffled<nat>(idx, rand, pos)[k] < |s| && Shuffled(s, rand, pos)[k] == s[Shuffled<nat>(idx, rand, pos)[k]]
  {
    ShuffledAlong(s, idx, s, rand, pos);
  }

  /** Before iteration i of the loop on the copy b of s: the positions above i are
      final and hold no element of s at its own index; a position at or below i
      still holds its own element or one that came from above i. */
  ghost predicate SattoloInvariant<T>(s: seq<T>, b: seq<T>, i: nat)
  {
    && |b| == |s|
    && i < |s|
    && (forall k :: i < k < |s| ==> b[k] != s[k])
    && (forall k :: 0 <= k <= i ==> b[k] == s[k] || b[k] in s[i + 1..])
  }

  lemma FromAboveIsNotOwn<T>(s: seq<T>, x: T, k: nat, i: nat)
    requires Distinct(s) && k <= i < |s| && x in s[i + 1..]
    ensures x != s[k]
  {
    var m :| 0 <= m < |s[i + 1..]| && s[i + 1..][m] == x;
    assert s[i + 1 + m] == x;
  }

  lemma SattoloStep<T>(s: seq<T>, b: seq<T>, i: nat, j: nat)
    requires Distinct(s) && SattoloInvariant(s, b, i) && j < i
    ensures SattoloInvariant(s, Swap(b, i, j), i - 1)
  {
    var c := Swap(b, i, j);
    assert s[i..] == [s[i]] + s[i + 1..];
    // the element moved up to the final position i is not s[i]
    if b[j] != s[j] {
      FromAboveIsNotOwn(s, b[j], i, i);
    }
    assert c[i] != s[i];
    forall k | 0 <= k <= i - 1
      ensures c[k] == s[k] || c[k] in s[i..]
    {
      if k == j {
        assert c[k] == b[i];
      } else {
        assert c[k] == b[k];
      }
    }
  }

  lemma {:induction false} ShuffleFromDeranges<T>(s: seq<T>, b: seq<T>, i: nat, rand: nat -> nat, pos: nat)
    requires ValidRandom(rand) && Distinct(s) && 1 <= i && SattoloInvariant(s, b, i)
    ensures |ShuffleFrom(b, i, rand, pos)| == |s|
    ensures forall k :: 0 <= k < |s| ==> ShuffleFrom(b, i, rand, pos)[k] != s[k]
    decreases i
  {
    var j := RandomInt(rand(pos), i);
    var c := Swap(b, i, j);
    SattoloStep(s, b, i, j);
    if i == 1 {
      assert j == 0 && c[0] == b[1];
      if b[1] != s[1] {
        FromAboveIsNotOwn(s, b[1], 0, 1);
      }
      assert ShuffleFrom(b, i, rand, pos) == c;
    } else {
      ShuffleFromDeranges(s, c, i - 1, rand, pos + 1);
    }
  }

  /** The partner is drawn from [0, i) (Sattolo's variant): for two or more
      pairwise different elements no element stays at its own index. */
  lemma ShuffledDeranges<T>(s: seq<T>, rand: nat -> nat, pos: nat)
    requires ValidRandom(rand) && Distinct(s) && |s| >= 2
    ensures |Shuffled(s, rand, pos)| == |s|
    ensures forall k :: 0 <= k < |s| ==> Shuffled(s, rand, pos)[k] != s[k]
  {
    ShuffleFromDeranges(s, s, |s| - 1, rand, pos);
  }
}
