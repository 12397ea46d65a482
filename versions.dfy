/** The version assignment: twelve coin tosses give every condition a version for
    Ask1 and Promise1, and the opposite version to Ask2 and Promise2. */
module Versions {
  import opened Random
  import opened Catalogue

  /** The position of a condition in the initial QSequence. */
  function IndexOf(c: Condition): (k: nat)
    ensures k < |Conditions| && Conditions[k] == c
  {
    match c
    case ADJ0 => 0
    case ADJ1 => 1
    case ADJ2 => 2
    case ARG0 => 3
    case ARG1 => 4
    case ARG2 => 5
  }

  /** The condition whose versions iterations 2k and 2k + 1 assign: the k-th of the
      initial QSequence, Conditions[k]. */
  function ConditionAt(k: nat): (c: Condition)
    requires k < 6
    ensures IndexOf(c) == k
  {
    if k == 0 then ADJ0
    else if k == 1 then ADJ1
    else if k == 2 then ADJ2
    else if k == 3 then ARG0
    else if k == 4 then ARG1
    else ARG2
  }

  /** The loop over i in [0, 12): iteration i draws a version and, for the condition
      ConditionAt(i / 2), gives it to Ask1 and its opposite to Ask2 when i is even, and
      to Promise1 and its opposite to Promise2 when i is odd.  A condition absent from
      a map still holds the initial `[]`. */
  method AssignVersions(rand: nat -> nat, pos: nat)
    returns (ask1: map<Condition, Version>, ask2: map<Condition, Version>,
             promise1: map<Condition, Version>, promise2: map<Condition, Version>, next: nat)
    requires ValidRandom(rand)
    ensures next == pos + 12
    ensures forall c: Condition :: c in ask1 && c in ask2 && c in promise1 && c in promise2
    ensures forall k :: 0 <= k < 6 ==> ask1[ConditionAt(k)] == RandomVersion(rand(pos + 2 * k))
    ensures forall k :: 0 <= k < 6 ==> promise1[ConditionAt(k)] == RandomVersion(rand(pos + 2 * k + 1))
    ensures forall c: Condition :: ask2[c] == Opposite(ask1[c]) && promise2[c] == Opposite(promise1[c])
  {
    ask1, ask2, promise1, promise2 := map[], map[], map[], map[];
    for i := 0 to 12
      invariant forall k :: 0 <= k < 6 && 2 * k < i ==>
        && ConditionAt(k) in ask1 && ConditionAt(k) in ask2
        && ask1[ConditionAt(k)] == RandomVersion(rand(pos + 2 * k))
        && ask2[ConditionAt(k)] == Opposite(ask1[ConditionAt(k)])
      invariant forall k :: 0 <= k < 6 && 2 * k + 1 < i ==>
        && ConditionAt(k) in promise1 && ConditionAt(k) in promise2
        && promise1[ConditionAt(k)] == RandomVersion(rand(pos + 2 * k + 1))
        && promise2[ConditionAt(k)] == Opposite(promise1[ConditionAt(k)])
    {
      var version := RandomVersion(rand(pos + i));
      var c := ConditionAt(i / 2);
      if i % 2 == 0 {
        ask1 := ask1[c := version];
        ask2 := ask2[c := Opposite(version)];
      } else {
        promise1 := promise1[c := version];
        promise2 := promise2[c := Opposite(version)];
      }
    }
    forall c: Condition
      ensures c in ask1 && c in ask2 && c in promise1 && c in promise2
      ensures ask2[c] == Opposite(ask1[c]) && promise2[c] == Opposite(promise1[c])
    {
      assert c == ConditionAt(IndexOf(c));
    }
    next := pos + 12;
  }
}
