/** Ascending enumeration of a finite set of natural numbers: the order in which
    a JavaScript array visits the indices it holds. */
module Ordering {

  predicate StrictlyIncreasing(s: seq<nat>)
  {
    forall i, j :: 0 <= i < j < |s| ==> s[i] < s[j]
  }

  /** The least element of a non-empty set. */
  ghost function Min(s: set<nat>): (m: nat)
    requires s != {}
    ensures m in s
    ensures forall x :: x in s ==> m <= x
    decreases |s|
  {
    var x :| x in s;
    if s == {x} then x
    else
      var m := Min(s - {x});
      assert forall y :: y in s ==> y == x || y in s - {x};
      if x <= m then x else m
  }

  /** The elements of `s`, smallest first, each exactly once. */
  ghost function Ascending(s: set<nat>): (r: seq<nat>)
    ensures StrictlyIncreasing(r)
    ensures forall k :: k in r <==> k in s
    ensures |r| == |s|
    decreases |s|
  {
    if s == {} then []
    else
      var m := Min(s);
      [m] + Ascending(s - {m})
  }

  /** The set of elements of a sequence. */
  function Elements(s: seq<nat>): set<nat>
  {
    set k | k in s
  }

  /** A strictly increasing sequence repeats no element, so it has as many
      elements as its set. */
  lemma {:induction false} IncreasingCardinality(s: seq<nat>)
    requires StrictlyIncreasing(s)
    ensures |Elements(s)| == |s|
  {
    if s != [] {
      IncreasingCardinality(s[1..]);
      assert Elements(s) == {s[0]} + Elements(s[1..]);
      assert s[0] !in Elements(s[1..]);
    }
  }

  /** The first element of a strictly increasing sequence is its least. */
  lemma HeadIsLeast(s: seq<nat>)
    requires StrictlyIncreasing(s) && |s| > 0
    ensures forall k :: k in s ==> s[0] <= k
  {
  }

  /** Dropping the common least element keeps the element sets equal. */
  lemma SameTails(a: seq<nat>, b: seq<nat>)
    requires StrictlyIncreasing(a) && StrictlyIncreasing(b)
    requires forall k :: k in a <==> k in b
    requires |a| > 0 && |b| > 0
    ensures a[0] == b[0]
    ensures forall k :: k in a[1..] <==> k in b[1..]
  {
    HeadIsLeast(a);
    HeadIsLeast(b);
    assert a[0] in b && b[0] in a;
    forall k
      ensures k in a[1..] <==> k in b[1..]
    {
      assert k in a[1..] <==> k in a && k != a[0];
      assert k in b[1..] <==> k in b && k != b[0];
    }
  }

  /** A strictly increasing sequence is determined by its elements. */
  lemma {:induction false} IncreasingUnique(a: seq<nat>, b: seq<nat>)
    requires StrictlyIncreasing(a) && StrictlyIncreasing(b)
    requires forall k :: k in a <==> k in b
    ensures a == b
    decreases |a|
  {
    IncreasingCardinality(a);
    IncreasingCardinality(b);
    assert Elements(a) == Elements(b);
    if |a| > 0 {
      SameTails(a, b);
      IncreasingUnique(a[1..], b[1..]);
      assert a == [a[0]] + a[1..];
      assert b == [b[0]] + b[1..];
    }
  }
}
