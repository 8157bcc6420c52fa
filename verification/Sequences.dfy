/** Sequences without repetitions, as the kernel's lists are. */
module Sequences {
  predicate Distinct(s: seq<nat>) { forall i, j :: 0 <= i < j < |s| ==> s[i] != s[j] }

  // s without x.
  function Without(s: seq<nat>, x: nat): seq<nat> {
    if s == [] then [] else if s[0] == x then s[1..] else [s[0]] + Without(s[1..], x)
  }

  lemma {:induction false} WithoutFacts(s: seq<nat>, x: nat)
    requires Distinct(s)
    ensures var w := Without(s, x);
            && Distinct(w) && x !in w
            && (forall y :: y in w <==> y in s && y != x)
            && |w| == if x in s then |s| - 1 else |s|
  {
    if s != [] {
      assert Distinct(s[1..]);
      WithoutFacts(s[1..], x);
      assert s == [s[0]] + s[1..];
      assert s[0] !in s[1..];
    }
  }

  lemma {:induction false} WithoutAt(s: seq<nat>, k: nat)
    requires Distinct(s) && k < |s|
    ensures Without(s, s[k]) == s[..k] + s[k + 1..]
  {
    if k > 0 {
      assert Distinct(s[1..]);
      WithoutAt(s[1..], k - 1);
      assert s[..k] == [s[0]] + s[1..][..k - 1];
      assert s[k + 1..] == s[1..][k..];
    }
  }

  // Distinct elements of t are no more than t has.
  lemma {:induction false} DistinctFits(s: seq<nat>, t: seq<nat>)
    requires Distinct(s) && Distinct(t) && forall i :: 0 <= i < |s| ==> s[i] in t
    ensures |s| <= |t|
  {
    if s != [] {
      WithoutFacts(t, s[0]);
      DistinctFits(s[1..], Without(t, s[0]));
    }
  }
}
