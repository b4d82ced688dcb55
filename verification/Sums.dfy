/** Sums over sequences and their independence of order. */
module Sums {

  function SumBy<T>(h: T -> nat, s: seq<T>): nat {
    if s == [] then 0 else SumBy(h, s[..|s| - 1]) + h(s[|s| - 1])
  }

  lemma SumAppend<T>(h: T -> nat, s: seq<T>, x: T)
    ensures SumBy(h, s + [x]) == SumBy(h, s) + h(x)
  {
    assert (s + [x])[..|s|] == s;
  }

  lemma {:induction false} SumRemove<T>(h: T -> nat, s: seq<T>, i: nat)
    requires i < |s|
    ensures SumBy(h, s) == SumBy(h, s[..i] + s[i + 1..]) + h(s[i])
  {
    var last := |s| - 1;
    if i == last {
      assert s[..i] + s[i + 1..] == s[..last];
    } else {
      SumRemove(h, s[..last], i);
      assert s[..last][..i] + s[..last][i + 1..] == (s[..i] + s[i + 1..])[..last - 1];
      assert (s[..i] + s[i + 1..])[last - 1] == s[last];
    }
  }

  lemma Members<T>(s: seq<T>, t: seq<T>)
    requires multiset(s) == multiset(t)
    ensures |s| == |t| && forall x :: x in s <==> x in t
  {
    assert |s| == |multiset(s)| == |multiset(t)| == |t|;
    forall x | x in s
      ensures x in t
    {
      assert x in multiset(t);
    }
    forall x | x in t
      ensures x in s
    {
      assert x in multiset(s);
    }
  }

  /** Taking the last element out of one arrangement takes it out of the other. */
  lemma Without<T>(s: seq<T>, x: T, t: seq<T>) returns (i: nat)
    requires multiset(s + [x]) == multiset(t)
    ensures i < |t| && t[i] == x && multiset(s) == multiset(t[..i] + t[i + 1..])
  {
    assert multiset(s + [x]) == multiset(s) + multiset{x};
    assert x in multiset(t);
    i :| 0 <= i < |t| && t[i] == x;
    var rest := t[..i] + t[i + 1..];
    assert t == t[..i] + ([x] + t[i + 1..]);
    assert multiset(t) == multiset(rest) + multiset{x};
    assert multiset(s) == (multiset(s) + multiset{x}) - multiset{x};
    assert multiset(rest) == (multiset(rest) + multiset{x}) - multiset{x};
  }

  lemma {:induction false} SumPermutation<T>(h: T -> nat, s: seq<T>, t: seq<T>)
    requires multiset(s) == multiset(t)
    ensures SumBy(h, s) == SumBy(h, t)
  {
    hide SumBy;
    if s == [] {
      assert |t| == |multiset(t)| == 0;
    } else {
      var before, x := s[..|s| - 1], s[|s| - 1];
      assert s == before + [x];
      var i := Without(before, x, t);
      SumPermutation(h, before, t[..i] + t[i + 1..]);
      SumAppend(h, before, x);
      SumRemove(h, t, i);
    }
  }
}
