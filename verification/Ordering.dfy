/** Sorted samples, compared rank by rank through counting. */
module Ordering {
  import opened Sums

  predicate Sorted(s: seq<real>) {
    forall i, j :: 0 <= i < j < |s| ==> s[i] <= s[j]
  }

  /** Sorting as the standard library does it: the ascending arrangement of the same samples. */
  function SortOf(s: seq<real>): (r: seq<real>)
    ensures Sorted(r) && multiset(r) == multiset(s) && |r| == |s|
  {
    if s == [] then []
    else
      assert s == s[..|s| - 1] + [s[|s| - 1]];
      Insert(s[|s| - 1], SortOf(s[..|s| - 1]))
  }

  function Insert(x: real, s: seq<real>): (r: seq<real>)
    requires Sorted(s)
    ensures Sorted(r) && multiset(r) == multiset(s) + multiset{x} && |r| == |s| + 1
    ensures forall z :: z in r ==> z == x || z in s
  {
    if s == [] || x >= s[|s| - 1] then s + [x]
    else
      SplitLast(s);
      var r := Insert(x, s[..|s| - 1]);
      AppendLargest(r, s[|s| - 1]);
      r + [s[|s| - 1]]
  }

  lemma AppendLargest(r: seq<real>, y: real)
    requires Sorted(r) && forall z :: z in r ==> z <= y
    ensures Sorted(r + [y]) && multiset(r + [y]) == multiset(r) + multiset{y}
  {
    forall i | 0 <= i < |r|
      ensures r[i] <= y
    {
      assert r[i] in r;
    }
  }

  lemma SplitLast(s: seq<real>)
    requires Sorted(s) && s != []
    ensures s == s[..|s| - 1] + [s[|s| - 1]] && multiset(s) == multiset(s[..|s| - 1]) + multiset{s[|s| - 1]}
    ensures Sorted(s[..|s| - 1]) && forall z :: z in s[..|s| - 1] ==> z in s && z <= s[|s| - 1]
  {
    assert s == s[..|s| - 1] + [s[|s| - 1]];
  }

  function AtMost(x: real): real -> nat { y => if y <= x then 1 else 0 }

  /** How many samples are at most `x`. */
  function CountAtMost(s: seq<real>, x: real): nat { SumBy(AtMost(x), s) }

  lemma {:induction false} CountWithin(s: seq<real>, x: real)
    ensures CountAtMost(s, x) <= |s|
  {
    if s != [] {
      CountWithin(s[..|s| - 1], x);
    }
  }

  /** In a sorted sequence the sample of rank `k` is at most `x` exactly when more than `k`
      samples are. */
  lemma {:induction false} RankByCount(s: seq<real>, k: nat, x: real)
    requires Sorted(s) && k < |s|
    ensures s[k] <= x <==> CountAtMost(s, x) > k
  {
    var last := |s| - 1;
    CountWithin(s[..last], x);
    if k < last {
      RankByCount(s[..last], k, x);
    } else if s[k] <= x {
      AllCounted(s, x);
    }
  }

  lemma {:induction false} AllCounted(s: seq<real>, x: real)
    requires forall y :: y in s ==> y <= x
    ensures CountAtMost(s, x) == |s|
  {
    if s != [] {
      var before := s[..|s| - 1];
      assert s == before + [s[|s| - 1]] && forall y :: y in before ==> y in s;
      assert s[|s| - 1] in s;
      AllCounted(before, x);
    }
  }

  /** If, below every threshold, `a` has at least as many samples as `b`, then `a` is the
      smaller of the two at every rank. */
  lemma RankDominance(a: seq<real>, b: seq<real>)
    requires Sorted(a) && Sorted(b) && |a| == |b|
    requires forall x :: CountAtMost(b, x) <= CountAtMost(a, x)
    ensures forall k :: 0 <= k < |a| ==> a[k] <= b[k]
  {
    forall k | 0 <= k < |a|
      ensures a[k] <= b[k]
    {
      RankByCount(b, k, b[k]);
      RankByCount(a, k, b[k]);
      assert CountAtMost(b, b[k]) <= CountAtMost(a, b[k]);
    }
  }

  /** There is only one way to sort: the result depends on the samples, not on their order. */
  lemma SortedIsUnique(s: seq<real>, t: seq<real>)
    requires multiset(s) == multiset(t)
    ensures SortOf(s) == SortOf(t)
  {
    var a, b := SortOf(s), SortOf(t);
    assert |a| == |multiset(s)| == |b|;
    forall x
      ensures CountAtMost(a, x) == CountAtMost(b, x)
    {
      SumPermutation(AtMost(x), a, b);
    }
    RankDominance(a, b);
    RankDominance(b, a);
  }

  function Sum(s: seq<real>): real {
    if s == [] then 0.0 else Sum(s[..|s| - 1]) + s[|s| - 1]
  }

  lemma SumGrows(s: seq<real>, x: real)
    ensures Sum([]) == 0.0 && Sum(s + [x]) == Sum(s) + x
  {
    assert (s + [x])[..|s|] == s;
  }

  lemma {:induction false} SumWithout(s: seq<real>, i: nat)
    requires i < |s|
    ensures Sum(s) == Sum(s[..i] + s[i + 1..]) + s[i]
  {
    var last := |s| - 1;
    if i == last {
      assert s[..i] + s[i + 1..] == s[..last];
    } else {
      SumWithout(s[..last], i);
      assert s[..last][..i] + s[..last][i + 1..] == (s[..i] + s[i + 1..])[..last - 1];
      assert (s[..i] + s[i + 1..])[last - 1] == s[last];
    }
  }

  /** A sum does not depend on the order of its samples. */
  lemma {:induction false} SumAnyOrder(s: seq<real>, t: seq<real>)
    requires multiset(s) == multiset(t)
    ensures Sum(s) == Sum(t)
  {
    hide Sum;
    if s == [] {
      assert |t| == |multiset(t)| == 0;
    } else {
      var before, x := s[..|s| - 1], s[|s| - 1];
      assert s == before + [x];
      var i := Without(before, x, t);
      SumAnyOrder(before, t[..i] + t[i + 1..]);
      SumGrows(before, x);
      SumWithout(t, i);
    }
  }

  lemma {:induction false} SumDominance(a: seq<real>, b: seq<real>)
    requires |a| == |b| && forall k :: 0 <= k < |a| ==> a[k] <= b[k]
    ensures Sum(a) <= Sum(b)
  {
    if a != [] {
      SumDominance(a[..|a| - 1], b[..|b| - 1]);
    }
  }
}
