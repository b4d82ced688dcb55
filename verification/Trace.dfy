/** What a receiver's statistics mean: every figure as a function of the whole sequence of
    datagrams that arrived, in the order they arrived. */
module Trace {
  import opened Wire

  datatype Arrival = Arrival(seqNo: u64, sendNs: u64, recvNs: u64, len: nat)

  function Seqs(tr: seq<Arrival>): set<u64> { set a | a in tr :: a.seqNo }

  /** The arrivals that are not repetitions, in order. */
  function First(tr: seq<Arrival>): seq<Arrival> {
    if tr == [] then []
    else
      var before, a := tr[..|tr| - 1], tr[|tr| - 1];
      if a.seqNo in Seqs(before) then First(before) else First(before) + [a]
  }

  function Length(a: Arrival): nat { a.len }

  function Latency(a: Arrival): nat { Max(0, a.recvNs - a.sendNs) }

  /** The positions of `f` whose sequence number exceeds all earlier ones. */
  function Records(f: seq<Arrival>): set<nat> {
    set i: nat | i < |f| && IsRecord(f, i)
  }

  predicate IsRecord(f: seq<Arrival>, i: nat)
    requires i < |f|
  {
    forall j :: 0 <= j < i ==> f[j].seqNo < f[i].seqNo
  }

  ghost predicate IsMaxSeq(tr: seq<Arrival>, m: nat) {
    if tr == [] then m == 0 else m in Seqs(tr) && forall s :: s in Seqs(tr) ==> s <= m
  }

  ghost predicate IsMaxLatency(f: seq<Arrival>, m: nat) {
    && (forall a :: a in f ==> Latency(a) <= m)
    && (if f == [] then m == 0 else exists a :: a in f && Latency(a) == m)
  }

  /** The arrivals after the last one with zero latency. */
  function SinceZero(f: seq<Arrival>): seq<Arrival> {
    if f == [] then []
    else if Latency(f[|f| - 1]) == 0 then []
    else SinceZero(f[..|f| - 1]) + [f[|f| - 1]]
  }

  function Least(f: seq<Arrival>): nat
    requires f != []
  {
    if |f| == 1 then Latency(f[0]) else Min(Least(f[..|f| - 1]), Latency(f[|f| - 1]))
  }

  function LeastSinceZero(f: seq<Arrival>): nat {
    if SinceZero(f) == [] then 0 else Least(SinceZero(f))
  }

  // ----- Jitter -----

  /** The 64-bit two's complement reading of a number less than one turn away. */
  function ToI64(x: int): i64
    requires -TWO64 <= x < TWO64
  {
    if x >= 0x8000_0000_0000_0000 then x - TWO64 else if x < -0x8000_0000_0000_0000 then x + TWO64 else x
  }

  function Transit(a: Arrival): i64 { ToI64(ToI64(a.recvNs) - ToI64(a.sendNs)) }

  function Abs(x: int): nat { if x < 0 then -x else x }

  function Gap(last: i64, transit: i64): nat { Abs(ToI64(transit - last)) }

  /** The transit differences between consecutive arrivals. */
  function Gaps(f: seq<Arrival>): seq<nat> {
    if |f| < 2 then []
    else Gaps(f[..|f| - 1]) + [Gap(Transit(f[|f| - 2]), Transit(f[|f| - 1]))]
  }

  function Pow(b: real, e: nat): real {
    if e == 0 then 1.0 else b * Pow(b, e - 1)
  }

  /** What is left of a difference `x` that is `age` differences old. */
  function Share(x: nat, age: nat): real {
    if age == 0 then x as real / 16.0 else 15.0 / 16.0 * Share(x, age - 1)
  }

  lemma {:induction false} ShareIsGeometric(x: nat, age: nat)
    ensures Share(x, age) == x as real / 16.0 * Pow(15.0 / 16.0, age)
  {
    if age > 0 {
      ShareIsGeometric(x, age - 1);
      var v, p := x as real / 16.0, Pow(15.0 / 16.0, age - 1);
      assert 15.0 / 16.0 * (v * p) == v * (15.0 / 16.0 * p);
    }
  }

  /** The first `k` of `n` differences, each with its share. */
  function WeightedSum(d: seq<nat>, n: nat, k: nat): real
    requires k <= |d| && k <= n
  {
    if k == 0 then 0.0 else WeightedSum(d, n, k - 1) + Share(d[k - 1], n - k)
  }

  function Jitter(d: seq<nat>): real { WeightedSum(d, |d|, |d|) }

  lemma {:induction false} WeightedSumOlder(d: seq<nat>, x: nat, k: nat)
    requires k <= |d|
    ensures WeightedSum(d + [x], |d| + 1, k) == 15.0 / 16.0 * WeightedSum(d, |d|, k)
  {
    if k > 0 {
      WeightedSumOlder(d, x, k - 1);
      assert (d + [x])[k - 1] == d[k - 1];
    }
  }

  /** The closed form obeys the running estimate of section 6.4.1 of RFC 3550. */
  lemma JitterStep(d: seq<nat>, x: nat)
    ensures Jitter(d + [x]) == Jitter(d) + (x as real - Jitter(d)) / 16.0
  {
    WeightedSumOlder(d, x, |d|);
  }

  lemma {:induction false} JitterBounds(d: seq<nat>, bound: nat)
    requires forall x :: x in d ==> x <= bound
    ensures 0.0 <= Jitter(d) <= bound as real
  {
    if d != [] {
      var before, x := d[..|d| - 1], d[|d| - 1];
      assert d == before + [x] && x in d && forall y :: y in before ==> y in d;
      JitterBounds(before, bound);
      JitterStep(before, x);
    }
  }

  // ----- First arrivals -----

  lemma SeqsAppend(tr: seq<Arrival>, a: Arrival)
    ensures Seqs(tr + [a]) == Seqs(tr) + {a.seqNo}
  {
    forall s | s in Seqs(tr) + {a.seqNo}
      ensures s in Seqs(tr + [a])
    {
      if s == a.seqNo {
        assert a in tr + [a];
      } else {
        var b :| b in tr && b.seqNo == s;
        assert b in tr + [a];
      }
    }
  }

  ghost predicate Distinct(f: seq<Arrival>) {
    forall i, j :: 0 <= i < j < |f| ==> f[i].seqNo != f[j].seqNo
  }

  /** One first arrival for every sequence number that arrived. */
  lemma {:induction false} FirstIsOnePerSeq(tr: seq<Arrival>)
    ensures |First(tr)| == |Seqs(tr)| && Seqs(First(tr)) == Seqs(tr)
    ensures Distinct(First(tr)) && forall a :: a in First(tr) ==> a in tr
  {
    if tr != [] {
      var before, a := tr[..|tr| - 1], tr[|tr| - 1];
      assert tr == before + [a];
      FirstIsOnePerSeq(before);
      SeqsAppend(before, a);
      SeqsAppend(First(before), a);
      if a.seqNo !in Seqs(before) {
        forall b | b in First(before)
          ensures b.seqNo != a.seqNo
        {
          assert b.seqNo in Seqs(before);
        }
      } else {
        assert Seqs(before) + {a.seqNo} == Seqs(before);
      }
    }
  }

  lemma RecordsAppend(f: seq<Arrival>, a: Arrival)
    ensures |Records(f + [a])| ==
            |Records(f)| + if forall b :: b in f ==> b.seqNo < a.seqNo then 1 else 0
  {
    var g := f + [a];
    forall i: nat | i < |f|
      ensures IsRecord(g, i) == IsRecord(f, i)
    {
      assert forall j :: 0 <= j <= i ==> g[j] == f[j];
    }
    if forall b :: b in f ==> b.seqNo < a.seqNo {
      assert IsRecord(g, |f|);
      assert Records(g) == Records(f) + {|f|};
    } else {
      var b :| b in f && b.seqNo >= a.seqNo;
      var j :| 0 <= j < |f| && f[j] == b;
      assert g[j] == b && !IsRecord(g, |f|);
      assert Records(g) == Records(f);
    }
  }

  lemma {:induction false} SinceZeroPositive(f: seq<Arrival>)
    ensures SinceZero(f) != [] ==> Least(SinceZero(f)) > 0
  {
    if f != [] && Latency(f[|f| - 1]) != 0 {
      SinceZeroPositive(f[..|f| - 1]);
      var s := SinceZero(f[..|f| - 1]);
      assert (s + [f[|f| - 1]])[..|s|] == s;
    }
  }

  lemma LeastSinceZeroAppend(f: seq<Arrival>, a: Arrival)
    ensures var m, l := LeastSinceZero(f), Latency(a);
            LeastSinceZero(f + [a]) == if m == 0 || l < m then l else m
  {
    SinceZeroPositive(f);
    assert (f + [a])[..|f|] == f;
    var s := SinceZero(f);
    if Latency(a) != 0 {
      assert SinceZero(f + [a]) == s + [a];
      assert (s + [a])[..|s|] == s;
    }
  }

  lemma GapsAppend(f: seq<Arrival>, a: Arrival)
    ensures Gaps(f + [a]) == Gaps(f) + if f == [] then [] else [Gap(Transit(f[|f| - 1]), Transit(a))]
  {
    assert (f + [a])[..|f|] == f;
  }
}
