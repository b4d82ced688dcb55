/** What the reported figures of a UDP test tell about the arrivals behind them. */
module Reception {
  import opened Wire
  import opened Sums
  import opened Protocol
  import opened Trace
  import opened Stats

  // ----- Counting -----

  lemma WrapSmall(x: nat)
    requires x < TWO64
    ensures Wrap(x) == x
  {
  }

  lemma {:induction false} CountBound(tr: seq<Arrival>)
    ensures |First(tr)| <= |tr|
  {
    if tr != [] {
      CountBound(tr[..|tr| - 1]);
    }
  }

  lemma Counted(r: Report, tr: seq<Arrival>)
    requires Reports(r, tr) && |tr| < TWO64
    ensures r.packets == |Seqs(tr)| == |First(tr)| && r.packets + r.dup == |tr|
    ensures IsMaxSeq(tr, r.maxSeq) && r.ooo == |First(tr)| - |Records(First(tr))|
  {
    hide Wrap, First, Records, Seqs, TimesMatch, IsMaxSeq, SumBy;
    FirstIsOnePerSeq(tr);
    CountBound(tr);
    AllRecords(First(tr));
    WrapSmall(|Seqs(tr)|);
    WrapSmall(|tr| - |First(tr)|);
    WrapSmall(|First(tr)| - |Records(First(tr))|);
  }

  function Below(n: nat): (s: set<nat>)
    ensures |s| == n && forall i: nat :: i in s <==> i < n
  {
    if n == 0 then {} else Below(n - 1) + {n - 1}
  }

  lemma AllRecords(f: seq<Arrival>)
    ensures |Records(f)| <= |f|
    ensures |Records(f)| == |f| <==> forall i: nat :: i < |f| ==> IsRecord(f, i)
  {
    assert Records(f) <= Below(|f|);
    SubsetCount(Records(f), Below(|f|));
    if forall i: nat :: i < |f| ==> IsRecord(f, i) {
      assert Records(f) == Below(|f|);
    }
    if |Records(f)| == |f| {
      forall i: nat | i < |f|
        ensures IsRecord(f, i)
      {
        assert i in Records(f);
      }
    }
  }

  lemma {:induction false} SubsetCount<T>(a: set<T>, b: set<T>)
    requires a <= b
    ensures |a| <= |b| && (|a| == |b| ==> a == b)
  {
    if a != {} {
      var x :| x in a;
      SubsetCount(a - {x}, b - {x});
    }
  }

  /** No arrival is reported out of order exactly when the first arrivals came in strictly
      increasing order. */
  lemma InOrderExactly(r: Report, tr: seq<Arrival>)
    requires Reports(r, tr) && |tr| < TWO64
    ensures var f := First(tr);
            r.ooo == 0 <==> forall i, j :: 0 <= i < j < |f| ==> f[i].seqNo < f[j].seqNo
  {
    hide Reports, First, Records;
    Counted(r, tr);
    AllRecords(First(tr));
    var f := First(tr);
    if forall i, j :: 0 <= i < j < |f| ==> f[i].seqNo < f[j].seqNo {
      assert forall i: nat :: i < |f| ==> IsRecord(f, i);
    }
    if r.ooo == 0 {
      forall i, j | 0 <= i < j < |f|
        ensures f[i].seqNo < f[j].seqNo
      {
        assert IsRecord(f, j);
      }
    }
  }

  /** What a report says, field by field. */
  lemma ReportedFigures(r: Report, tr: seq<Arrival>)
    requires Reports(r, tr)
    ensures var f := First(tr);
            && r.packets == Wrap(|Seqs(tr)|) && r.dup == Wrap(|tr| - |f|) && r.bytes == Wrap(SumBy(Length, f))
            && (tr != [] ==> r.maxSeq in Seqs(tr)) && (forall s :: s in Seqs(tr) ==> s <= r.maxSeq)
            && r.ooo == Wrap(|f| - |Records(f)|)
            && r.jitterNs == Max(0, Min(Jitter(Gaps(f)).Floor, U64_MAX))
            && IsMaxLatency(f, r.latencyMaxNs) && r.latencySumNs == Min(SumBy(Latency, f), U64_MAX)
  {
    hide Wrap, First, Records, Seqs, Jitter, Gaps, LeastSinceZero, SumBy, IsMaxLatency;
    assert tr == [] ==> Seqs(tr) == {} by { NoSeqs(tr); }
  }

  lemma NoSeqs(tr: seq<Arrival>)
    ensures tr == [] ==> Seqs(tr) == {}
  {
  }

  /** Latency is the time from sending to receipt, or zero where the clocks contradict. */
  lemma LatencyIs(a: Arrival)
    ensures Latency(a) == if a.recvNs >= a.sendNs then a.recvNs - a.sendNs else 0
  {
  }

  /** While times and their differences fit 63 bits, a gap is how much later, or sooner, after its
      sending the second datagram came than the first. */
  lemma GapIs(a: Arrival, b: Arrival)
    requires a.sendNs < 0x4000_0000_0000_0000 && a.recvNs < 0x4000_0000_0000_0000
    requires b.sendNs < 0x4000_0000_0000_0000 && b.recvNs < 0x4000_0000_0000_0000
    ensures var x := (b.recvNs - b.sendNs) - (a.recvNs - a.sendNs);
            Gap(Transit(a), Transit(b)) == if x >= 0 then x else -x
  {
  }

  /** Five datagrams, one out of order and one repeated, and their whole report. */
  method FiveDatagrams() returns (r: Report)
    ensures r == Report(90, 3, 9, 1, 2, 193, 3000, 4600, 10600, 5000)
  {
    var a, b, c := Arrival(7, 1000, 4000, 20), Arrival(9, 2000, 6600, 30), Arrival(8, 3000, 6000, 40);
    var stats := new UdpStats();
    stats.Record(a);
    stats.Record(b);
    stats.Record(c);
    stats.Record(a.(recvNs := 7000));
    stats.Record(b.(recvNs := 8000));
    r := stats.IntoReport(5000);
    FiveDatagramsTally(r);
  }

  lemma NothingDescribed()
    ensures Describes(Tally(0, 0, 0, 0, 0, 0.0, 0, 0, 0), []) && First([]) == [] && Seqs([]) == {}
  {
  }

  /** The running figures after each of three new numbers. */
  lemma ThreeUpdates(a: Arrival, b: Arrival, c: Arrival)
    requires a == Arrival(7, 1000, 4000, 20) && b == Arrival(9, 2000, 6600, 30) && c == Arrival(8, 3000, 6000, 40)
    ensures Updated(Tally(0, 0, 0, 0, 0, 0.0, 0, 0, 0), false, None, a) == Tally(20, 1, 7, 0, 0, 0.0, 3000, 3000, 3000)
    ensures Updated(Tally(20, 1, 7, 0, 0, 0.0, 3000, 3000, 3000), true, Some(Transit(a)), b)
            == Tally(50, 2, 9, 0, 0, 100.0, 3000, 4600, 7600)
    ensures Updated(Tally(50, 2, 9, 0, 0, 100.0, 3000, 4600, 7600), true, Some(Transit(b)), c)
            == Tally(90, 3, 9, 1, 0, 193.75, 3000, 4600, 10600)
  {
  }

  lemma FiveDatagramsTally(r: Report)
    requires var a, b, c := Arrival(7, 1000, 4000, 20), Arrival(9, 2000, 6600, 30), Arrival(8, 3000, 6000, 40);
             Reports(r, [] + [a] + [b] + [c] + [a.(recvNs := 7000)] + [b.(recvNs := 8000)]) && r.durationNs == 5000
    ensures r == Report(90, 3, 9, 1, 2, 193, 3000, 4600, 10600, 5000)
  {
    hide Describes, First, Seqs, Updated, Transit, Wrap;
    var a, b, c := Arrival(7, 1000, 4000, 20), Arrival(9, 2000, 6600, 30), Arrival(8, 3000, 6000, 40);
    var tr := [] + [a] + [b] + [c];
    NothingDescribed();
    ThreeUpdates(a, b, c);
    NewArrival(Tally(0, 0, 0, 0, 0, 0.0, 0, 0, 0), Tally(20, 1, 7, 0, 0, 0.0, 3000, 3000, 3000), [], a);
    NewArrival(Tally(20, 1, 7, 0, 0, 0.0, 3000, 3000, 3000), Tally(50, 2, 9, 0, 0, 100.0, 3000, 4600, 7600), [] + [a], b);
    NewArrival(Tally(50, 2, 9, 0, 0, 100.0, 3000, 4600, 7600), Tally(90, 3, 9, 1, 0, 193.75, 3000, 4600, 10600),
               [] + [a] + [b], c);
    WrapExact(1);
    WrapExact(2);
    RepetitionCounts(Tally(90, 3, 9, 1, 0, 193.75, 3000, 4600, 10600), tr, a.(recvNs := 7000));
    RepetitionCounts(Tally(90, 3, 9, 1, 1, 193.75, 3000, 4600, 10600), tr + [a.(recvNs := 7000)], b.(recvNs := 8000));
    var t := Tally(90, 3, 9, 1, 2, 193.75, 3000, 4600, 10600);
    assert Reports(ReportOf(t, 5000), tr + [a.(recvNs := 7000)] + [b.(recvNs := 8000)]);
    ReportIsDetermined(r, ReportOf(t, 5000), tr + [a.(recvNs := 7000)] + [b.(recvNs := 8000)]);
    assert 193.75.Floor == 193;
  }

  // ----- Order of arrival -----

  function Numbers(f: seq<Arrival>): (s: seq<u64>)
    ensures |s| == |f| && forall i :: 0 <= i < |f| ==> s[i] == f[i].seqNo
  {
    seq(|f|, i requires 0 <= i < |f| => f[i].seqNo)
  }

  function Elements<T>(s: seq<T>): set<T> { set x | x in s }

  lemma {:induction false} DistinctMultiset<T>(s: seq<T>)
    requires forall i, j :: 0 <= i < j < |s| ==> s[i] != s[j]
    ensures multiset(s) == multiset(Elements(s))
  {
    if s != [] {
      var before, x := s[..|s| - 1], s[|s| - 1];
      assert s == before + [x];
      DistinctMultiset(before);
      assert Elements(s) == Elements(before) + {x};
    }
  }

  lemma {:induction false} SumOfNumbers(g: Arrival -> nat, h: u64 -> nat, f: seq<Arrival>)
    requires forall a :: a in f ==> g(a) == h(a.seqNo)
    ensures SumBy(g, f) == SumBy(h, Numbers(f))
  {
    if f != [] {
      var before := f[..|f| - 1];
      assert f == before + [f[|f| - 1]];
      SumOfNumbers(g, h, before);
      assert Numbers(f)[..|f| - 1] == Numbers(before);
    }
  }

  lemma NumbersAreSeqs(f: seq<Arrival>)
    ensures Elements(Numbers(f)) == Seqs(f)
  {
    forall x | x in Seqs(f)
      ensures x in Numbers(f)
    {
      var a :| a in f && a.seqNo == x;
      var i :| 0 <= i < |f| && f[i] == a;
      assert Numbers(f)[i] == x;
    }
  }

  lemma SameNumbers(tr: seq<Arrival>, tr': seq<Arrival>)
    requires Seqs(tr) == Seqs(tr')
    ensures multiset(Numbers(First(tr))) == multiset(Numbers(First(tr')))
  {
    hide Seqs, First;
    FirstIsOnePerSeq(tr);
    FirstIsOnePerSeq(tr');
    DistinctMultiset(Numbers(First(tr)));
    DistinctMultiset(Numbers(First(tr')));
    NumbersAreSeqs(First(tr));
    NumbersAreSeqs(First(tr'));
  }

  lemma SameSeqs(tr: seq<Arrival>, tr': seq<Arrival>)
    requires multiset(tr) == multiset(tr')
    ensures Seqs(tr) == Seqs(tr') && |tr| == |tr'|
  {
    Members(tr, tr');
  }

  /** A total over first arrivals does not depend on the order of arrival when each summand is
      determined by its sequence number. */
  lemma SumOverFirst(g: Arrival -> nat, h: u64 -> nat, tr: seq<Arrival>, tr': seq<Arrival>)
    requires multiset(tr) == multiset(tr')
    requires forall a :: a in tr ==> g(a) == h(a.seqNo)
    ensures SumBy(g, First(tr)) == SumBy(g, First(tr'))
  {
    hide Seqs, First, SumBy, Numbers;
    Members(tr, tr');
    SameSeqs(tr, tr');
    FirstIsOnePerSeq(tr);
    FirstIsOnePerSeq(tr');
    SumOfNumbers(g, h, First(tr));
    SumOfNumbers(g, h, First(tr'));
    SameNumbers(tr, tr');
    SumPermutation(h, Numbers(First(tr)), Numbers(First(tr')));
  }

  /** Reordering the arrivals changes neither the packet count, nor the repetitions, nor the
      highest number. */
  lemma OrderDoesNotMatter(r: Report, tr: seq<Arrival>, r': Report, tr': seq<Arrival>)
    requires Reports(r, tr) && Reports(r', tr') && multiset(tr) == multiset(tr')
    ensures r.packets == r'.packets && r.dup == r'.dup && r.maxSeq == r'.maxSeq
  {
    hide Wrap, Seqs, First, Records, TimesMatch, SumBy;
    SameSeqs(tr, tr');
    FirstIsOnePerSeq(tr);
    FirstIsOnePerSeq(tr');
    SameMaxSeq(tr, r.maxSeq, tr', r'.maxSeq);
  }

  lemma SameMaxSeq(tr: seq<Arrival>, m: nat, tr': seq<Arrival>, m': nat)
    requires Seqs(tr) == Seqs(tr') && |tr| == |tr'| && IsMaxSeq(tr, m) && IsMaxSeq(tr', m')
    ensures m == m'
  {
  }

  /** It leaves bytes and latency totals alone as well when a repetition carries the length and
      the latency of the original. */
  lemma OrderDoesNotMatterForTotals(r: Report, tr: seq<Arrival>, r': Report, tr': seq<Arrival>,
                                    lengthOf: u64 -> nat, latencyOf: u64 -> nat)
    requires Reports(r, tr) && Reports(r', tr') && multiset(tr) == multiset(tr')
    requires forall a :: a in tr ==> a.len == lengthOf(a.seqNo) && Latency(a) == latencyOf(a.seqNo)
    ensures r.bytes == r'.bytes && r.latencyMaxNs == r'.latencyMaxNs && r.latencySumNs == r'.latencySumNs
  {
    hide Wrap, Seqs, First, Records, SumBy, Jitter, Gaps, LeastSinceZero, Latency;
    Members(tr, tr');
    SumOverFirst(Length, lengthOf, tr, tr');
    SumOverFirst(Latency, latencyOf, tr, tr');
    MaxOverFirst(r.latencyMaxNs, tr, tr', latencyOf);
    MaxOverFirst(r'.latencyMaxNs, tr', tr, latencyOf);
    UniqueMaxLatency(First(tr), r.latencyMaxNs, r'.latencyMaxNs);
  }

  lemma MaxOverFirst(m: nat, tr: seq<Arrival>, tr': seq<Arrival>, latencyOf: u64 -> nat)
    requires multiset(tr) == multiset(tr') && IsMaxLatency(First(tr), m)
    requires forall a :: a in tr ==> Latency(a) == latencyOf(a.seqNo)
    ensures IsMaxLatency(First(tr'), m)
  {
    hide First, Latency;
    Members(tr, tr');
    SameSeqs(tr, tr');
    FirstIsOnePerSeq(tr);
    FirstIsOnePerSeq(tr');
    var f, f' := First(tr), First(tr');
    assert Seqs(f) == Seqs(f') && |f| == |f'|;
    forall a | a in f'
      ensures Latency(a) <= m
    {
      assert a.seqNo in Seqs(f);
      var b :| b in f && b.seqNo == a.seqNo;
    }
    if f != [] {
      var b :| b in f && Latency(b) == m;
      assert b.seqNo in Seqs(f');
      var a :| a in f' && a.seqNo == b.seqNo;
    }
  }

  // ----- Latency -----

  lemma Distribute(n: nat, x: nat)
    ensures (n + 1) * x == n * x + x
  {
  }

  lemma {:induction false} SumBounds(f: seq<Arrival>, low: nat, high: nat)
    requires forall a :: a in f ==> low <= Latency(a) <= high
    ensures |f| * low <= SumBy(Latency, f) <= |f| * high
  {
    if f != [] {
      var before, a := f[..|f| - 1], f[|f| - 1];
      assert f == before + [a] && a in f && forall b :: b in before ==> b in f;
      SumBounds(before, low, high);
      Distribute(|before|, low);
      Distribute(|before|, high);
    }
  }

  /** The average latency printed from a report never exceeds its maximum. */
  lemma AverageWithinMax(r: Report, tr: seq<Arrival>)
    requires Reports(r, tr) && tr != [] && |tr| < TWO64
    ensures r.packets > 0 && r.latencySumNs / r.packets <= r.latencyMaxNs
  {
    hide CountsMatch, OrderMatches, Jitter, Gaps, LeastSinceZero, First, SumBy, Wrap;
    Counted(r, tr);
    assert tr[0].seqNo in Seqs(tr);
    SumBounds(First(tr), 0, r.latencyMaxNs);
    assert r.latencySumNs <= r.packets * r.latencyMaxNs;
    DivisionBound(r.latencySumNs, r.packets, r.latencyMaxNs);
  }

  lemma MulLess(n: nat, x: nat, y: nat)
    requires n > 0 && x > y
    ensures n * x > n * y
  {
  }

  lemma DivisionBound(sum: nat, n: nat, high: nat)
    requires n > 0 && sum <= n * high
    ensures sum / n <= high
  {
    if sum / n > high {
      MulLess(n, sum / n, high);
    }
  }

  ghost predicate IsLeast(f: seq<Arrival>, m: nat) {
    && (forall a :: a in f ==> m <= Latency(a))
    && (exists a :: a in f && Latency(a) == m)
  }

  lemma {:induction false} LeastIsLeast(f: seq<Arrival>)
    requires f != []
    ensures IsLeast(f, Least(f))
  {
    var before, a := f[..|f| - 1], f[|f| - 1];
    assert f == before + [a] && a in f;
    if |f| > 1 {
      LeastIsLeast(before);
      var b :| b in before && Latency(b) == Least(before);
      assert b in f;
    } else {
      assert f == [a];
    }
  }

  /** Where the reported minimum looks: from just after the last zero latency on. */
  lemma {:induction false} SinceZeroIsTail(f: seq<Arrival>) returns (k: nat)
    ensures k <= |f| && SinceZero(f) == f[k..] && (k > 0 ==> Latency(f[k - 1]) == 0)
    ensures forall i :: k <= i < |f| ==> Latency(f[i]) > 0
  {
    if f == [] || Latency(f[|f| - 1]) == 0 {
      k := |f|;
    } else {
      var before, a := f[..|f| - 1], f[|f| - 1];
      k := SinceZeroIsTail(before);
      TailGrows(before, a, k);
      assert f == before + [a];
    }
  }

  lemma TailGrows<T>(s: seq<T>, x: T, k: nat)
    requires k <= |s|
    ensures s[k..] + [x] == (s + [x])[k..]
  {
  }

  /** The reported minimum is the least latency since the last zero, or 0 if that one is last. */
  lemma MinimumSinceLastZero(r: Report, tr: seq<Arrival>) returns (k: nat)
    requires Reports(r, tr)
    ensures var f := First(tr);
            && k <= |f| && (k > 0 ==> Latency(f[k - 1]) == 0) && (forall i :: k <= i < |f| ==> Latency(f[i]) > 0)
            && (if k == |f| then r.latencyMinNs == 0 else IsLeast(f[k..], r.latencyMinNs))
  {
    k := SinceZeroIsTail(First(tr));
    if k < |First(tr)| {
      LeastIsLeast(First(tr)[k..]);
    }
  }

  lemma TailMinimum(f: seq<Arrival>, k: nat, m: nat)
    requires f != [] && k <= |f| && (k > 0 ==> Latency(f[k - 1]) == 0)
    requires forall i :: k <= i < |f| ==> Latency(f[i]) > 0
    requires if k == |f| then m == 0 else IsLeast(f[k..], m)
    ensures IsLeast(f, m) <==> (forall a :: a in f ==> Latency(a) > 0) || Latency(f[|f| - 1]) == 0
  {
    if k == 0 {
      assert f[k..] == f;
    } else {
      assert f[k - 1] in f;
      if k < |f| {
        var a :| a in f[k..] && Latency(a) == m;
        var i :| 0 <= i < |f| - k && f[k..][i] == a;
        assert Latency(f[k + i]) > 0;
      }
    }
  }

  /** The reported minimum is the true one exactly when no latency was zero or the last was: a
      zero in between is forgotten. */
  lemma MinimumIsTrueExactly(r: Report, tr: seq<Arrival>)
    requires Reports(r, tr) && First(tr) != []
    ensures var f := First(tr);
            IsLeast(f, r.latencyMinNs) <==> (forall a :: a in f ==> Latency(a) > 0) || Latency(f[|f| - 1]) == 0
  {
    hide Reports, First, Latency;
    var k := MinimumSinceLastZero(r, tr);
    TailMinimum(First(tr), k, r.latencyMinNs);
  }

  /** Latency 0, then latency 5. */
  function ZeroThenFive(): seq<Arrival> { [Arrival(0, 0, 0, 16), Arrival(1, 0, 5, 16)] }

  lemma ZeroThenFiveFacts()
    ensures First(ZeroThenFive()) == ZeroThenFive()
    ensures LeastSinceZero(ZeroThenFive()) == 5
  {
    var tr := ZeroThenFive();
    assert tr[..1] == [tr[0]] && tr[..1][..0] == [];
    FirstGrows([], tr[0]);
    FirstGrows([tr[0]], tr[1]);
    LeastSinceZeroAppend([tr[0]], tr[1]);
    assert [tr[0]] + [tr[1]] == tr && [] + [tr[0]] == [tr[0]];
  }

  /** The zero of two arrivals is forgotten: 5 is reported and is not the least latency. */
  method ForgottenZero() returns (r: Report)
    ensures Reports(r, ZeroThenFive()) && First(ZeroThenFive()) == ZeroThenFive()
    ensures r.latencyMinNs == 5 && !IsLeast(First(ZeroThenFive()), r.latencyMinNs)
  {
    var stats := new UdpStats();
    stats.Record(Arrival(0, 0, 0, 16));
    stats.Record(Arrival(1, 0, 5, 16));
    assert stats.trace == ZeroThenFive();
    r := stats.IntoReport(5);
    ZeroThenFiveFacts();
    MinimumIsTrueExactly(r, ZeroThenFive());
  }

  /** With positive latencies whose sum fits its field, minimum and average agree. */
  lemma MinimumWithinAverage(r: Report, tr: seq<Arrival>)
    requires Reports(r, tr) && First(tr) != [] && |tr| < TWO64
    requires SumBy(Latency, First(tr)) <= U64_MAX
    requires forall a :: a in First(tr) ==> Latency(a) > 0
    ensures r.latencyMinNs * r.packets <= r.latencySumNs
  {
    Counted(r, tr);
    MinimumIsTrueExactly(r, tr);
    SumBounds(First(tr), r.latencyMinNs, r.latencyMaxNs);
  }

  // ----- Jitter -----

  /** The same arrival from a sender whose clock started `c` earlier. */
  function Shift(a: Arrival, c: nat): Arrival { a.(sendNs := (a.sendNs + c) % TWO64) }

  function ShiftAll(tr: seq<Arrival>, c: nat): seq<Arrival> {
    if tr == [] then [] else ShiftAll(tr[..|tr| - 1], c) + [Shift(tr[|tr| - 1], c)]
  }

  lemma ToI64Residue(x: int, y: int, k: int)
    requires -TWO64 <= x < TWO64 && -TWO64 <= y < TWO64 && x == y + k * TWO64
    ensures ToI64(x) == ToI64(y)
  {
  }

  lemma ToI64Wraps(x: int) returns (k: int)
    requires -TWO64 <= x < TWO64
    ensures ToI64(x) == x + k * TWO64
  {
    k := if x >= 0x8000_0000_0000_0000 then -1 else if x < -0x8000_0000_0000_0000 then 1 else 0;
  }

  lemma TransitWraps(a: Arrival) returns (k: int)
    ensures Transit(a) == a.recvNs - a.sendNs + k * TWO64
  {
    hide ToI64;
    var i := ToI64Wraps(a.recvNs);
    var j := ToI64Wraps(a.sendNs);
    var l := ToI64Wraps(ToI64(a.recvNs) - ToI64(a.sendNs));
    k := i - j + l;
  }

  lemma GapShift(a: Arrival, b: Arrival, c: nat)
    ensures Gap(Transit(Shift(a, c)), Transit(Shift(b, c))) == Gap(Transit(a), Transit(b))
  {
    hide Transit, ToI64;
    var i := TransitWraps(a);
    var j := TransitWraps(b);
    var i' := TransitWraps(Shift(a, c));
    var j' := TransitWraps(Shift(b, c));
    var p, q := (a.sendNs + c) / TWO64, (b.sendNs + c) / TWO64;
    ToI64Residue(Transit(Shift(b, c)) - Transit(Shift(a, c)), Transit(b) - Transit(a), j' - i' + q - p - j + i);
  }

  lemma {:induction false} ShiftSeqs(tr: seq<Arrival>, c: nat)
    ensures Seqs(ShiftAll(tr, c)) == Seqs(tr) && |ShiftAll(tr, c)| == |tr|
    ensures tr != [] ==> ShiftAll(tr, c)[|tr| - 1] == Shift(tr[|tr| - 1], c)
  {
    hide Seqs;
    if tr != [] {
      var before, a := tr[..|tr| - 1], tr[|tr| - 1];
      assert tr == before + [a];
      ShiftSeqs(before, c);
      SeqsAppend(before, a);
      SeqsAppend(ShiftAll(before, c), Shift(a, c));
    }
  }

  lemma {:induction false} ShiftFirst(tr: seq<Arrival>, c: nat)
    ensures First(ShiftAll(tr, c)) == ShiftAll(First(tr), c)
  {
    if tr != [] {
      var before, a := tr[..|tr| - 1], tr[|tr| - 1];
      ShiftFirst(before, c);
      ShiftSeqs(before, c);
      assert ShiftAll(tr, c)[..|tr| - 1] == ShiftAll(before, c);
      assert (First(before) + [a])[..|First(before)|] == First(before);
    }
  }

  lemma {:induction false} ShiftGaps(f: seq<Arrival>, c: nat)
    ensures Gaps(ShiftAll(f, c)) == Gaps(f)
  {
    ShiftSeqs(f, c);
    if |f| >= 2 {
      var before, a := f[..|f| - 1], f[|f| - 1];
      ShiftGaps(before, c);
      ShiftSeqs(before, c);
      assert ShiftAll(f, c) == ShiftAll(before, c) + [Shift(a, c)];
      GapsAppend(ShiftAll(before, c), Shift(a, c));
      GapShift(f[|f| - 2], a, c);
    }
  }

  /** Jitter does not depend on where the sender's clock starts. */
  lemma JitterIgnoresClockOffset(r: Report, r': Report, tr: seq<Arrival>, c: nat)
    requires Reports(r, tr) && Reports(r', ShiftAll(tr, c))
    ensures r.jitterNs == r'.jitterNs
  {
    ShiftFirst(tr, c);
    ShiftGaps(First(tr), c);
  }

  /** The estimate stays between zero and the largest difference it was fed. */
  lemma JitterWithinGaps(r: Report, tr: seq<Arrival>, bound: nat)
    requires Reports(r, tr) && forall x :: x in Gaps(First(tr)) ==> x <= bound
    ensures r.jitterNs <= bound
  {
    JitterBounds(Gaps(First(tr)), bound);
  }
}
