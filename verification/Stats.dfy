/** The receive-side statistics accumulator of a UDP test. */
module Stats {
  import opened Wire
  import opened Sums
  import opened Protocol
  import opened Trace

  /** The figures an accumulator holds. Counters wrap at 64 bits, the latency sum saturates at
      128 bits, and jitter is exact rather than rounded. */
  datatype Tally = Tally(bytes: u64, packets: u64, maxSeq: u64, ooo: u64, dup: u64,
                         jitter: real, latMin: u64, latMax: u64, latSum: nat)

  ghost predicate CountsMatch(t: Tally, tr: seq<Arrival>) {
    && t.packets == Wrap(|Seqs(tr)|)
    && t.dup == Wrap(|tr| - |First(tr)|)
    && t.bytes == Wrap(SumBy(Length, First(tr)))
  }

  ghost predicate OrderMatches(t: Tally, tr: seq<Arrival>) {
    && IsMaxSeq(tr, t.maxSeq)
    && t.ooo == Wrap(|First(tr)| - |Records(First(tr))|)
  }

  ghost predicate TimesMatch(t: Tally, f: seq<Arrival>) {
    && t.jitter == Jitter(Gaps(f))
    && t.latMin == LeastSinceZero(f)
    && IsMaxLatency(f, t.latMax)
    && t.latSum == Min(SumBy(Latency, f), TWO128 - 1)
  }

  /** `t` is what the arrivals `tr` amount to. */
  ghost predicate Describes(t: Tally, tr: seq<Arrival>) {
    CountsMatch(t, tr) && OrderMatches(t, tr) && TimesMatch(t, First(tr))
  }

  /** The report sent for a tally: the jitter is truncated and the latency sum saturates. */
  function ReportOf(t: Tally, durationNs: u64): Report {
    Report(t.bytes, t.packets, t.maxSeq, t.ooo, t.dup, Max(0, Min(t.jitter.Floor, U64_MAX)),
           t.latMin, t.latMax, Min(t.latSum, U64_MAX), durationNs)
  }

  /** `r` reports exactly the arrivals `tr`. */
  ghost predicate Reports(r: Report, tr: seq<Arrival>) {
    exists t, duration :: Describes(t, tr) && r == ReportOf(t, duration)
  }

  lemma FirstGrows(tr: seq<Arrival>, a: Arrival)
    ensures First(tr + [a]) == if a.seqNo in Seqs(tr) then First(tr) else First(tr) + [a]
    ensures First(tr) == [] <==> tr == []
  {
    assert (tr + [a])[..|tr|] == tr;
    FirstIsOnePerSeq(tr);
    if tr != [] {
      assert tr[0].seqNo in Seqs(tr);
    }
  }

  lemma RepetitionCounts(t: Tally, tr: seq<Arrival>, a: Arrival)
    requires Describes(t, tr) && a.seqNo in Seqs(tr)
    ensures First(tr + [a]) == First(tr) && Seqs(tr + [a]) == Seqs(tr) && Describes(t.(dup := Wrap(t.dup + 1)), tr + [a])
  {
    hide Wrap, Records, Jitter, Gaps, LeastSinceZero, IsMaxLatency, SumBy;
    FirstGrows(tr, a);
    SeqsAppend(tr, a);
    assert Seqs(tr + [a]) == Seqs(tr) + {a.seqNo} == Seqs(tr);
    WrapAdd(|tr| - |First(tr)|, 1);
  }

  lemma NewArrivalCounts(t: Tally, tr: seq<Arrival>, a: Arrival)
    requires CountsMatch(t, tr) && a.seqNo !in Seqs(tr)
    ensures Seqs(tr + [a]) == Seqs(tr) + {a.seqNo}
    ensures Wrap(|Seqs(tr + [a])|) == Wrap(t.packets + 1)
    ensures Wrap(|tr + [a]| - |First(tr + [a])|) == t.dup
    ensures Wrap(SumBy(Length, First(tr + [a]))) == Wrap(t.bytes + a.len)
  {
    hide Wrap, First, SumBy;
    FirstGrows(tr, a);
    SeqsAppend(tr, a);
    WrapAdd(|Seqs(tr)|, 1);
    SumAppend(Length, First(tr), a);
    WrapAdd(SumBy(Length, First(tr)), a.len);
  }

  lemma NewestIsHighest(tr: seq<Arrival>, m: nat, a: Arrival)
    requires IsMaxSeq(tr, m) && tr != []
    ensures (forall b :: b in First(tr) ==> b.seqNo < a.seqNo) <==> a.seqNo > m
  {
    FirstIsOnePerSeq(tr);
    var top :| top in First(tr) && top.seqNo == m;
    forall b | b in First(tr)
      ensures b.seqNo <= m
    {
      assert b.seqNo in Seqs(First(tr));
    }
  }

  lemma NewArrivalOrder(t: Tally, tr: seq<Arrival>, a: Arrival)
    requires OrderMatches(t, tr) && a.seqNo !in Seqs(tr)
    ensures var top := tr == [] || a.seqNo > t.maxSeq;
            && IsMaxSeq(tr + [a], if top then a.seqNo else t.maxSeq)
            && Wrap(|First(tr + [a])| - |Records(First(tr + [a]))|) == if top then t.ooo else Wrap(t.ooo + 1)
  {
    hide Wrap, Records, First;
    FirstGrows(tr, a);
    SeqsAppend(tr, a);
    RecordsAppend(First(tr), a);
    WrapAdd(|First(tr)| - |Records(First(tr))|, 1);
    if tr != [] {
      NewestIsHighest(tr, t.maxSeq, a);
    }
  }

  lemma NewArrivalTimes(t: Tally, f: seq<Arrival>, a: Arrival)
    requires TimesMatch(t, f)
    ensures var l := Latency(a);
            && LeastSinceZero(f + [a]) == (if t.latMin == 0 || l < t.latMin then l else t.latMin)
            && IsMaxLatency(f + [a], Max(t.latMax, l))
            && Min(SumBy(Latency, f + [a]), TWO128 - 1) == Min(t.latSum + l, TWO128 - 1)
  {
    hide Jitter, Gaps, LeastSinceZero, SumBy;
    LeastSinceZeroAppend(f, a);
    SumAppend(Latency, f, a);
    assert a in f + [a];
    if f != [] {
      var b :| b in f && Latency(b) == t.latMax;
      assert b in f + [a];
    }
  }

  lemma NewArrivalJitter(f: seq<Arrival>, a: Arrival)
    ensures f == [] ==> Jitter(Gaps(f)) == 0.0
    ensures Jitter(Gaps(f + [a])) ==
            if f == [] then 0.0
            else Jitter(Gaps(f)) + (Gap(Transit(f[|f| - 1]), Transit(a)) as real - Jitter(Gaps(f))) / 16.0
  {
    GapsAppend(f, a);
    if f != [] {
      JitterStep(Gaps(f), Gap(Transit(f[|f| - 1]), Transit(a)));
    }
  }

  /** The running updates for an arrival that is not a repetition. */
  function Updated(t: Tally, haveMax: bool, last: Option<i64>, a: Arrival): Tally {
    var top, l := !haveMax || a.seqNo > t.maxSeq, Latency(a);
    Tally(Wrap(t.bytes + a.len), Wrap(t.packets + 1), if top then a.seqNo else t.maxSeq,
          if top then t.ooo else Wrap(t.ooo + 1), t.dup,
          if last.None? then t.jitter else t.jitter + (Gap(last.value, Transit(a)) as real - t.jitter) / 16.0,
          if t.latMin == 0 || l < t.latMin then l else t.latMin, Max(t.latMax, l), Min(t.latSum + l, TWO128 - 1))
  }

  /** They give the tally of the longer trace. */
  lemma NewArrival(t: Tally, t': Tally, tr: seq<Arrival>, a: Arrival)
    requires Describes(t, tr) && a.seqNo !in Seqs(tr)
    requires var f := First(tr);
             t' == Updated(t, f != [], if f == [] then None else Some(Transit(f[|f| - 1])), a)
    ensures Describes(t', tr + [a]) && First(tr + [a]) == First(tr) + [a] && Seqs(tr + [a]) == Seqs(tr) + {a.seqNo}
  {
    hide Wrap, First, Records, SumBy, Jitter, Gaps, LeastSinceZero, IsMaxLatency, IsMaxSeq, Gap, Transit, Latency;
    FirstGrows(tr, a);
    NewArrivalCounts(t, tr, a);
    NewArrivalOrder(t, tr, a);
    NewArrivalTimes(t, First(tr), a);
    NewArrivalJitter(First(tr), a);
  }

  /** Every list of arrivals has its tally, and so its report. */
  lemma {:induction false} EveryTraceHasATally(tr: seq<Arrival>) returns (t: Tally)
    ensures Describes(t, tr)
  {
    if tr == [] {
      return Tally(0, 0, 0, 0, 0, 0.0, 0, 0, 0);
    }
    hide Describes, First, Wrap, Seqs, Transit, Gap, Latency;
    var before, a := tr[..|tr| - 1], tr[|tr| - 1];
    assert tr == before + [a];
    t := EveryTraceHasATally(before);
    if a.seqNo in Seqs(before) {
      RepetitionCounts(t, before, a);
      t := t.(dup := Wrap(t.dup + 1));
    } else {
      var f := First(before);
      FirstGrows(before, a);
      var t' := Updated(t, f != [], if f == [] then None else Some(Transit(f[|f| - 1])), a);
      NewArrival(t, t', before, a);
      t := t';
    }
  }

  lemma UniqueMaxSeq(tr: seq<Arrival>, m: nat, m': nat)
    requires IsMaxSeq(tr, m) && IsMaxSeq(tr, m')
    ensures m == m'
  {
  }

  lemma UniqueMaxLatency(f: seq<Arrival>, m: nat, m': nat)
    requires IsMaxLatency(f, m) && IsMaxLatency(f, m')
    ensures m == m'
  {
  }

  /** And only one: but for the duration, a report is determined by the arrivals. */
  lemma ReportIsDetermined(r: Report, r': Report, tr: seq<Arrival>)
    requires Reports(r, tr) && Reports(r', tr)
    ensures r' == r.(durationNs := r'.durationNs)
  {
    hide Wrap, First, Records, SumBy, Jitter, Gaps, LeastSinceZero, IsMaxSeq, IsMaxLatency, Seqs;
    UniqueMaxSeq(tr, r.maxSeq, r'.maxSeq);
    UniqueMaxLatency(First(tr), r.latencyMaxNs, r'.latencyMaxNs);
  }

  class UdpStats {
    var bytes: u64
    var packets: u64
    var maxSeq: u64
    var ooo: u64
    var dup: u64
    var jitterNs: real
    var lastTransitNs: Option<i64>
    var latencyMinNs: u64
    var latencyMaxNs: u64
    var latencySumNs: nat
    var seen: set<u64>
    var haveMax: bool
    ghost var trace: seq<Arrival>

    function Figures(): Tally
      reads this
    {
      Tally(bytes, packets, maxSeq, ooo, dup, jitterNs, latencyMinNs, latencyMaxNs, latencySumNs)
    }

    ghost predicate Valid()
      reads this
    {
      var f := First(trace);
      && Describes(Figures(), trace)
      && seen == Seqs(trace)
      && haveMax == (f != [])
      && lastTransitNs == if f == [] then None else Some(Transit(f[|f| - 1]))
    }

    constructor ()
      ensures Valid() && trace == []
    {
      bytes, packets, maxSeq, ooo, dup := 0, 0, 0, 0, 0;
      jitterNs, lastTransitNs := 0.0, None;
      latencyMinNs, latencyMaxNs, latencySumNs := 0, 0, 0;
      seen, haveMax, trace := {}, false, [];
    }

    method NoteOrder(seqNo: u64)
      modifies `maxSeq, `haveMax, `ooo
      ensures haveMax && maxSeq == if !old(haveMax) then seqNo else Max(old(maxSeq), seqNo)
      ensures ooo == if old(haveMax) && seqNo <= old(maxSeq) then Wrap(old(ooo) + 1) else old(ooo)
    {
      if !haveMax {
        maxSeq := seqNo;
        haveMax := true;
      } else if seqNo > maxSeq {
        maxSeq := seqNo;
      } else {
        ooo := Wrap(ooo + 1);
      }
    }

    method NoteLatency(a: Arrival)
      modifies `latencyMinNs, `latencyMaxNs, `latencySumNs
      ensures latencyMinNs ==
              if old(latencyMinNs) == 0 || Latency(a) < old(latencyMinNs) then Latency(a) else old(latencyMinNs)
      ensures latencyMaxNs == Max(old(latencyMaxNs), Latency(a))
      ensures latencySumNs == Min(old(latencySumNs) + Latency(a), TWO128 - 1)
    {
      var latency := if a.recvNs >= a.sendNs then a.recvNs - a.sendNs else 0;
      if latencyMinNs == 0 || latency < latencyMinNs {
        latencyMinNs := latency;
      }
      if latency > latencyMaxNs {
        latencyMaxNs := latency;
      }
      latencySumNs := if latencySumNs + latency < TWO128 then latencySumNs + latency else TWO128 - 1;
    }

    method NoteTransit(a: Arrival)
      modifies `jitterNs, `lastTransitNs
      ensures lastTransitNs == Some(Transit(a))
      ensures jitterNs ==
              if old(lastTransitNs).None? then old(jitterNs)
              else old(jitterNs) + (Gap(old(lastTransitNs).value, Transit(a)) as real - old(jitterNs)) / 16.0
    {
      var transitNs := ToI64(ToI64(a.recvNs) - ToI64(a.sendNs));
      if lastTransitNs.Some? {
        var d := Abs(ToI64(transitNs - lastTransitNs.value)) as real;
        jitterNs := jitterNs + (d - jitterNs) / 16.0;
      }
      lastTransitNs := Some(transitNs);
    }

    /** Accounts for a datagram that is not a repetition. */
    method RecordNew(a: Arrival)
      modifies this
      ensures trace == old(trace) && seen == old(seen) + {a.seqNo} && haveMax && lastTransitNs == Some(Transit(a))
      ensures Figures() == Updated(old(Figures()), old(haveMax), old(lastTransitNs), a)
    {
      hide Wrap, ToI64, Abs, Gap, Transit, Latency;
      seen := seen + {a.seqNo};
      bytes := Wrap(bytes + a.len);
      packets := Wrap(packets + 1);
      NoteOrder(a.seqNo);
      NoteLatency(a);
      NoteTransit(a);
    }

    /** Accounts for one datagram. */
    method Record(a: Arrival)
      requires Valid()
      modifies this
      ensures Valid() && trace == old(trace) + [a]
    {
      hide Describes, Updated, Wrap, First, Seqs, Transit;
      ghost var tr, t := trace, Figures();
      if a.seqNo in seen {
        RepetitionCounts(t, tr, a);
        dup := Wrap(dup + 1);
      } else {
        FirstGrows(tr, a);
        RecordNew(a);
        NewArrival(t, Figures(), tr, a);
      }
      trace := trace + [a];
    }

    method IntoReport(durationNs: u64) returns (r: Report)
      requires Valid()
      ensures r == ReportOf(Figures(), durationNs) && Reports(r, trace) && r.durationNs == durationNs
    {
      r := Report(bytes, packets, maxSeq, ooo, dup, Max(0, Min(jitterNs.Floor, U64_MAX)), latencyMinNs, latencyMaxNs,
                  if latencySumNs <= U64_MAX then latencySumNs else U64_MAX, durationNs);
      assert Describes(Figures(), trace);
    }
  }
}
