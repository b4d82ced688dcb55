/** The send-rate pacer: how many packets are due at an instant, and when to wake for one. */
module Pacers {
  import opened Wire

  const NS_PER_SEC := 1_000_000_000

  lemma MulMono(x: int, y: int, z: nat)
    requires x <= y
    ensures x * z <= y * z
  {
  }

  lemma MulMonoIf(x: int, y: int, z: nat)
    ensures x <= y ==> x * z <= y * z
  {
    if x <= y {
      MulMono(x, y, z);
    }
  }

  lemma DivisionFacts(a: nat, d: nat)
    requires d > 0
    ensures 0 <= a / d && a / d * d <= a < (a / d + 1) * d
  {
    var q := a / d;
    assert a == d * q + a % d;
    MulMonoIf(q, -1, d);
  }

  /** Integer division of nonnegative numbers. */
  function Quotient(a: nat, d: nat): (q: nat)
    requires d > 0
    ensures q * d <= a < (q + 1) * d
  {
    DivisionFacts(a, d);
    a / d
  }

  function Wrap128(x: nat): nat { x % TWO128 }

  lemma Wrap128Small(x: nat)
    ensures Wrap128(x) < TWO128 && (x < TWO128 ==> Wrap128(x) == x)
  {
  }

  /** `q` is at most the quotient exactly when `q` times the divisor is at most the dividend. */
  lemma QuotientAtLeast(a: nat, d: nat, q: nat)
    requires d > 0
    ensures q <= Quotient(a, d) <==> q * d <= a
  {
    if q <= Quotient(a, d) {
      MulMono(q, Quotient(a, d), d);
    } else {
      MulMono(Quotient(a, d) + 1, q, d);
    }
  }

  lemma QuotientMono(a: nat, b: nat, d: nat)
    requires a <= b && d > 0
    ensures Quotient(a, d) <= Quotient(b, d)
  {
    QuotientAtLeast(b, d, Quotient(a, d));
  }

  /** Products are taken in 128 bits and wrap; results are clamped to 64 bits. */
  datatype Pacer = Pacer(bandwidthBps: u64, packetBytes: u64, startNs: nat) {
    function NsBits(): nat { packetBytes * 8 * NS_PER_SEC }

    function Due(nowNs: nat): u64 {
      if bandwidthBps == 0 || packetBytes == 0 then U64_MAX
      else Min(Quotient(Wrap128(Max(0, nowNs - startNs) * bandwidthBps), NsBits()), U64_MAX)
    }

    /** How long after the start packet `nth` is slept for. */
    function WakeAfterNs(nth: u64): u64
      requires bandwidthBps > 0
    {
      Min(Quotient(Wrap128(nth * NsBits()), bandwidthBps), U64_MAX)
    }

    function WakeNs(nth: u64): nat
      requires bandwidthBps > 0
    {
      startNs + WakeAfterNs(nth)
    }

    /** Pacing is in force and the clock reading does not overflow the product. */
    predicate Paces(nowNs: nat) {
      && bandwidthBps > 0 && packetBytes > 0
      && startNs <= nowNs && (nowNs - startNs) * bandwidthBps < TWO128
    }

    /** The wake time of packet `nth` is neither wrapped nor clamped. */
    predicate WakesExactly(nth: u64) {
      && bandwidthBps > 0 && packetBytes > 0
      && nth * NsBits() < TWO128 && Quotient(nth * NsBits(), bandwidthBps) <= U64_MAX
    }
  }

  lemma DueExact(p: Pacer, t: nat, n: u64)
    requires p.Paces(t)
    ensures n <= p.Due(t) <==> n * p.NsBits() <= (t - p.startNs) * p.bandwidthBps
  {
    hide Quotient;
    Wrap128Small((t - p.startNs) * p.bandwidthBps);
    QuotientAtLeast((t - p.startNs) * p.bandwidthBps, p.NsBits(), n);
  }

  lemma WakeExact(p: Pacer, n: u64)
    requires p.WakesExactly(n)
    ensures p.WakeAfterNs(n) == Quotient(n * p.NsBits(), p.bandwidthBps)
  {
    hide Quotient;
    Wrap128Small(n * p.NsBits());
  }

  /** The wake time is a near inverse of the due count: up to it at most `n` packets are due,
      and past it at least `n` are. */
  lemma NearInverse(p: Pacer, t: nat, n: u64)
    requires p.Paces(t) && p.WakesExactly(n)
    ensures t <= p.WakeNs(n) ==> p.Due(t) <= n
    ensures t > p.WakeNs(n) ==> p.Due(t) >= n
  {
    hide Quotient, Wrap128;
    var e: nat, b, total: nat := t - p.startNs, p.bandwidthBps, n * p.NsBits();
    WakeExact(p, n);
    if t <= p.WakeNs(n) {
      MulMono(e, Quotient(total, b), b);
      if p.Due(t) > n {
        DueExact(p, t, n + 1);
      }
    } else {
      MulMono(Quotient(total, b) + 1, e, b);
      DueExact(p, t, n);
    }
  }

  /** Sleeping never holds back a packet that may be sent: whenever more than `n` packets are
      due the wake time of packet `n` has passed. */
  lemma NeverOversleeps(p: Pacer, t: nat, n: u64)
    requires p.Paces(t) && p.WakesExactly(n) && p.Due(t) > n
    ensures p.WakeNs(n) < t
  {
    if t <= p.WakeNs(n) {
      NearInverse(p, t, n);
    }
  }

  /** Without a rate, or without bytes to pace, everything is due at once; with one, nothing is due
      before the start. */
  lemma DueAtTheEdges(p: Pacer, t: nat)
    ensures p.bandwidthBps == 0 || p.packetBytes == 0 ==> p.Due(t) == 0xFFFF_FFFF_FFFF_FFFF
    ensures p.bandwidthBps > 0 && p.packetBytes > 0 && t <= p.startNs ==> p.Due(t) == 0
  {
    if p.bandwidthBps > 0 && p.packetBytes > 0 && t <= p.startNs {
      Wrap128Small(0);
      QuotientAtLeast(0, p.NsBits(), 1);
    }
  }

  /** A count or a wake time that 64 bits cannot hold is clamped to their maximum. */
  lemma Clamped(p: Pacer, t: nat, n: u64)
    requires p.bandwidthBps > 0 && p.packetBytes > 0
    ensures t >= p.startNs && (t - p.startNs) * p.bandwidthBps < TWO128
            && Quotient((t - p.startNs) * p.bandwidthBps, p.NsBits()) > 0xFFFF_FFFF_FFFF_FFFF
            ==> p.Due(t) == 0xFFFF_FFFF_FFFF_FFFF
    ensures n * p.NsBits() < TWO128 && Quotient(n * p.NsBits(), p.bandwidthBps) > 0xFFFF_FFFF_FFFF_FFFF
            ==> p.WakeNs(n) == p.startNs + 0xFFFF_FFFF_FFFF_FFFF
  {
    hide Quotient;
    if t >= p.startNs { Wrap128Small((t - p.startNs) * p.bandwidthBps); }
    Wrap128Small(n * p.NsBits());
  }

  /** When the send loop's test passes for packet `n`: one packet interval after the wake time. */
  lemma SendableExactly(p: Pacer, t: nat, n: u64)
    requires p.Paces(t) && n < U64_MAX
    ensures n < p.Due(t) <==> (n + 1) * (p.packetBytes * 8 * 1_000_000_000) <= (t - p.startNs) * p.bandwidthBps
  {
    hide Pacer.Due;
    DueExact(p, t, n + 1);
  }

  /** At the wake time of packet `n` the test does not pass. */
  lemma NotSendableAtWake(p: Pacer, n: u64)
    requires p.WakesExactly(n) && p.Paces(p.WakeNs(n))
    ensures p.Due(p.WakeNs(n)) <= n
  {
    NearInverse(p, p.WakeNs(n), n);
  }

  /** Packets of 1000 bytes at 1 Mbit/s, one every 8 ms: packet 5 is woken for at 40 ms, and the
      loop sends it at 48 ms. */
  lemma WokenEarly()
    ensures var p := Pacer(1_000_000, 1000, 0);
            && p.WakesExactly(5) && p.WakeNs(5) == 40_000_000
            && p.Paces(40_000_000) && p.Paces(47_999_999) && p.Paces(48_000_000)
            && p.Due(40_000_000) == p.Due(47_999_999) == 5 && p.Due(48_000_000) == 6
  {
    assert Quotient(5 * (8000 * NS_PER_SEC), 1_000_000) == 40_000_000;
    assert Quotient(40_000_000 * 1_000_000, 8000 * NS_PER_SEC) == 5;
    assert Quotient(47_999_999 * 1_000_000, 8000 * NS_PER_SEC) == 5;
    assert Quotient(48_000_000 * 1_000_000, 8000 * NS_PER_SEC) == 6;
  }

  lemma DueMonotone(p: Pacer, t: nat, t': nat)
    requires p.Paces(t) && p.Paces(t') && t <= t'
    ensures p.Due(t) <= p.Due(t')
  {
    hide Quotient;
    Wrap128Small((t - p.startNs) * p.bandwidthBps);
    Wrap128Small((t' - p.startNs) * p.bandwidthBps);
    MulMono(t - p.startNs, t' - p.startNs, p.bandwidthBps);
    QuotientMono((t - p.startNs) * p.bandwidthBps, (t' - p.startNs) * p.bandwidthBps, p.NsBits());
  }

  lemma WakeMonotone(p: Pacer, n: u64, n': u64)
    requires p.WakesExactly(n) && p.WakesExactly(n') && n <= n'
    ensures p.WakeNs(n) <= p.WakeNs(n')
  {
    WakeExact(p, n);
    WakeExact(p, n');
    MulMono(n, n', p.NsBits());
    QuotientMono(n * p.NsBits(), n' * p.NsBits(), p.bandwidthBps);
  }

  /** The packets a duration has room for at the given rate. */
  function Allowance(durationNs: nat, bandwidthBps: nat, packetBytes: nat): nat
    requires packetBytes > 0
  {
    Quotient(durationNs * bandwidthBps, 8 * packetBytes * NS_PER_SEC)
  }

  /** It is the floor of duration times rate over the bits of a packet. */
  lemma AllowanceIsFloor(durationNs: nat, bandwidthBps: nat, packetBytes: nat)
    requires packetBytes > 0
    ensures var q, bits := Allowance(durationNs, bandwidthBps, packetBytes), 8 * packetBytes * 1_000_000_000;
            q * bits <= durationNs * bandwidthBps < (q + 1) * bits
  {
  }

  /** Before the deadline no more packets are due than the whole duration has room for. */
  lemma DueWithinAllowance(p: Pacer, t: nat, durationNs: nat)
    requires p.bandwidthBps > 0 && p.packetBytes > 0 && t < p.startNs + durationNs
    requires durationNs * p.bandwidthBps < TWO128
    ensures p.Due(t) <= Allowance(durationNs, p.bandwidthBps, p.packetBytes)
  {
    var e := Max(0, t - p.startNs);
    hide Quotient;
    Wrap128Small(e * p.bandwidthBps);
    MulMono(e, durationNs, p.bandwidthBps);
    QuotientMono(e * p.bandwidthBps, durationNs * p.bandwidthBps, p.NsBits());
    assert p.NsBits() == 8 * p.packetBytes * NS_PER_SEC;
  }
}
