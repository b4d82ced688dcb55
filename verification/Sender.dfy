/** The sending side of a UDP test: the hello and the paced loop. */
module Sender {
  import opened Wire
  import opened Protocol
  import opened Datagrams
  import opened Pacers

  /** The first tick from `tick` on at which the clock shows at least `target`, where there is one. */
  ghost function WakeTick(reading: nat -> nat, tick: nat, target: nat): (w: nat)
    ensures w >= tick && forall i: nat :: tick <= i < w ==> reading(i) < target
    ensures (exists j: nat :: j >= tick && reading(j) >= target) ==> reading(w) >= target
  {
    if j: nat :| j >= tick && reading(j) >= target then FirstTick(reading, tick, target, j) else tick
  }

  ghost function FirstTick(reading: nat -> nat, tick: nat, target: nat, last: nat): (w: nat)
    requires tick <= last && reading(last) >= target
    ensures w >= tick && reading(w) >= target && forall i: nat :: tick <= i < w ==> reading(i) < target
    decreases last - tick
  {
    if reading(tick) >= target then tick else FirstTick(reading, tick + 1, target, last)
  }

  /** A clock that ticks whenever it is read and while a sleep lasts: `reading` is what it shows at
      each tick, `ticks` are gone by. */
  class Clock {
    const reading: nat -> nat
    var ticks: nat

    constructor (reading: nat -> nat)
      ensures this.reading == reading && ticks == 0
    {
      this.reading := reading;
      ticks := 0;
    }

    ghost predicate Monotone() {
      forall i: nat, j: nat :: i <= j ==> reading(i) <= reading(j)
    }

    /** It shows every time at last. */
    ghost predicate GoesOn() {
      forall t: nat :: Shows(t)
    }

    ghost predicate Shows(t: nat) {
      exists j: nat :: reading(j) >= t
    }

    /** Every time still lies ahead. */
    lemma Ahead(t: nat) returns (j: nat)
      requires Monotone() && GoesOn()
      ensures j >= ticks && reading(j) >= t
    {
      assert Shows(t);
      j :| reading(j) >= t;
      if j < ticks {
        Later(j, ticks);
        j := ticks;
      }
    }

    lemma Later(i: nat, j: nat)
      requires Monotone() && i <= j
      ensures reading(i) <= reading(j)
    {
    }

    method Now() returns (t: nat)
      modifies this
      ensures t == reading(old(ticks)) && ticks == old(ticks) + 1
    {
      t := reading(ticks);
      ticks := ticks + 1;
    }

    /** Reads the clock and, where `target` is still to come, sleeps until it shows it. */
    method SleepUntil(target: nat)
      requires Monotone() && GoesOn()
      modifies this
      ensures ticks == WakeTick(reading, old(ticks) + 1, target) && reading(ticks) >= target
    {
      var now := Now();
      ghost var from := ticks;
      ghost var wake := Ahead(target);
      if target > now {
        while reading(ticks) < target
          invariant from <= ticks <= wake && forall i: nat :: from <= i < ticks ==> reading(i) < target
          decreases wake - ticks
        {
          ticks := ticks + 1;
        }
      } else {
        Later(from - 1, from);
      }
    }
  }

  /** A datagram socket: `accepts` decides which attempts to send succeed. */
  class Socket {
    const accepts: nat -> bool
    var attempts: nat
    var sent: seq<seq<byte>>

    constructor (accepts: nat -> bool)
      ensures this.accepts == accepts && attempts == 0 && sent == []
    {
      this.accepts := accepts;
      attempts, sent := 0, [];
    }

    method Send(data: seq<byte>) returns (ok: bool)
      modifies this
      ensures ok == accepts(old(attempts)) && attempts == old(attempts) + 1
      ensures sent == old(sent) + if ok then [data] else []
    {
      ok := accepts(attempts);
      attempts := attempts + 1;
      if ok {
        sent := sent + [data];
      }
    }
  }

  /** `sent` are datagrams of `size` bytes numbered 0, 1, 2, ... without a gap. */
  ghost predicate Numbered(sent: seq<seq<byte>>, size: nat) {
    forall k :: 0 <= k < |sent| ==> HasNumber(sent[k], k, size)
  }

  ghost predicate HasNumber(data: seq<byte>, k: nat, size: nat) {
    |data| == size && DecodeUdpHeader(data).Some? && DecodeUdpHeader(data).value.0 == k
  }

  /** The bytes of `n` datagrams of `size` bytes each, as a 64-bit counter adds them up. */
  function ByteCount(n: nat, size: nat): u64 {
    if n == 0 then 0 else Wrap(ByteCount(n - 1, size) + size)
  }

  lemma {:induction false} ByteCountIsProduct(n: nat, size: nat)
    ensures ByteCount(n, size) == Wrap(n * size)
  {
    hide Wrap;
    if n > 0 {
      ByteCountIsProduct(n - 1, size);
      WrapAdd((n - 1) * size, size);
      assert n * size == (n - 1) * size + size;
    } else {
      NoBytes();
    }
  }

  lemma NoBytes()
    ensures Wrap(0) == 0
  {
  }

  lemma ByteCountStart(size: u64)
    ensures ByteCount(0, size) == 0 && ByteCount(1, size) == size
  {
    assert ByteCount(1, size) == Wrap(ByteCount(0, size) + size);
  }

  lemma ByteCountStep(n: nat, size: nat)
    ensures ByteCount(n + 1, size) == Wrap(ByteCount(n, size) + size)
  {
  }

  /** The report of a sender that emitted `sent`. */
  ghost predicate ReportsSent(r: Report, sent: seq<seq<byte>>, size: nat) {
    && Numbered(sent, size)
    && |sent| <= U64_MAX
    && r == Report(ByteCount(|sent|, size), |sent|, Max(0, |sent| - 1), 0, 0, 0, 0, 0, 0, r.durationNs)
  }

  /** Writes the header for the next packet and sends the buffer. */
  method SendNumbered(socket: Socket, buf: array<byte>, seqNo: u64, sendNs: u64) returns (ok: bool)
    requires buf.Length >= UDP_HEADER_LEN && seqNo == |socket.sent| && Numbered(socket.sent, buf.Length)
    modifies socket, buf
    ensures ok == socket.accepts(old(socket.attempts)) && socket.attempts == old(socket.attempts) + 1
    ensures buf[..] == Be(seqNo, 8) + Be(sendNs, 8) + old(buf[UDP_HEADER_LEN..])
    ensures socket.sent == old(socket.sent) + if ok then [buf[..]] else []
    ensures DecodeUdpHeader(buf[..]) == Some((seqNo, sendNs)) && Numbered(socket.sent, buf.Length)
  {
    EncodeUdpHeader(buf, seqNo, sendNs);
    HeaderRoundTrip(seqNo, sendNs, old(buf[UDP_HEADER_LEN..]));
    ok := socket.Send(buf[..]);
  }

  /** The rate is limited and the whole duration does not overflow the pacer's product. */
  predicate Limited(p: Pacer, durationNs: nat) {
    p.bandwidthBps > 0 && durationNs * p.bandwidthBps < TWO128
  }

  /** The most packets a run of the loop may end with. */
  function Cap(p: Pacer, durationNs: nat, first: nat): nat
    requires p.packetBytes > 0
  {
    Max(first, Allowance(durationNs, p.bandwidthBps, p.packetBytes))
  }

  lemma FirstWithinCap(p: Pacer, durationNs: nat, first: nat)
    requires p.packetBytes > 0
    ensures first <= Cap(p, durationNs, first)
  {
  }

  lemma DueWithinCap(p: Pacer, t: nat, durationNs: nat, first: nat)
    requires p.packetBytes > 0 && Limited(p, durationNs) && t < p.startNs + durationNs
    ensures p.Due(t) <= Cap(p, durationNs, first)
  {
    hide Quotient;
    DueWithinAllowance(p, t, durationNs);
  }

  /** The last reading of the clock was past the deadline. */
  ghost predicate SawDeadline(clock: Clock, deadlineNs: nat)
    reads clock
  {
    clock.ticks > 0 && clock.reading(clock.ticks - 1) >= deadlineNs
  }

  /** The last attempt to send failed. */
  ghost predicate SawFailure(socket: Socket)
    reads socket
  {
    socket.attempts > 0 && !socket.accepts(socket.attempts - 1)
  }

  /** Datagram `k` carries the time that `tick` showed since the session start, and the tick before
      it was not past the deadline. */
  ghost predicate Stamp(data: seq<byte>, k: nat, reading: nat -> nat, tick: nat, startNs: nat, deadlineNs: nat) {
    && tick > 0 && reading(tick - 1) < deadlineNs && k <= U64_MAX
    && DecodeUdpHeader(data) == Some((k, Wrap(reading(tick) - startNs)))
  }

  /** The datagrams from number `next` on were stamped at every second tick, beginning right after
      `tick`. */
  ghost predicate Batch(sent: seq<seq<byte>>, next: nat, reading: nat -> nat, tick: nat, startNs: nat, deadlineNs: nat) {
    forall k :: next <= k < |sent| ==> Stamp(sent[k], k, reading, tick + 2 * (k - next) + 1, startNs, deadlineNs)
  }

  lemma NoBatch(sent: seq<seq<byte>>, next: nat, reading: nat -> nat, tick: nat, startNs: nat, deadlineNs: nat)
    requires |sent| <= next
    ensures Batch(sent, next, reading, tick, startNs, deadlineNs)
  {
  }

  lemma BatchMore(sent: seq<seq<byte>>, data: seq<byte>, next: nat, reading: nat -> nat, tick: nat, at: nat,
                  startNs: nat, deadlineNs: nat)
    requires Batch(sent, next, reading, tick, startNs, deadlineNs) && next <= |sent| <= U64_MAX
    requires at == tick + 2 * (|sent| - next) + 1 && reading(at - 1) < deadlineNs
    requires DecodeUdpHeader(data) == Some((|sent|, Wrap(reading(at) - startNs)))
    ensures Batch(sent + [data], next, reading, tick, startNs, deadlineNs)
  {
    hide DecodeUdpHeader, Wrap;
  }

  /** Sends the packets below `due`, which was computed at `dueAt`, checking the deadline before
      each; `stop` when the deadline has passed or a send failed. Each packet takes two readings
      of the clock and one attempt, so no time is spent on anything else. `horizon` is a
      tick at which the deadline has passed. */
  method SendDue(clock: Clock, socket: Socket, buf: array<byte>, pacer: Pacer, startNs: nat, deadlineNs: nat,
                 dueAt: nat, first: nat, next: u64, sentBytes: u64, ghost horizon: nat)
    returns (seqNo: u64, bytes: u64, stop: bool, ghost failed: bool)
    requires clock.Monotone() && clock.GoesOn() && clock.reading(horizon) >= deadlineNs && dueAt <= clock.reading(clock.ticks)
    requires buf.Length >= UDP_HEADER_LEN && pacer.packetBytes == buf.Length
    requires startNs <= deadlineNs && startNs <= pacer.startNs
    requires next == |socket.sent| && Numbered(socket.sent, buf.Length) && sentBytes == ByteCount(next, buf.Length)
    requires Limited(pacer, deadlineNs - startNs) ==> next <= Cap(pacer, deadlineNs - startNs, first)
    modifies clock, socket, buf
    ensures seqNo == |socket.sent| && Numbered(socket.sent, buf.Length) && bytes == ByteCount(seqNo, buf.Length)
    ensures Limited(pacer, deadlineNs - startNs) ==> seqNo <= Cap(pacer, deadlineNs - startNs, first)
    ensures old(socket.sent) <= socket.sent
    ensures !stop ==> seqNo == Max(next, pacer.Due(dueAt)) && !failed
    ensures stop ==> next <= seqNo < pacer.Due(dueAt)
    ensures socket.attempts == old(socket.attempts) + seqNo - next + if failed then 1 else 0
    ensures clock.ticks == old(clock.ticks) + 2 * (seqNo - next) + if failed then 2 else if stop then 1 else 0
    ensures failed ==> SawFailure(socket)
    ensures stop && !failed ==> SawDeadline(clock, deadlineNs)
    ensures Batch(socket.sent, next, clock.reading, old(clock.ticks), startNs, deadlineNs)
  {
    hide Numbered, ByteCount, Cap, Limited, Clock.Monotone, Clock.GoesOn, Pacer.Due, Be, DecodeUdpHeader, Batch, Wrap;
    NoBatch(socket.sent, next, clock.reading, clock.ticks, startNs, deadlineNs);
    var due := pacer.Due(dueAt);
    seqNo, bytes, stop, failed := next, sentBytes, false, false;
    while seqNo < due
      invariant seqNo == |socket.sent| && Numbered(socket.sent, buf.Length) && bytes == ByteCount(seqNo, buf.Length)
      invariant Limited(pacer, deadlineNs - startNs) ==> seqNo <= Cap(pacer, deadlineNs - startNs, first)
      invariant next <= seqNo <= Max(next, due) && old(socket.sent) <= socket.sent && !stop && !failed
      invariant clock.ticks == old(clock.ticks) + 2 * (seqNo - next)
      invariant socket.attempts == old(socket.attempts) + seqNo - next
      invariant Batch(socket.sent, next, clock.reading, old(clock.ticks), startNs, deadlineNs)
      decreases Max(0, horizon - clock.ticks)
    {
      clock.Later(old(clock.ticks), clock.ticks);
      if horizon <= clock.ticks { clock.Later(horizon, clock.ticks); }
      var now := clock.Now();
      if now >= deadlineNs {
        stop := true;
        return;
      }
      if Limited(pacer, deadlineNs - startNs) {
        DueWithinCap(pacer, dueAt, deadlineNs - startNs, first);
      }
      var sendAt := clock.Now();
      ghost var sent := socket.sent;
      var ok := SendNumbered(socket, buf, seqNo, Wrap(sendAt - startNs));
      if !ok {
        assert socket.sent == sent;
        stop, failed := true, true;
        return;
      }
      BatchMore(sent, buf[..], next, clock.reading, old(clock.ticks), clock.ticks - 1, startNs, deadlineNs);
      ByteCountStep(seqNo, buf.Length);
      bytes := Wrap(bytes + buf.Length);
      seqNo := seqNo + 1;
    }
  }

  // ----- The paced loop -----

  /** Packets sent and clock readings taken. */
  datatype Progress = Progress(count: u64, tick: nat)

  /** Where the loop stands after `n` full rounds that began with `first` packets at tick `from`. A
      round reads the clock for the deadline and for the due count, then twice for each packet that
      is due, and where there is a rate it sleeps until the next packet. */
  ghost function Rounds(p: Pacer, reading: nat -> nat, first: u64, from: nat, n: nat): (r: Progress)
    ensures r.count >= first && r.tick >= from + 2 * n
  {
    if n == 0 then Progress(first, from) else Round(p, reading, Rounds(p, reading, first, from, n - 1))
  }

  ghost function Round(p: Pacer, reading: nat -> nat, before: Progress): (r: Progress)
    ensures r.count == Max(before.count, p.Due(reading(before.tick + 1)))
    ensures r.tick >= before.tick + 2 + 2 * (r.count - before.count)
  {
    var count := Max(before.count, p.Due(reading(before.tick + 1)));
    var tick := before.tick + 2 + 2 * (count - before.count);
    Progress(count, if p.bandwidthBps > 0 then WakeTick(reading, tick + 1, p.WakeNs(count)) else tick)
  }

  /** The tick that packet `k` is stamped with, within the first `n` rounds. */
  ghost function SentTick(p: Pacer, reading: nat -> nat, first: u64, from: nat, n: nat, k: nat): (t: nat)
    ensures t >= from
  {
    if n == 0 then from
    else
      var before := Rounds(p, reading, first, from, n - 1);
      if k >= before.count then before.tick + 3 + 2 * (k - before.count) else SentTick(p, reading, first, from, n - 1, k)
  }

  /** Every datagram past the first `first` carries the time of its tick within `n` rounds. */
  ghost predicate Stamped(p: Pacer, reading: nat -> nat, startNs: nat, deadlineNs: nat, first: u64, from: nat, n: nat,
                          sent: seq<seq<byte>>)
  {
    && |sent| <= Rounds(p, reading, first, from, n).count
    && forall k :: first <= k < |sent| ==>
                     Stamp(sent[k], k, reading, SentTick(p, reading, first, from, n, k), startNs, deadlineNs)
  }

  /** The first `n` rounds began before the deadline. */
  ghost predicate InTime(p: Pacer, reading: nat -> nat, deadlineNs: nat, first: u64, from: nat, n: nat) {
    forall j: nat :: j < n ==> reading(Rounds(p, reading, first, from, j).tick) < deadlineNs
  }

  lemma InTimeMore(p: Pacer, reading: nat -> nat, deadlineNs: nat, first: u64, from: nat, n: nat)
    requires InTime(p, reading, deadlineNs, first, from, n) && reading(Rounds(p, reading, first, from, n).tick) < deadlineNs
    ensures InTime(p, reading, deadlineNs, first, from, n + 1)
  {
    hide Rounds;
  }

  /** One more round, whole or in part, adds its datagrams. */
  lemma StampedMore(p: Pacer, reading: nat -> nat, startNs: nat, deadlineNs: nat, first: u64, from: nat, n: nat,
                    sent: seq<seq<byte>>, more: seq<seq<byte>>)
    requires Stamped(p, reading, startNs, deadlineNs, first, from, n, sent) && sent <= more
    requires |sent| == Rounds(p, reading, first, from, n).count
    requires |more| <= Rounds(p, reading, first, from, n + 1).count
    requires Batch(more, |sent|, reading, Rounds(p, reading, first, from, n).tick + 2, startNs, deadlineNs)
    ensures Stamped(p, reading, startNs, deadlineNs, first, from, n + 1, more)
  {
    hide Rounds, Stamp;
    forall k | first <= k < |more|
      ensures Stamp(more[k], k, reading, SentTick(p, reading, first, from, n + 1, k), startNs, deadlineNs)
    {
      if k < |sent| {
        assert more[k] == sent[k];
      }
    }
  }

  /** Packets are sent one after the other. */
  lemma {:induction false} SentTicksAscend(p: Pacer, reading: nat -> nat, first: u64, from: nat, n: nat, i: nat, j: nat)
    requires first <= i < j < Rounds(p, reading, first, from, n).count
    ensures SentTick(p, reading, first, from, n, i) < SentTick(p, reading, first, from, n, j)
  {
    hide Rounds, Round, Pacer.Due;
    NoRounds(p, reading, first, from);
    RoundsStep(p, reading, first, from, n - 1);
    var before := Rounds(p, reading, first, from, n - 1);
    if j < before.count {
      SentTicksAscend(p, reading, first, from, n - 1, i, j);
    } else if i < before.count {
      SentBefore(p, reading, first, from, n - 1, i);
    }
  }

  lemma {:induction false} SentBefore(p: Pacer, reading: nat -> nat, first: u64, from: nat, n: nat, i: nat)
    requires first <= i < Rounds(p, reading, first, from, n).count
    ensures SentTick(p, reading, first, from, n, i) < Rounds(p, reading, first, from, n).tick
  {
    hide Rounds, Round, Pacer.Due;
    NoRounds(p, reading, first, from);
    RoundsStep(p, reading, first, from, n - 1);
    var before := Rounds(p, reading, first, from, n - 1);
    if i < before.count {
      SentBefore(p, reading, first, from, n - 1, i);
    }
  }

  /** The times in the datagrams never fall. */
  lemma SendTimesNeverFall(p: Pacer, reading: nat -> nat, startNs: nat, deadlineNs: nat, first: u64, from: nat, n: nat,
                           sent: seq<seq<byte>>, i: nat, j: nat)
    requires Stamped(p, reading, startNs, deadlineNs, first, from, n, sent) && first <= i < j < |sent|
    requires Nondecreasing(reading) && startNs <= reading(from)
    requires reading(SentTick(p, reading, first, from, n, j)) - startNs < TWO64
    ensures DecodeUdpHeader(sent[i]).Some? && DecodeUdpHeader(sent[j]).Some?
    ensures DecodeUdpHeader(sent[i]).value.1 == reading(SentTick(p, reading, first, from, n, i)) - startNs
    ensures DecodeUdpHeader(sent[i]).value.1 <= DecodeUdpHeader(sent[j]).value.1
  {
    hide DecodeUdpHeader, Rounds;
    SentTicksAscend(p, reading, first, from, n, i, j);
    var s, t := SentTick(p, reading, first, from, n, i), SentTick(p, reading, first, from, n, j);
    assert reading(from) <= reading(s) <= reading(t);
    WrapExact(reading(s) - startNs);
    WrapExact(reading(t) - startNs);
  }

  /** How the loop ended after `rounds` full rounds: with all that was due sent and the deadline
      seen at the start of a round, or in the middle of a batch because the deadline was seen or
      the attempt for the next packet failed. */
  ghost predicate Paced(p: Pacer, reading: nat -> nat, deadlineNs: nat, first: u64, from: nat,
                        rounds: nat, failed: bool, count: u64, ticks: nat)
  {
    var done, next := Rounds(p, reading, first, from, rounds), Rounds(p, reading, first, from, rounds + 1);
    && (!failed ==> ticks > 0 && reading(ticks - 1) >= deadlineNs)
    && if ticks == done.tick + 1 then InTime(p, reading, deadlineNs, first, from, rounds) && !failed && count == done.count
       else InTime(p, reading, deadlineNs, first, from, rounds + 1)
            && done.count <= count < next.count
            && ticks == done.tick + 3 + 2 * (count - done.count) + if failed then 1 else 0
  }

  lemma PacedToDeadline(p: Pacer, reading: nat -> nat, deadlineNs: nat, first: u64, from: nat, rounds: nat,
                        count: u64, ticks: nat)
    requires ticks > 0 && reading(ticks - 1) >= deadlineNs && InTime(p, reading, deadlineNs, first, from, rounds)
    requires Rounds(p, reading, first, from, rounds) == Progress(count, ticks - 1)
    ensures Paced(p, reading, deadlineNs, first, from, rounds, false, count, ticks)
  {
  }

  lemma PacedToBreak(p: Pacer, reading: nat -> nat, deadlineNs: nat, first: u64, from: nat, rounds: nat, failed: bool,
                     done: Progress, count: u64, ticks: nat)
    requires Rounds(p, reading, first, from, rounds) == done && InTime(p, reading, deadlineNs, first, from, rounds + 1)
    requires done.count <= count < p.Due(reading(done.tick + 1))
    requires ticks == done.tick + 3 + 2 * (count - done.count) + if failed then 1 else 0
    requires !failed ==> ticks > 0 && reading(ticks - 1) >= deadlineNs
    ensures Paced(p, reading, deadlineNs, first, from, rounds, failed, count, ticks)
  {
    hide Pacer.Due, InTime;
    RoundsStep(p, reading, first, from, rounds);
  }

  /** Every due count that a full round took was sent. */
  lemma {:induction false} AskedIsSent(p: Pacer, reading: nat -> nat, first: u64, from: nat, n: nat, j: nat)
    requires j < n
    ensures p.Due(reading(Rounds(p, reading, first, from, j).tick + 1)) <= Rounds(p, reading, first, from, n).count
  {
    hide Pacer.Due, Rounds, Round;
    RoundsStep(p, reading, first, from, n - 1);
    if j < n - 1 {
      AskedIsSent(p, reading, first, from, n - 1, j);
    }
  }

  /** A sender keeps the rate: whatever was due at any full round has been sent, and where no
      attempt failed it was the deadline that ended the loop. */
  lemma SenderKeepsPace(p: Pacer, reading: nat -> nat, deadlineNs: nat, first: u64, from: nat,
                        rounds: nat, failed: bool, count: u64, ticks: nat)
    requires Paced(p, reading, deadlineNs, first, from, rounds, failed, count, ticks)
    ensures forall j: nat :: j < rounds ==> p.Due(reading(Rounds(p, reading, first, from, j).tick + 1)) <= count
    ensures failed || reading(ticks - 1) >= deadlineNs
  {
    hide Pacer.Due;
    forall j: nat | j < rounds
      ensures p.Due(reading(Rounds(p, reading, first, from, j).tick + 1)) <= count
    {
      AskedIsSent(p, reading, first, from, rounds, j);
    }
  }

  lemma RoundsStep(p: Pacer, reading: nat -> nat, first: u64, from: nat, n: nat)
    ensures Rounds(p, reading, first, from, n + 1) == Round(p, reading, Rounds(p, reading, first, from, n))
  {
  }

  lemma RoundComplete(p: Pacer, reading: nat -> nat, first: u64, from: nat, n: nat, before: Progress, count: u64, tick: nat)
    requires Rounds(p, reading, first, from, n) == before && count == Max(before.count, p.Due(reading(before.tick + 1)))
    requires tick == before.tick + 2 + 2 * (count - before.count)
    ensures Rounds(p, reading, first, from, n + 1) ==
            Progress(count, if p.bandwidthBps > 0 then WakeTick(reading, tick + 1, p.WakeNs(count)) else tick)
  {
    hide Pacer.Due, Pacer.WakeNs, WakeTick;
  }

  ghost predicate Nondecreasing(reading: nat -> nat) {
    forall i: nat, j: nat :: i <= j ==> reading(i) <= reading(j)
  }

  lemma PacesBetween(p: Pacer, t: nat, u: nat, v: nat)
    requires p.Paces(t) && p.Paces(v) && t <= u <= v
    ensures p.Paces(u)
  {
    MulMono(u - p.startNs, v - p.startNs, p.bandwidthBps);
  }

  lemma DueGrows(p: Pacer, reading: nat -> nat, from: nat, i: nat, j: nat)
    requires Nondecreasing(reading) && p.Paces(reading(from)) && p.Paces(reading(j)) && from <= i <= j
    ensures p.Paces(reading(i)) && p.Due(reading(i)) <= p.Due(reading(j))
  {
    hide Pacer.Due, Pacer.Paces;
    assert reading(from) <= reading(i) <= reading(j);
    PacesBetween(p, reading(from), reading(i), reading(j));
    DueMonotone(p, reading(i), reading(j));
  }

  /** After every round, the sender is not ahead of what is due at that instant. */
  lemma {:induction false} NeverAhead(p: Pacer, reading: nat -> nat, first: u64, from: nat, n: nat)
    requires Nondecreasing(reading) && p.Paces(reading(from)) && p.Paces(reading(Rounds(p, reading, first, from, n).tick))
    ensures Rounds(p, reading, first, from, n).count <= Max(first, p.Due(reading(Rounds(p, reading, first, from, n).tick)))
  {
    hide Pacer.Due, Pacer.Paces, Round, Nondecreasing;
    if n > 0 {
      RoundsStep(p, reading, first, from, n - 1);
      var before, after := Rounds(p, reading, first, from, n - 1), Rounds(p, reading, first, from, n);
      DueGrows(p, reading, from, before.tick, after.tick);
      DueGrows(p, reading, from, before.tick + 1, after.tick);
      NeverAhead(p, reading, first, from, n - 1);
    } else {
      NoRounds(p, reading, first, from);
    }
  }

  /** The tick at which a round has sent its packets and reads the clock for its sleep. */
  function BatchEnd(p: Pacer, reading: nat -> nat, before: Progress): nat {
    before.tick + 2 + 2 * (Max(before.count, p.Due(reading(before.tick + 1))) - before.count)
  }

  /** At no tick that a sleep skips is there a packet to send. */
  lemma SleepDelaysNothing(p: Pacer, reading: nat -> nat, before: Progress, i: nat)
    requires p.bandwidthBps > 0 && BatchEnd(p, reading, before) < i < Round(p, reading, before).tick
    requires p.Paces(reading(i)) && p.WakesExactly(Round(p, reading, before).count)
    ensures p.Due(reading(i)) <= Round(p, reading, before).count
  {
    hide Pacer.Due, Pacer.Paces, Pacer.WakesExactly, Pacer.WakeAfterNs;
    NearInverse(p, reading(i), Round(p, reading, before).count);
  }

  /** A round with a sleep ends no earlier than the wake time. */
  lemma WokenInTime(p: Pacer, reading: nat -> nat, before: Progress)
    requires p.bandwidthBps > 0
    requires exists j: nat :: j > BatchEnd(p, reading, before) && reading(j) >= p.WakeNs(Round(p, reading, before).count)
    ensures reading(Round(p, reading, before).tick) >= p.WakeNs(Round(p, reading, before).count)
  {
    hide Pacer.Due, Pacer.WakeNs;
  }

  /** What a sleep contributes: once the wake time is past, all that was sent is due, and the next
      round sends up to exactly the due count it takes. */
  lemma ToppedUpExactly(p: Pacer, reading: nat -> nat, woken: Progress)
    requires p.bandwidthBps > 0 && p.WakesExactly(woken.count) && reading(woken.tick) > p.WakeNs(woken.count)
    requires p.Paces(reading(woken.tick)) && p.Paces(reading(woken.tick + 1)) && Nondecreasing(reading)
    ensures woken.count <= p.Due(reading(woken.tick)) && Round(p, reading, woken).count == p.Due(reading(woken.tick + 1))
  {
    hide Round, Pacer.Due, Pacer.Paces, Pacer.WakesExactly, Pacer.WakeNs;
    NearInverse(p, reading(woken.tick), woken.count);
    DueMonotone(p, reading(woken.tick), reading(woken.tick + 1));
  }

  /** The loop stands before its round `n`, having sent `sent`. */
  ghost predicate AtRound(p: Pacer, reading: nat -> nat, startNs: nat, deadlineNs: nat, first: u64, from: nat, n: nat,
                          count: u64, tick: nat, sent: seq<seq<byte>>)
  {
    && Rounds(p, reading, first, from, n) == Progress(count, tick) && |sent| == count
    && InTime(p, reading, deadlineNs, first, from, n) && Stamped(p, reading, startNs, deadlineNs, first, from, n, sent)
  }

  /** It has ended at tick `ticks` after `rounds` full rounds. */
  ghost predicate Over(p: Pacer, reading: nat -> nat, startNs: nat, deadlineNs: nat, first: u64, from: nat, rounds: nat,
                       failed: bool, count: u64, ticks: nat, sent: seq<seq<byte>>)
  {
    && Paced(p, reading, deadlineNs, first, from, rounds, failed, count, ticks)
    && Stamped(p, reading, startNs, deadlineNs, first, from, rounds + 1, sent)
  }

  lemma OverAtHead(p: Pacer, reading: nat -> nat, startNs: nat, deadlineNs: nat, first: u64, from: nat, n: nat,
                   count: u64, ticks: nat, sent: seq<seq<byte>>)
    requires ticks > 0 && AtRound(p, reading, startNs, deadlineNs, first, from, n, count, ticks - 1, sent)
    requires reading(ticks - 1) >= deadlineNs
    ensures Over(p, reading, startNs, deadlineNs, first, from, n, false, count, ticks, sent)
  {
    hide Rounds, Round, InTime, Stamped, Paced, Batch;
    PacedToDeadline(p, reading, deadlineNs, first, from, n, count, ticks);
    RoundsStep(p, reading, first, from, n);
    NoBatch(sent, count, reading, ticks + 1, startNs, deadlineNs);
    StampedMore(p, reading, startNs, deadlineNs, first, from, n, sent, sent);
  }

  lemma RoundSent(p: Pacer, reading: nat -> nat, startNs: nat, deadlineNs: nat, first: u64, from: nat, n: nat,
                  before: Progress, sent: seq<seq<byte>>, count: u64, tick: nat, more: seq<seq<byte>>)
    requires AtRound(p, reading, startNs, deadlineNs, first, from, n, before.count, before.tick, sent)
    requires reading(before.tick) < deadlineNs && sent <= more && |more| == count
    requires Batch(more, before.count, reading, before.tick + 2, startNs, deadlineNs)
    requires count == Max(before.count, p.Due(reading(before.tick + 1)))
    requires tick == before.tick + 2 + 2 * (count - before.count)
    ensures AtRound(p, reading, startNs, deadlineNs, first, from, n + 1, count,
                    if p.bandwidthBps > 0 then WakeTick(reading, tick + 1, p.WakeNs(count)) else tick, more)
  {
    hide Rounds, InTime, Stamped, Batch, Pacer.Due, Pacer.WakeNs, WakeTick;
    RoundComplete(p, reading, first, from, n, before, count, tick);
    InTimeMore(p, reading, deadlineNs, first, from, n);
    StampedMore(p, reading, startNs, deadlineNs, first, from, n, sent, more);
  }

  lemma OverInBatch(p: Pacer, reading: nat -> nat, startNs: nat, deadlineNs: nat, first: u64, from: nat, n: nat,
                    failed: bool, before: Progress, sent: seq<seq<byte>>, count: u64, ticks: nat, more: seq<seq<byte>>)
    requires AtRound(p, reading, startNs, deadlineNs, first, from, n, before.count, before.tick, sent)
    requires reading(before.tick) < deadlineNs && sent <= more && |more| == count
    requires Batch(more, before.count, reading, before.tick + 2, startNs, deadlineNs)
    requires before.count <= count < p.Due(reading(before.tick + 1))
    requires ticks == before.tick + 3 + 2 * (count - before.count) + if failed then 1 else 0
    requires !failed ==> ticks > 0 && reading(ticks - 1) >= deadlineNs
    ensures Over(p, reading, startNs, deadlineNs, first, from, n, failed, count, ticks, more)
  {
    hide Rounds, Round, InTime, Stamped, Paced, Batch, Pacer.Due;
    InTimeMore(p, reading, deadlineNs, first, from, n);
    RoundsStep(p, reading, first, from, n);
    PacedToBreak(p, reading, deadlineNs, first, from, n, failed, before, count, ticks);
    StampedMore(p, reading, startNs, deadlineNs, first, from, n, sent, more);
  }

  /** One round of the loop; `over` when it was the last. */
  method SendRound(clock: Clock, socket: Socket, buf: array<byte>, pacer: Pacer, startNs: nat, deadlineNs: nat,
                   first: u64, next: u64, sentBytes: u64, ghost horizon: nat, ghost from: nat, ghost rounds: nat)
    returns (seqNo: u64, bytes: u64, over: bool, ghost failed: bool)
    requires clock.Monotone() && clock.GoesOn() && clock.reading(horizon) >= deadlineNs
    requires buf.Length >= UDP_HEADER_LEN && pacer.packetBytes == buf.Length
    requires startNs <= deadlineNs && startNs <= pacer.startNs
    requires next == |socket.sent| && Numbered(socket.sent, buf.Length) && sentBytes == ByteCount(next, buf.Length)
    requires Limited(pacer, deadlineNs - startNs) ==> next <= Cap(pacer, deadlineNs - startNs, first)
    requires AtRound(pacer, clock.reading, startNs, deadlineNs, first, from, rounds, next, clock.ticks, socket.sent)
    modifies clock, socket, buf
    ensures seqNo == |socket.sent| && Numbered(socket.sent, buf.Length) && bytes == ByteCount(seqNo, buf.Length)
    ensures Limited(pacer, deadlineNs - startNs) ==> seqNo <= Cap(pacer, deadlineNs - startNs, first)
    ensures old(socket.sent) <= socket.sent && seqNo >= next
    ensures !over ==> !failed && old(clock.ticks) < Min(clock.ticks, horizon)
    ensures !over ==> AtRound(pacer, clock.reading, startNs, deadlineNs, first, from, rounds + 1, seqNo, clock.ticks, socket.sent)
    ensures over ==>
              Over(pacer, clock.reading, startNs, deadlineNs, first, from, rounds, failed, seqNo, clock.ticks, socket.sent)
    ensures socket.attempts == old(socket.attempts) + seqNo - next + if failed then 1 else 0
    ensures failed ==> SawFailure(socket)
  {
    hide Numbered, ByteCount, Cap, Limited, Clock.Monotone, Clock.GoesOn, Pacer.Due, WakeTick, Pacer.WakeNs;
    hide AtRound, Over, Batch, SawFailure;
    if horizon <= clock.ticks { clock.Later(horizon, clock.ticks); }
    var now := clock.Now();
    if now >= deadlineNs {
      OverAtHead(pacer, clock.reading, startNs, deadlineNs, first, from, rounds, next, clock.ticks, socket.sent);
      return next, sentBytes, true, false;
    }
    var dueAt := clock.Now();
    clock.Later(clock.ticks - 1, clock.ticks);
    ghost var done, sent := Progress(next, clock.ticks - 2), socket.sent;
    seqNo, bytes, over, failed :=
      SendDue(clock, socket, buf, pacer, startNs, deadlineNs, dueAt, first, next, sentBytes, horizon);
    if over {
      OverInBatch(pacer, clock.reading, startNs, deadlineNs, first, from, rounds, failed, done, sent, seqNo, clock.ticks,
                  socket.sent);
    } else {
      RoundSent(pacer, clock.reading, startNs, deadlineNs, first, from, rounds, done, sent, seqNo, clock.ticks, socket.sent);
      if pacer.bandwidthBps > 0 {
        clock.SleepUntil(pacer.WakeNs(seqNo));
      }
    }
  }

  /** The paced loop both senders run, from packet `first` on: it sends what is due, sleeps
      until about the next packet, and starts over until the deadline. */
  method SendPaced(clock: Clock, socket: Socket, buf: array<byte>, pacer: Pacer, startNs: nat, deadlineNs: nat,
                   first: u64, firstBytes: u64)
    returns (seqNo: u64, bytes: u64, ghost rounds: nat, ghost failed: bool)
    requires clock.Monotone() && clock.GoesOn()
    requires buf.Length >= UDP_HEADER_LEN && pacer.packetBytes == buf.Length
    requires startNs <= deadlineNs && startNs <= pacer.startNs
    requires first == |socket.sent| && Numbered(socket.sent, buf.Length) && firstBytes == ByteCount(first, buf.Length)
    modifies clock, socket, buf
    ensures seqNo == |socket.sent| >= first && old(socket.sent) <= socket.sent
    ensures Numbered(socket.sent, buf.Length) && bytes == ByteCount(seqNo, buf.Length)
    ensures Limited(pacer, deadlineNs - startNs) ==> seqNo <= Cap(pacer, deadlineNs - startNs, first)
    ensures Over(pacer, clock.reading, startNs, deadlineNs, first, old(clock.ticks), rounds, failed, seqNo, clock.ticks,
                 socket.sent)
    ensures socket.attempts == old(socket.attempts) + seqNo - first + if failed then 1 else 0
    ensures failed ==> SawFailure(socket)
  {
    hide Numbered, ByteCount, Cap, Limited, Clock.Monotone, Clock.GoesOn, Pacer.Due, AtRound, Over, SawFailure;
    seqNo, bytes, rounds, failed := first, firstBytes, 0, false;
    ghost var from := clock.ticks;
    ghost var horizon := clock.Ahead(deadlineNs);
    FirstWithinCap(pacer, deadlineNs - startNs, first);
    LoopStarts(pacer, clock.reading, startNs, deadlineNs, first, from, socket.sent);
    var over := false;
    while !over
      invariant seqNo == |socket.sent| && Numbered(socket.sent, buf.Length) && bytes == ByteCount(seqNo, buf.Length)
      invariant seqNo >= first && old(socket.sent) <= socket.sent
      invariant Limited(pacer, deadlineNs - startNs) ==> seqNo <= Cap(pacer, deadlineNs - startNs, first)
      invariant !over ==> !failed
      invariant !over ==>
                  AtRound(pacer, clock.reading, startNs, deadlineNs, first, from, rounds, seqNo, clock.ticks, socket.sent)
      invariant over ==>
                  Over(pacer, clock.reading, startNs, deadlineNs, first, from, rounds, failed, seqNo, clock.ticks, socket.sent)
      invariant socket.attempts == old(socket.attempts) + seqNo - first + if failed then 1 else 0
      invariant failed ==> SawFailure(socket)
      decreases !over, Max(0, horizon - clock.ticks)
    {
      seqNo, bytes, over, failed := SendRound(clock, socket, buf, pacer, startNs, deadlineNs, first, seqNo, bytes,
                                              horizon, from, rounds);
      rounds := if over then rounds else rounds + 1;
    }
  }

  lemma LoopStarts(p: Pacer, reading: nat -> nat, startNs: nat, deadlineNs: nat, first: u64, from: nat,
                   sent: seq<seq<byte>>)
    requires |sent| == first
    ensures AtRound(p, reading, startNs, deadlineNs, first, from, 0, first, from, sent)
  {
  }

  lemma NothingSent(sent: seq<seq<byte>>, size: nat)
    requires sent == []
    ensures Numbered(sent, size)
  {
  }

  lemma NoRounds(p: Pacer, reading: nat -> nat, first: u64, from: nat)
    ensures Rounds(p, reading, first, from, 0) == Progress(first, from)
  {
  }

  /** A sender whose clock stood at reading `at` and whose socket had made `attempts` ran the loop
      from packet `first`, after one reading for the session start and one for the pacer's, and
      took one more reading at the end. */
  ghost predicate LoopRan(clock: Clock, socket: Socket, bandwidthBps: u64, size: u64, durationNs: nat, first: u64,
                          at: nat, attempts: nat, rounds: nat, failed: bool)
    reads clock, socket
  {
    && clock.ticks > 0 && |socket.sent| <= U64_MAX
    && Over(Pacer(bandwidthBps, size, clock.reading(at + 1)), clock.reading, clock.reading(at),
            clock.reading(at) + durationNs, first, at + 2, rounds, failed, |socket.sent|, clock.ticks - 1, socket.sent)
    && socket.attempts == attempts + |socket.sent| + (if failed then 1 else 0)
    && (failed ==> SawFailure(socket))
  }

  /** How an upload begins: the session start, the hello numbered 0 at time 0, and the pacer. */
  method SendHello(clock: Clock, socket: Socket, size: u64, bandwidthBps: u64)
    returns (ok: bool, buf: array<byte>, sessionStart: nat, pacer: Pacer)
    requires clock.Monotone() && socket.sent == [] && size >= UDP_HEADER_LEN
    modifies clock, socket
    ensures fresh(buf) && buf.Length == size
    ensures ok == socket.accepts(old(socket.attempts)) && socket.attempts == old(socket.attempts) + 1
    ensures ok ==>
              && Numbered(socket.sent, size) && |socket.sent| == 1
              && DecodeUdpHeader(socket.sent[0]) == Some((0, 0))
              && clock.ticks == old(clock.ticks) + 2 && sessionStart == clock.reading(old(clock.ticks))
              && pacer == Pacer(bandwidthBps, size, clock.reading(old(clock.ticks) + 1)) && sessionStart <= pacer.startNs
  {
    hide Numbered, Be, DecodeUdpHeader, Clock.Monotone, Clock.GoesOn;
    NothingSent(socket.sent, size);
    buf := new byte[size](_ => 0);
    sessionStart := clock.Now();
    pacer := Pacer(bandwidthBps, size, sessionStart);
    ok := SendNumbered(socket, buf, 0, 0);
    if ok {
      var pacerStart := clock.Now();
      clock.Later(clock.ticks - 2, clock.ticks - 1);
      pacer := Pacer(bandwidthBps, size, pacerStart);
    }
  }

  /** The client's side of a UDP upload: a hello numbered 0, then the paced loop. `None` when
      the hello could not be sent. */
  method RunUdpUp(clock: Clock, socket: Socket, durationNs: nat, datagramSize: u64, bandwidthBps: u64)
    returns (r: Option<Report>, ghost rounds: nat, ghost failed: bool)
    requires clock.Monotone() && clock.GoesOn()
    requires socket.sent == []
    modifies clock, socket
    ensures r.None? <==> !socket.accepts(old(socket.attempts))
    ensures r.Some? ==> ReportsSent(r.value, socket.sent, Max(datagramSize, UDP_HEADER_LEN)) && r.value.packets > 0
    ensures r.Some? && bandwidthBps > 0 && durationNs * bandwidthBps < TWO128 ==>
              |socket.sent| <= Max(1, Allowance(durationNs, bandwidthBps, Max(datagramSize, UDP_HEADER_LEN)))
    ensures r.Some? ==> LoopRan(clock, socket, bandwidthBps, Max(datagramSize, UDP_HEADER_LEN), durationNs, 1,
                                old(clock.ticks), old(socket.attempts), rounds, failed)
    ensures r.Some? ==> |socket.sent| > 0 && DecodeUdpHeader(socket.sent[0]) == Some((0, 0))
    ensures r.Some? ==> r.value.packets == |socket.sent| && r.value.maxSeq == |socket.sent| - 1
    ensures r.Some? ==> r.value.durationNs == Wrap(clock.reading(clock.ticks - 1) - clock.reading(old(clock.ticks)))
  {
    hide Allowance, Clock.Monotone, Clock.GoesOn, Pacer.Due, ByteCount, Numbered, Over, Be, DecodeUdpHeader, SawFailure, Wrap;
    rounds, failed := 0, false;
    var size := Max(datagramSize, UDP_HEADER_LEN);
    var ok, buf, sessionStart, pacer := SendHello(clock, socket, size, bandwidthBps);
    if !ok {
      return None, rounds, failed;
    }
    ByteCountStart(size);
    var seqNo, bytes;
    seqNo, bytes, rounds, failed :=
      SendPaced(clock, socket, buf, pacer, sessionStart, sessionStart + durationNs, 1, size);
    var end := clock.Now();
    var maxSeq := if seqNo > 0 then seqNo - 1 else 0;
    r := Some(Report(bytes, seqNo, maxSeq, 0, 0, 0, 0, 0, 0, Wrap(end - sessionStart)));
  }

  /** The server's side of a UDP download, once a first datagram has told it the peer. */
  method RunUdpDown(clock: Clock, socket: Socket, req: Request)
    returns (r: Report, ghost rounds: nat, ghost failed: bool)
    requires clock.Monotone() && clock.GoesOn()
    requires socket.sent == []
    modifies clock, socket
    ensures ReportsSent(r, socket.sent, Max(req.payloadSize, UDP_HEADER_LEN))
    ensures req.bandwidthBps > 0 ==>
              |socket.sent| <= Allowance(req.durationMs * 1_000_000, req.bandwidthBps, Max(req.payloadSize, UDP_HEADER_LEN))
    ensures LoopRan(clock, socket, req.bandwidthBps, Max(req.payloadSize, UDP_HEADER_LEN), req.durationMs * 1_000_000, 0,
                    old(clock.ticks), old(socket.attempts), rounds, failed)
    ensures r.packets == |socket.sent| && r.maxSeq == if socket.sent == [] then 0 else |socket.sent| - 1
    ensures r.durationNs == Wrap(clock.reading(clock.ticks - 1) - clock.reading(old(clock.ticks)))
  {
    hide Allowance, Clock.Monotone, Clock.GoesOn, Pacer.Due, ByteCount, Numbered, Over, Be, DecodeUdpHeader, SawFailure, Wrap;
    var size := Max(req.payloadSize, UDP_HEADER_LEN);
    NothingSent(socket.sent, size);
    var durationNs := req.durationMs * 1_000_000;
    var sessionStart := clock.Now();
    var buf := new byte[size](_ => 0);
    var pacerStart := clock.Now();
    clock.Later(clock.ticks - 2, clock.ticks - 1);
    var pacer := Pacer(req.bandwidthBps, size, pacerStart);
    assert durationNs * req.bandwidthBps < TWO128 by { ProductFits(req.durationMs, req.bandwidthBps); }
    ByteCountStart(size);
    var seqNo, bytes;
    seqNo, bytes, rounds, failed :=
      SendPaced(clock, socket, buf, pacer, sessionStart, sessionStart + durationNs, 0, 0);
    var end := clock.Now();
    var maxSeq := if seqNo > 0 then seqNo - 1 else 0;
    r := Report(bytes, seqNo, maxSeq, 0, 0, 0, 0, 0, 0, Wrap(end - sessionStart));
  }

  lemma ProductFits(ms: u32, bw: u64)
    ensures ms * 1_000_000 * bw < TWO128
  {
    MulMono(ms * 1_000_000, 0x1_0000_0000 * 1_000_000, bw);
  }
}
