/** The receiving side of a UDP test, and what its report says next to the sender's. */
module Receiver {
  import opened Wire
  import opened Sums
  import opened Protocol
  import opened Datagrams
  import opened Trace
  import opened Stats
  import opened Reception
  import opened Sender
  import opened Pacers

  /** What a receive call returns before the deadline: a datagram, from the expected peer or not,
      with the time since the start at which it is processed; or an error. */
  datatype Event = Datagram(fromPeer: bool, data: seq<byte>, atNs: u64) | Failure

  /** What the arrival of `data` in a buffer of `room` bytes adds to the statistics. */
  function Heard(data: seq<byte>, room: nat, atNs: u64): seq<Arrival> {
    var seen := data[..Min(|data|, room)];
    match DecodeUdpHeader(seen)
    case None => []
    case Some((seqNo, sendNs)) => [Arrival(seqNo, sendNs, atNs, |seen|)]
  }

  /** The arrivals behind a list of events; datagrams of strangers and short ones do not count. */
  function Arrivals(events: seq<Event>, room: nat): seq<Arrival> {
    if events == [] then []
    else
      var e := events[|events| - 1];
      Arrivals(events[..|events| - 1], room)
      + if e.Datagram? && e.fromPeer then Heard(e.data, room, e.atNs) else []
  }

  /** The receptions that count: from the peer, with a full header in the buffer. */
  function Accepted(events: seq<Event>, room: nat): seq<Event> {
    if events == [] then []
    else
      var e := events[|events| - 1];
      Accepted(events[..|events| - 1], room)
      + if e.Datagram? && e.fromPeer && Min(|e.data|, room) >= 16 then [e] else []
  }

  /** An arrival is one of them: number and send time from its first 16 bytes, the time it was received
      at, the bytes the buffer had room for. */
  predicate IsArrivalOf(a: Arrival, e: Event, room: nat) {
    && e.Datagram? && e.fromPeer && |e.data| >= 16 && a.recvNs == e.atNs && a.len == Min(|e.data|, room)
    && a.seqNo == FromBe(e.data[..8]) && a.sendNs == FromBe(e.data[8..16])
  }

  lemma HeardExactly(data: seq<byte>, room: nat, atNs: u64)
    ensures Min(|data|, room) < 16 ==> Heard(data, room, atNs) == []
    ensures Min(|data|, room) >= 16 ==>
              |Heard(data, room, atNs)| == 1 && IsArrivalOf(Heard(data, room, atNs)[0], Datagram(true, data, atNs), room)
  {
    if Min(|data|, room) >= 16 {
      SameHeader(data, room);
    }
  }

  /** The arrivals are the receptions that count, in order. */
  lemma {:induction false} ArrivalsAreAccepted(events: seq<Event>, room: nat, i: nat)
    ensures |Arrivals(events, room)| == |Accepted(events, room)|
    ensures i < |Arrivals(events, room)| ==> IsArrivalOf(Arrivals(events, room)[i], Accepted(events, room)[i], room)
  {
    hide Heard, IsArrivalOf;
    if events != [] {
      var e := events[|events| - 1];
      ArrivalsAreAccepted(events[..|events| - 1], room, i);
      if e.Datagram? && e.fromPeer {
        HeardExactly(e.data, room, e.atNs);
        assert e == Datagram(true, e.data, e.atNs);
      }
    }
  }

  method ProcessPacket(stats: UdpStats, data: seq<byte>, room: nat, atNs: u64)
    requires stats.Valid()
    modifies stats
    ensures stats.Valid() && stats.trace == old(stats.trace) + Heard(data, room, atNs)
  {
    hide UdpStats.Valid, DecodeUdpHeader;
    var seen := if |data| <= room then data else data[..room];
    assert seen == data[..Min(|data|, room)];
    var header := DecodeUdpHeader(seen);
    if header.Some? {
      stats.Record(Arrival(header.value.0, header.value.1, atNs, |seen|));
    }
  }

  lemma ArrivalsStep(events: seq<Event>, i: nat, room: nat)
    requires i < |events|
    ensures Arrivals(events[..i + 1], room) ==
            Arrivals(events[..i], room)
            + if events[i].Datagram? && events[i].fromPeer then Heard(events[i].data, room, events[i].atNs) else []
  {
    assert events[..i + 1][..i] == events[..i];
  }

  lemma NoArrivals(events: seq<Event>, room: nat)
    requires events == []
    ensures Arrivals(events, room) == []
  {
  }

  /** The server receiving an upload: the first datagram fixes the peer, an error ends the
      session, datagrams from elsewhere are ignored. */
  method RunUdpUpServer(req: Request, first: Event, events: seq<Event>, durationNs: u64) returns (r: Option<Report>)
    requires first.Datagram? ==> first.fromPeer
    ensures r.None? <==> Failure in [first] + events
    ensures r.Some? ==> Reports(r.value, Arrivals([first] + events, Max(req.payloadSize, UDP_HEADER_LEN) + 64))
    ensures r.Some? ==> r.value.durationNs == durationNs
  {
    hide UdpStats.Valid, Arrivals, Heard, Reports, ReportOf;
    var room := Max(req.payloadSize, UDP_HEADER_LEN) + 64;
    ghost var all := [first] + events;
    var stats := new UdpStats();
    if first.Failure? {
      return None;
    }
    ProcessPacket(stats, first.data, room, first.atNs);
    NoArrivals(all[..0], room);
    ArrivalsStep(all, 0, room);
    for i := 0 to |events|
      invariant stats.Valid() && stats.trace == Arrivals(all[..i + 1], room) && Failure !in all[..i + 1]
    {
      var e := events[i];
      assert all[i + 1] == e && all[..i + 2] == all[..i + 1] + [e];
      if e.Failure? {
        return None;
      }
      ArrivalsStep(all, i + 1, room);
      if e.fromPeer {
        ProcessPacket(stats, e.data, room, e.atNs);
      }
    }
    assert all[..|all|] == all;
    var report := stats.IntoReport(durationNs);
    r := Some(report);
  }

  /** The events before the first error. */
  function UntilFailure(events: seq<Event>): seq<Event> {
    if events == [] || events[0].Failure? then [] else [events[0]] + UntilFailure(events[1..])
  }

  lemma {:induction false} UntilFailureStops(events: seq<Event>, i: nat)
    requires i <= |events| && Failure !in events[..i] && (i == |events| || events[i].Failure?)
    ensures UntilFailure(events) == events[..i]
  {
    if i > 0 {
      assert events[0] in events[..i];
      assert events[1..][..i - 1] == events[..i][1..];
      UntilFailureStops(events[1..], i - 1);
    } else {
      assert events[..0] == [];
    }
  }

  /** The client receiving a download on its connected socket: an error ends the reception. */
  method RunUdpDownClient(datagramSize: nat, events: seq<Event>, durationNs: u64) returns (r: Report)
    requires forall e :: e in events && e.Datagram? ==> e.fromPeer
    ensures Reports(r, Arrivals(UntilFailure(events), Max(datagramSize, UDP_HEADER_LEN) + 64)) && r.durationNs == durationNs
  {
    hide UdpStats.Valid, Arrivals, Heard, Reports, ReportOf;
    var room := Max(datagramSize, UDP_HEADER_LEN) + 64;
    var stats := new UdpStats();
    NoArrivals(events[..0], room);
    var i := 0;
    while i < |events| && events[i].Datagram?
      invariant 0 <= i <= |events| && Failure !in events[..i]
      invariant stats.Valid() && stats.trace == Arrivals(events[..i], room)
    {
      ArrivalsStep(events, i, room);
      assert events[i] in events;
      assert events[..i + 1] == events[..i] + [events[i]];
      ProcessPacket(stats, events[i].data, room, events[i].atNs);
      i := i + 1;
    }
    UntilFailureStops(events, i);
    r := stats.IntoReport(durationNs);
  }

  // ----- Sender and receiver side by side -----

  /** The network delivers only datagrams that were sent, in any order, any number of times. */
  ghost predicate NotForged(events: seq<Event>, sent: seq<seq<byte>>) {
    forall e :: e in events && e.Datagram? && e.fromPeer ==> e.data in sent
  }

  /** The arrivals are copies of datagrams sent: number and send time are theirs, and `len` bytes of
      each were received. */
  ghost predicate Copies(tr: seq<Arrival>, sent: seq<seq<byte>>, len: nat) {
    forall a :: a in tr ==>
                  && a.seqNo < |sent| && a.len == len
                  && DecodeUdpHeader(sent[a.seqNo]) == Some((a.seqNo, a.sendNs))
  }

  lemma {:induction false} ArrivalsAreCopies(events: seq<Event>, sent: seq<seq<byte>>, size: nat, room: nat)
    requires Numbered(sent, size) && NotForged(events, sent) && room >= UDP_HEADER_LEN
    ensures Copies(Arrivals(events, room), sent, Min(size, room))
  {
    if events != [] {
      var before, e := events[..|events| - 1], events[|events| - 1];
      assert events == before + [e] && e in events;
      ArrivalsAreCopies(before, sent, size, room);
      if e.Datagram? && e.fromPeer {
        var k :| 0 <= k < |sent| && sent[k] == e.data;
        assert HasNumber(sent[k], k, size);
        SameHeader(e.data, room);
      }
    }
  }

  /** A buffer with room for the header loses nothing of it. */
  lemma SameHeader(data: seq<byte>, room: nat)
    requires |data| >= UDP_HEADER_LEN && room >= UDP_HEADER_LEN
    ensures DecodeUdpHeader(data[..Min(|data|, room)]) == DecodeUdpHeader(data)
  {
    var seen := data[..Min(|data|, room)];
    assert seen[..8] == data[..8] && seen[8..16] == data[8..16];
  }

  /** The sequence numbers that were sent and never arrived. */
  function Missing(sentCount: nat, tr: seq<Arrival>): set<nat> {
    Below(sentCount) - Seqs(tr)
  }

  lemma MissingExactly(sentCount: nat, tr: seq<Arrival>, k: nat)
    ensures k in Missing(sentCount, tr) <==> k < sentCount && forall a :: a in tr ==> a.seqNo != k
  {
  }

  /** The loss percentage printed for a test. */
  function LossPercent(sender: Report, receiver: Report): real {
    if sender.packets > 0 then
      Max(0, sender.packets - receiver.packets) as real / sender.packets as real * 100.0
    else 0.0
  }

  /** The percentage of the numbers sent that never arrived. */
  function LossShare(sentCount: nat, tr: seq<Arrival>): real {
    if sentCount == 0 then 0.0 else |Missing(sentCount, tr)| as real / sentCount as real * 100.0
  }

  lemma ReceivedAreSent(tr: seq<Arrival>, sent: seq<seq<byte>>, len: nat)
    requires Copies(tr, sent, len)
    ensures Seqs(tr) <= Below(|sent|) && |Seqs(tr)| <= |sent|
    ensures |sent| - |Seqs(tr)| == |Missing(|sent|, tr)|
  {
    SubsetCount(Seqs(tr), Below(|sent|));
  }

  /** Conservation between the two reports over a network that drops, duplicates and reorders
      but never forges: the receiver counts no more than was sent, what it lacks is exactly the
      numbers that never arrived, so the subtraction in the loss figure never saturates and the
      figure is their share. */
  lemma Conservation(sender: Report, sent: seq<seq<byte>>, size: nat, receiver: Report, tr: seq<Arrival>, len: nat)
    requires ReportsSent(sender, sent, size) && Copies(tr, sent, len) && Reports(receiver, tr)
    ensures receiver.packets == |Seqs(tr)| <= sender.packets && receiver.maxSeq <= sender.maxSeq
    ensures sender.packets - receiver.packets == |Missing(|sent|, tr)|
    ensures LossPercent(sender, receiver) == LossShare(|sent|, tr)
    ensures |sent| == 0 ==> LossPercent(sender, receiver) == 0.0
    ensures |sent| > 0 ==> LossPercent(sender, receiver) == |Missing(|sent|, tr)| as real / |sent| as real * 100.0
  {
    hide Numbered, ByteCount, TimesMatch, SumBy, First, Records, Copies, Missing, Wrap;
    ReceivedAreSent(tr, sent, len);
    WrapSmall(|Seqs(tr)|);
  }

  lemma {:induction false} UniformLengths(f: seq<Arrival>, size: nat)
    requires forall a :: a in f ==> a.len == size
    ensures SumBy(Length, f) == |f| * size
  {
    if f != [] {
      var before, a := f[..|f| - 1], f[|f| - 1];
      assert f == before + [a] && a in f && forall b :: b in before ==> b in f;
      UniformLengths(before, size);
      Distribute(|before|, size);
    }
  }

  /** The received bytes are those of the datagrams counted, unless the counter wraps. */
  lemma BytesConserved(sender: Report, sent: seq<seq<byte>>, size: nat, receiver: Report, tr: seq<Arrival>)
    requires ReportsSent(sender, sent, size) && Copies(tr, sent, size) && Reports(receiver, tr)
    requires |sent| * size < TWO64
    ensures receiver.bytes == receiver.packets * size && sender.bytes == sender.packets * size
    ensures receiver.bytes <= sender.bytes
  {
    hide Numbered, TimesMatch, SumBy, Records, First, Wrap, OrderMatches, LossPercent, Missing, ByteCount;
    ByteCountIsProduct(|sent|, size);
    Conservation(sender, sent, size, receiver, tr, size);
    FirstIsOnePerSeq(tr);
    UniformLengths(First(tr), size);
    MulMono(receiver.packets, sender.packets, size);
    WrapSmall(receiver.packets * size);
    WrapSmall(sender.packets * size);
  }

  /** A UDP test from end to end: what one side sends, a network that never forges, and the
      other side's reception in a buffer of `room` bytes. */
  lemma EndToEnd(sender: Report, sent: seq<seq<byte>>, size: nat, receiver: Report, events: seq<Event>, room: nat)
    requires ReportsSent(sender, sent, size) && NotForged(events, sent) && room >= UDP_HEADER_LEN
    requires Reports(receiver, Arrivals(events, room))
    ensures receiver.packets <= sender.packets && receiver.maxSeq <= sender.maxSeq
    ensures sender.packets - receiver.packets == |Missing(|sent|, Arrivals(events, room))|
    ensures LossPercent(sender, receiver) == LossShare(|sent|, Arrivals(events, room))
  {
    hide Reports, Missing, LossPercent, LossShare;
    ArrivalsAreCopies(events, sent, size, room);
    Conservation(sender, sent, size, receiver, Arrivals(events, room), Min(size, room));
  }

  /** A reception that stops at an error is no more forged than the whole. */
  lemma {:induction false} StoppedIsNotForged(events: seq<Event>, sent: seq<seq<byte>>)
    requires NotForged(events, sent)
    ensures NotForged(UntilFailure(events), sent)
  {
    if events != [] && events[0].Datagram? {
      assert events == [events[0]] + events[1..];
      assert NotForged(events[1..], sent) by {
        forall e | e in events[1..] && e.Datagram? && e.fromPeer
          ensures e.data in sent
        {
          assert e in events;
        }
      }
      StoppedIsNotForged(events[1..], sent);
    }
  }
}
