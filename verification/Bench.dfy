/** A whole benchmark: the session over the real message formats, with what the data phases put
    into its reports. */
module Bench {
  import opened Wire
  import opened Protocol
  import opened Plans
  import opened Session
  import opened Trace
  import opened Stats
  import opened Receiver
  import opened DataPlane
  import opened Socks

  /** A session over the benchmark's own formats, running the plans its options ask for. */
  ghost predicate IsBenchmark(w: World) {
    w.codec == BenchCodec() && forall p :: p in w.plans ==> Wanted(w.options, p)
  }

  lemma BenchmarkIsRunnable(w: World)
    requires IsBenchmark(w)
    ensures Runnable(w)
  {
    BenchCodecIsFaithful();
  }

  /** The client sends in an upload and the server in a download. */
  function SenderOf(o: Outcome): Report { if o.plan.kind == KIND_UDP_UP then o.client else o.server }

  function ReceiverOf(o: Outcome): Report { if o.plan.kind == KIND_UDP_UP then o.server else o.client }

  /** In a completed benchmark the loss printed for a UDP test is exact: the two reports that the
      session paired with its plan count the datagrams its sender sent and those of its numbers
      that arrived, and the figure is the share that did not. */
  lemma PrintedLossIsExact(w: World, moves: seq<Move>, k: nat)
    requires IsBenchmark(w) && Play(w, moves).Some? && Finished(Play(w, moves).value.st)
    requires k < |w.plans| && IsUdp(w.plans[k].kind)
    ensures var f := Play(w, moves).value;
            && k < |f.st.outcomes| && k < |f.planes| && f.st.outcomes[k].plan == w.plans[k]
            && var sender, receiver := SenderOf(f.st.outcomes[k]), ReceiverOf(f.st.outcomes[k]);
               var sent, tr := f.planes[k].sent, ArrivalsOf(w, k, f.planes[k].heard);
               && receiver.packets == |Seqs(tr)| <= sender.packets == |sent| && receiver.maxSeq <= sender.maxSeq
               && LossPercent(sender, receiver) == LossShare(|sent|, tr)
               && (w.plans[k].kind == KIND_UDP_UP ==> sender.packets == ToSend(w, k))
  {
    hide Play, Copies, Reports, LossPercent, LossShare, ToSend, ArrivalsOf, SentSize, Room;
    BenchmarkIsRunnable(w);
    RoundIsMeasured(w, moves, k);
    var o, p := ExpectedOutcome(w, k), Play(w, moves).value.planes[k];
    Conservation(SenderOf(o), p.sent, SentSize(w, k), ReceiverOf(o), ArrivalsOf(w, k, p.heard),
                 Min(SentSize(w, k), Room(w, k)));
  }

  // ----- Through a relay -----

  /** The same receptions as they come from a relay, which puts a header in front of each datagram. */
  function Framed(events: seq<Event>, a: SocksAddr): seq<Event>
    requires Encodable(a)
  {
    if events == [] then []
    else
      var e := events[|events| - 1];
      Framed(events[..|events| - 1], a) + [if e.Datagram? then e.(data := Header(a) + e.data) else e]
  }

  /** What the socket wrapper makes of them for a caller with a buffer of `room` bytes. */
  function Stripped(events: seq<Event>, room: nat): seq<Event> {
    if events == [] then []
    else
      var e := events[|events| - 1];
      var view := if e.Datagram? then RelayView(e.data, room) else Err(HeaderTooShort);
      Stripped(events[..|events| - 1], room) + [if view.Ok? then e.(data := view.value) else Failure]
  }

  /** From every IP source and every domain of up to 249 bytes a relayed test counts the same
      arrivals as a direct one. */
  lemma {:induction false} RelayedArrivals(events: seq<Event>, a: SocksAddr, room: nat)
    requires Encodable(a) && (!a.host.Domain? || a.host.len <= 249)
    ensures Arrivals(Stripped(Framed(events, a), room), room) == Arrivals(events, room)
  {
    hide RelayView, Header, Heard;
    if events != [] {
      var before, e := events[..|events| - 1], events[|events| - 1];
      RelayedArrivals(before, a, room);
      var framed := Framed(events, a);
      assert framed[..|framed| - 1] == Framed(before, a);
      var stripped := Stripped(framed, room);
      assert stripped[..|stripped| - 1] == Stripped(Framed(before, a), room);
      if e.Datagram? {
        CommonSourcesAreTransparent(a, e.data, room);
        HeardThroughView(e.data, room, e.atNs);
      }
    }
  }

  lemma HeardThroughView(data: seq<byte>, room: nat, atNs: u64)
    ensures Heard(DirectView(data, room), room, atNs) == Heard(data, room, atNs)
  {
    var view := DirectView(data, room);
    assert view[..Min(|view|, room)] == data[..Min(|data|, room)];
  }
}
