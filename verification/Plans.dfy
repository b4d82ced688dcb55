/** Which tests a benchmark runs, and the request that announces each of them. */
module Plans {
  import opened Wire
  import opened Protocol

  datatype Mode = Tcp | Udp | BothModes

  datatype Direction = Up | Down | BothDirections

  datatype Plan = Plan(kind: byte, bandwidthBps: u64)

  datatype Options = Options(mode: Mode, direction: Direction, durationMs: nat,
                             udpBandwidth: seq<u64>, udpSize: nat, tcpChunk: nat)
  {
    predicate WantTcp() { mode != Udp }
    predicate WantUdp() { mode != Tcp }
    predicate WantUp() { direction != Down }
    predicate WantDown() { direction != Up }
  }

  predicate IsTest(kind: byte) { kind in {KIND_TCP_UP, KIND_TCP_DOWN, KIND_UDP_UP, KIND_UDP_DOWN} }

  predicate IsUdp(kind: byte) { kind in {KIND_UDP_UP, KIND_UDP_DOWN} }

  /** The request for a plan: lengths are cut to the 32 bits of their fields. */
  function RequestOf(o: Options, p: Plan): Request {
    var size := if IsUdp(p.kind) then o.udpSize else o.tcpChunk;
    Request(p.kind, o.durationMs % 0x1_0000_0000, size % 0x1_0000_0000, p.bandwidthBps, 0)
  }

  /** What a request announces: the plan's kind and bandwidth, the duration, the size of a datagram
      or of a chunk, each cut to 32 bits, and no packet count. */
  predicate Announces(o: Options, p: Plan, r: Request) {
    && r.kind == p.kind && r.bandwidthBps == p.bandwidthBps && r.expectedPackets == 0
    && r.durationMs == o.durationMs % 0x1_0000_0000
    && (p.kind in {2, 3} ==> r.payloadSize == o.udpSize % 0x1_0000_0000)
    && (p.kind in {0, 1} ==> r.payloadSize == o.tcpChunk % 0x1_0000_0000)
  }

  /** A plan the options ask for. */
  predicate Wanted(o: Options, p: Plan) {
    && IsTest(p.kind)
    && (if IsUdp(p.kind) then o.WantUdp() && p.bandwidthBps in o.udpBandwidth else o.WantTcp() && p.bandwidthBps == 0)
    && (if p.kind in {KIND_TCP_UP, KIND_UDP_UP} then o.WantUp() else o.WantDown())
  }

  /** The plans asked for, kind by kind. */
  lemma WantedKinds(o: Options, p: Plan)
    ensures Wanted(o, p) <==>
            || (p == Plan(0, 0) && o.mode in {Tcp, BothModes} && o.direction in {Up, BothDirections})
            || (p == Plan(1, 0) && o.mode in {Tcp, BothModes} && o.direction in {Down, BothDirections})
            || (p.kind == 2 && p.bandwidthBps in o.udpBandwidth && o.mode in {Udp, BothModes} && o.direction in {Up, BothDirections})
            || (p.kind == 3 && p.bandwidthBps in o.udpBandwidth && o.mode in {Udp, BothModes} && o.direction in {Down, BothDirections})
  {
  }

  function Directions(o: Options): nat { (if o.WantUp() then 1 else 0) + (if o.WantDown() then 1 else 0) }

  /** How many plans come before the UDP ones. */
  function TcpCount(o: Options): nat { if o.WantTcp() then Directions(o) else 0 }

  /** The plans for the `i`-th bandwidth stand side by side, upload first. */
  ghost predicate PairAt(o: Options, plans: seq<Plan>, i: nat)
    requires i < |o.udpBandwidth|
  {
    var at := TcpCount(o) + Directions(o) * i;
    && at + Directions(o) <= |plans|
    && (o.WantUp() ==> plans[at] == Plan(KIND_UDP_UP, o.udpBandwidth[i]))
    && (o.WantDown() ==> plans[at + Directions(o) - 1] == Plan(KIND_UDP_DOWN, o.udpBandwidth[i]))
  }

  /** The plans one bandwidth adds. */
  function Group(o: Options, bw: u64): seq<Plan> {
    (if o.WantUp() then [Plan(KIND_UDP_UP, bw)] else []) + (if o.WantDown() then [Plan(KIND_UDP_DOWN, bw)] else [])
  }

  lemma GroupAdds(o: Options, plans: seq<Plan>, i: nat)
    requires o.WantUdp() && i < |o.udpBandwidth|
    requires forall p :: p in plans <==> Wanted(o.(udpBandwidth := o.udpBandwidth[..i]), p)
    ensures forall p :: p in plans + Group(o, o.udpBandwidth[i]) <==>
                        Wanted(o.(udpBandwidth := o.udpBandwidth[..i + 1]), p)
  {
    assert o.udpBandwidth[..i + 1] == o.udpBandwidth[..i] + [o.udpBandwidth[i]];
  }

  lemma PairsExtend(o: Options, plans: seq<Plan>, i: nat)
    requires i < |o.udpBandwidth| && |plans| == TcpCount(o) + Directions(o) * i
    requires forall k :: 0 <= k < i ==> PairAt(o, plans, k)
    ensures forall k :: 0 <= k < i + 1 ==> PairAt(o, plans + Group(o, o.udpBandwidth[i]), k)
  {
    var more := plans + Group(o, o.udpBandwidth[i]);
    forall k | 0 <= k < i + 1
      ensures PairAt(o, more, k)
    {
      if k < i {
        assert PairAt(o, plans, k) && plans <= more;
      }
    }
  }

  /** All modes and directions over two bandwidths. */
  method AllPlans(duration: nat, size: nat, chunk: nat, a: u64, b: u64) returns (plans: seq<Plan>)
    ensures plans == [Plan(0, 0), Plan(1, 0), Plan(2, a), Plan(3, a), Plan(2, b), Plan(3, b)]
  {
    var o := Options(BothModes, BothDirections, duration, [a, b], size, chunk);
    plans := BuildPlans(o);
    assert PairAt(o, plans, 0) && PairAt(o, plans, 1);
    assert Wanted(o, plans[0]) && Wanted(o, plans[1]);
  }

  /** Exactly the tests asked for, TCP first, then one group per bandwidth in the order listed. */
  method BuildPlans(o: Options) returns (plans: seq<Plan>)
    ensures forall p :: p in plans <==> Wanted(o, p)
    ensures |plans| == Directions(o) * ((if o.WantTcp() then 1 else 0) + (if o.WantUdp() then |o.udpBandwidth| else 0))
    ensures o.WantTcp() && o.WantUp() ==> plans[0].kind == KIND_TCP_UP
    ensures o.WantTcp() && o.WantDown() ==> plans[Directions(o) - 1].kind == KIND_TCP_DOWN
    ensures o.WantUdp() ==> forall i :: 0 <= i < |o.udpBandwidth| ==> PairAt(o, plans, i)
    ensures plans == [] <==> !o.WantTcp() && o.udpBandwidth == []
  {
    plans := [];
    if o.WantTcp() {
      if o.WantUp() {
        plans := plans + [Plan(KIND_TCP_UP, 0)];
      }
      if o.WantDown() {
        plans := plans + [Plan(KIND_TCP_DOWN, 0)];
      }
    }
    ghost var first := plans;
    if o.WantUdp() {
      for i := 0 to |o.udpBandwidth|
        invariant first <= plans && |plans| == TcpCount(o) + Directions(o) * i
        invariant forall k :: 0 <= k < i ==> PairAt(o, plans, k)
        invariant forall p :: p in plans <==> Wanted(o.(udpBandwidth := o.udpBandwidth[..i]), p)
      {
        var bw := o.udpBandwidth[i];
        ghost var before := plans;
        GroupAdds(o, plans, i);
        PairsExtend(o, plans, i);
        if o.WantUp() {
          plans := plans + [Plan(KIND_UDP_UP, bw)];
        }
        if o.WantDown() {
          plans := plans + [Plan(KIND_UDP_DOWN, bw)];
        }
        assert plans == before + Group(o, bw);
      }
      assert o.udpBandwidth[..|o.udpBandwidth|] == o.udpBandwidth;
    }
  }
}
