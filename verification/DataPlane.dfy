/** The session together with its UDP data plane: which datagrams a round sends, which its receiver
    hears, and the reports that come of them. */
module DataPlane {
  import opened Wire
  import opened Protocol
  import opened Datagrams
  import opened Trace
  import opened Stats
  import opened Sender
  import opened Receiver
  import opened Session

  /** One round's datagrams: those sent, in order, and what the receiving side's socket returned. */
  datatype Plane = Plane(sent: seq<seq<byte>>, heard: seq<Event>)

  /** The session and a plane for each of its plans. */
  datatype Full = Full(st: State, planes: seq<Plane>)

  datatype Move = Control(a: Action) | Emit(data: seq<byte>) | Hear(e: Event)

  function KindAt(w: World, k: nat): byte { RequestAt(w, k).kind }

  /** Client and server size their buffers from the options and from the request. */
  function ClientSize(w: World): nat { Max(w.options.udpSize, UDP_HEADER_LEN) }

  function ServerSize(w: World, k: nat): nat { Max(RequestAt(w, k).payloadSize, UDP_HEADER_LEN) }

  function SentSize(w: World, k: nat): nat {
    if KindAt(w, k) == KIND_UDP_UP then ClientSize(w) else ServerSize(w, k)
  }

  function Room(w: World, k: nat): nat {
    64 + if KindAt(w, k) == KIND_UDP_UP then ServerSize(w, k) else ClientSize(w)
  }

  /** The arrivals the receiver counts: a client stops at an error, and a server that meets one ends
      the session. */
  function ArrivalsOf(w: World, k: nat, heard: seq<Event>): seq<Arrival> {
    Arrivals(if KindAt(w, k) == KIND_UDP_UP then heard else UntilFailure(heard), Room(w, k))
  }

  ghost predicate ClientSays(w: World, k: nat, p: Plane) {
    && (KindAt(w, k) == KIND_UDP_UP ==> ReportsSent(w.clientReport(k), p.sent, SentSize(w, k)))
    && (KindAt(w, k) == KIND_UDP_DOWN ==> Reports(w.clientReport(k), ArrivalsOf(w, k, p.heard)))
  }

  ghost predicate ServerSays(w: World, k: nat, p: Plane) {
    && (KindAt(w, k) == KIND_UDP_UP ==> Reports(w.serverReport(k), ArrivalsOf(w, k, p.heard)))
    && (KindAt(w, k) == KIND_UDP_DOWN ==> ReportsSent(w.serverReport(k), p.sent, SentSize(w, k)))
  }

  // ----- Steps -----

  /** The round a datagram can be sent in: the client uploads while it has any left, the server
      downloads once it knows its peer. */
  function Emitting(w: World, st: State): Option<nat> {
    if st.c.CData? && st.c.left > 0 && KindAt(w, st.c.i) == KIND_UDP_UP then Some(st.c.i)
    else if st.s.SData? && KindAt(w, st.served) == KIND_UDP_DOWN then Some(st.served)
    else None
  }

  /** The round a datagram can be heard in. */
  function Hearing(w: World, st: State): Option<nat> {
    if st.s.SData? && KindAt(w, st.served) == KIND_UDP_UP then Some(st.served)
    else if st.c.CData? && st.c.left == 0 && KindAt(w, st.c.i) == KIND_UDP_DOWN then Some(st.c.i)
    else None
  }

  /** Session steps go with the plane: an upload sends by `Emit`, a report is what its loop made of
      the round, and no stranger is taken for the peer. */
  ghost predicate Allowed(w: World, f: Full, a: Action) {
    && a != Stray
    && (a == Client && f.st.c.CData? && f.st.c.left > 0 ==> KindAt(w, f.st.c.i) != KIND_UDP_UP)
    && (a == Client && f.st.c.CReply? && f.st.c.i < |f.planes| ==> ClientSays(w, f.st.c.i, f.planes[f.st.c.i]))
    && (a == Server && f.st.s.SReport? && f.st.served < |f.planes| ==> ServerSays(w, f.st.served, f.planes[f.st.served]))
  }

  ghost function Advance(w: World, f: Full, m: Move): Option<Full> {
    match m
    case Control(a) =>
      if Allowed(w, f, a) && Apply(w, f.st, a).Some? then Some(f.(st := Apply(w, f.st, a).value)) else None
    case Emit(data) =>
      (match Emitting(w, f.st)
       case Some(k) =>
         if k < |f.planes| && HasNumber(data, |f.planes[k].sent|, SentSize(w, k)) then
           var planes := f.planes[k := f.planes[k].(sent := f.planes[k].sent + [data])];
           if KindAt(w, k) == KIND_UDP_DOWN then Some(Full(f.st, planes))
           else if ClientStep(w, f.st).Some? then Some(Full(ClientStep(w, f.st).value, planes)) else None
         else None
       case None => None)
    case Hear(e) =>
      (match Hearing(w, f.st)
       case Some(k) =>
         if k < |f.planes| && (e.Datagram? && e.fromPeer ==> e.data in f.planes[k].sent) then
           Some(f.(planes := f.planes[k := f.planes[k].(heard := f.planes[k].heard + [e])]))
         else None
       case None => None)
  }

  ghost function Play(w: World, moves: seq<Move>): Option<Full> {
    if moves == [] then Some(Full(Init(w), seq(|w.plans|, _ => Plane([], []))))
    else
      match Play(w, moves[..|moves| - 1])
      case None => None
      case Some(f) => Advance(w, f, moves[|moves| - 1])
  }

  // ----- The invariant -----

  /** The datagrams an upload has sent by now. */
  function Emitted(w: World, st: State, k: nat): int {
    if k < |st.outcomes| then ToSend(w, k)
    else if st.c.CData? && st.c.i == k then ToSend(w, k) - st.c.left
    else if (st.c.CAwaitReport? || st.c.CReply?) && st.c.i == k then ToSend(w, k)
    else 0
  }

  /** The server has written its report of round `k`. */
  predicate Told(st: State, k: nat) { k < st.served || (k == st.served && st.s.SAwaitReply?) }

  ghost predicate PlaneOk(w: World, st: State, p: Plane, k: nat) {
    && Numbered(p.sent, SentSize(w, k)) && NotForged(p.heard, p.sent)
    && (KindAt(w, k) == KIND_UDP_UP ==> |p.sent| == Emitted(w, st, k))
    && (Told(st, k) ==> ServerSays(w, k, p)) && (k < |st.outcomes| ==> ClientSays(w, k, p))
  }

  ghost predicate PlanesOk(w: World, f: Full) {
    && Inv(w, f.st) && |f.planes| == |w.plans|
    && forall k :: 0 <= k < |w.plans| ==> PlaneOk(w, f.st, f.planes[k], k)
  }

  /** Where the parties can be in their rounds. */
  lemma RoundFacts(w: World, st: State)
    requires Inv(w, st)
    ensures st.c.CAwaitResponse? || st.c.CData? || st.c.CAwaitReport? || st.c.CReply? ==> st.c.i == |st.outcomes| < |w.plans|
    ensures st.c.CData? ==> st.c.left <= ToSend(w, st.c.i)
    ensures st.s.SData? || st.s.SReport? || st.s.SAwaitReply? ==> st.served < |w.plans|
    ensures |st.outcomes| <= |w.plans| && st.served <= |w.plans|
  {
    hide Carries;
  }

  lemma ClientKeepsPlane(w: World, st: State, p: Plane, k: nat)
    requires Inv(w, st) && PlaneOk(w, st, p, k) && ClientStep(w, st).Some?
    requires st.c.CData? && st.c.left > 0 ==> KindAt(w, st.c.i) != KIND_UDP_UP
    requires st.c.CReply? && st.c.i == k ==> ClientSays(w, k, p)
    ensures PlaneOk(w, ClientStep(w, st).value, p, k)
  {
    hide Inv, ServerStep, ClientSays, ServerSays, KindAt, ToSend, Numbered, NotForged;
    RoundFacts(w, st);
  }

  lemma ServerKeepsPlane(w: World, st: State, p: Plane, k: nat)
    requires Inv(w, st) && PlaneOk(w, st, p, k) && ServerStep(w, st).Some?
    requires st.s.SReport? && st.served == k ==> ServerSays(w, k, p)
    ensures PlaneOk(w, ServerStep(w, st).value, p, k)
  {
    hide Inv, ClientStep, ClientSays, ServerSays, KindAt, ToSend, Numbered, NotForged;
    RoundFacts(w, st);
  }

  lemma ControlKeepsPlane(w: World, f: Full, a: Action, k: nat)
    requires PlanesOk(w, f) && k < |w.plans| && Allowed(w, f, a) && Apply(w, f.st, a).Some?
    ensures PlaneOk(w, Apply(w, f.st, a).value, f.planes[k], k)
  {
    hide Inv, ClientStep, ServerStep, ClientSays, ServerSays, KindAt, ToSend, Numbered, NotForged;
    match a
    case Client => ClientKeepsPlane(w, f.st, f.planes[k], k);
    case Server => ServerKeepsPlane(w, f.st, f.planes[k], k);
    case _ =>
  }

  lemma NumberedGrows(sent: seq<seq<byte>>, data: seq<byte>, size: nat)
    requires Numbered(sent, size) && HasNumber(data, |sent|, size)
    ensures Numbered(sent + [data], size)
  {
    hide HasNumber;
  }

  lemma NotForgedGrows(heard: seq<Event>, sent: seq<seq<byte>>, data: seq<byte>)
    requires NotForged(heard, sent)
    ensures NotForged(heard, sent + [data])
  {
  }

  /** A datagram of the client's upload. */
  lemma UploadKeepsPlane(w: World, st: State, p: Plane, k: nat, data: seq<byte>)
    requires Inv(w, st) && PlaneOk(w, st, p, k) && ClientStep(w, st).Some?
    requires st.c.CData? && st.c.left > 0 && st.c.i == k && KindAt(w, k) == KIND_UDP_UP
    requires HasNumber(data, |p.sent|, SentSize(w, k))
    ensures PlaneOk(w, ClientStep(w, st).value, p.(sent := p.sent + [data]), k)
  {
    hide Inv, ServerStep, ToSend, Numbered, NotForged, HasNumber, Reports, ReportsSent, KindAt, SentSize, ArrivalsOf;
    RoundFacts(w, st);
    NumberedGrows(p.sent, data, SentSize(w, k));
    NotForgedGrows(p.heard, p.sent, data);
  }

  /** A datagram of the server's download. */
  lemma DownloadKeepsPlane(w: World, st: State, p: Plane, k: nat, data: seq<byte>)
    requires Inv(w, st) && PlaneOk(w, st, p, k)
    requires st.s.SData? && st.served == k && KindAt(w, k) == KIND_UDP_DOWN
    requires HasNumber(data, |p.sent|, SentSize(w, k))
    ensures PlaneOk(w, st, p.(sent := p.sent + [data]), k)
  {
    hide Inv, Numbered, NotForged, HasNumber, Reports, ReportsSent, KindAt, SentSize, ArrivalsOf;
    NumberedGrows(p.sent, data, SentSize(w, k));
    NotForgedGrows(p.heard, p.sent, data);
  }

  /** A datagram that is received. */
  lemma HearKeepsPlane(w: World, st: State, p: Plane, k: nat, e: Event)
    requires Inv(w, st) && PlaneOk(w, st, p, k) && Hearing(w, st) == Some(k)
    requires e.Datagram? && e.fromPeer ==> e.data in p.sent
    ensures PlaneOk(w, st, p.(heard := p.heard + [e]), k)
  {
    hide Inv, Numbered, Reports, ReportsSent, KindAt, SentSize, ArrivalsOf, ToSend;
    RoundFacts(w, st);
  }

  lemma MoveKeepsPlanes(w: World, f: Full, m: Move)
    requires PlanesOk(w, f) && Advance(w, f, m).Some?
    ensures PlanesOk(w, Advance(w, f, m).value)
  {
    hide Inv, PlaneOk, Allowed, Apply, ClientStep, ToSend, HasNumber, KindAt, SentSize;
    var f' := Advance(w, f, m).value;
    RoundFacts(w, f.st);
    match m
    case Control(a) =>
      StepKeepsInv(w, f.st, a);
      forall k | 0 <= k < |w.plans|
        ensures PlaneOk(w, f'.st, f'.planes[k], k)
      {
        ControlKeepsPlane(w, f, a, k);
      }
    case Emit(data) => EmitKeepsPlanes(w, f, data);
    case Hear(e) => HearKeepsPlane(w, f.st, f.planes[Hearing(w, f.st).value], Hearing(w, f.st).value, e);
  }

  lemma EmitKeepsPlanes(w: World, f: Full, data: seq<byte>)
    requires PlanesOk(w, f) && Advance(w, f, Emit(data)).Some?
    ensures PlanesOk(w, Advance(w, f, Emit(data)).value)
  {
    hide Inv, PlaneOk, ClientStep, ToSend, HasNumber, SentSize;
    var i := Emitting(w, f.st).value;
    if KindAt(w, i) == KIND_UDP_DOWN {
      DownloadKeepsPlane(w, f.st, f.planes[i], i, data);
    } else {
      StepKeepsInv(w, f.st, Client);
      UploadKeepsPlane(w, f.st, f.planes[i], i, data);
      forall k | 0 <= k < |w.plans| && k != i
        ensures PlaneOk(w, ClientStep(w, f.st).value, f.planes[k], k)
      {
        OtherPlaneStays(w, f.st, f.planes[k], k);
      }
    }
  }

  lemma OtherPlaneStays(w: World, st: State, p: Plane, k: nat)
    requires PlaneOk(w, st, p, k) && st.c.CData? && st.c.left > 0 && st.c.i != k && ClientStep(w, st).Some?
    ensures PlaneOk(w, ClientStep(w, st).value, p, k)
  {
    hide ServerStep, ClientSays, ServerSays, KindAt, ToSend, Numbered, NotForged;
  }

  lemma {:induction false} PlayKeepsPlanes(w: World, moves: seq<Move>)
    requires Runnable(w) && Play(w, moves).Some?
    ensures PlanesOk(w, Play(w, moves).value)
  {
    hide Advance, PlaneOk, Inv;
    if moves == [] {
      assert Run(w, []) == Some(Init(w));
      RunKeepsInv(w, []);
      forall k | 0 <= k < |w.plans|
        ensures PlaneOk(w, Init(w), Plane([], []), k)
      {
        NothingYet(w, k);
      }
    } else {
      var before := moves[..|moves| - 1];
      PlayKeepsPlanes(w, before);
      MoveKeepsPlanes(w, Play(w, before).value, moves[|moves| - 1]);
    }
  }

  lemma NothingYet(w: World, k: nat)
    ensures PlaneOk(w, Init(w), Plane([], []), k)
  {
  }

  // ----- Sizes -----

  /** When the datagram size fits the request, both sides use it, at least the 16 bytes of the
      header, and the receiver's buffer, 64 bytes larger, cuts nothing. */
  lemma OneSize(w: World, k: nat)
    requires k < |w.plans| && w.plans[k].kind in {2, 3} && w.options.udpSize < 0x1_0000_0000
    ensures ClientSize(w) == ServerSize(w, k) == SentSize(w, k) == Max(w.options.udpSize, 16)
    ensures Room(w, k) == SentSize(w, k) + 64
  {
  }

  // ----- Completed benchmarks -----

  /** In a completed round the two reports are the sender's of what it sent and the receiver's of
      copies of it. */
  lemma RoundIsMeasured(w: World, moves: seq<Move>, k: nat)
    requires Runnable(w) && Play(w, moves).Some? && Finished(Play(w, moves).value.st) && k < |w.plans|
    ensures var f := Play(w, moves).value;
            && |f.st.outcomes| == |f.planes| == |w.plans| && f.st.outcomes[k] == ExpectedOutcome(w, k)
            && ClientSays(w, k, f.planes[k]) && ServerSays(w, k, f.planes[k])
            && Copies(ArrivalsOf(w, k, f.planes[k].heard), f.planes[k].sent, Min(SentSize(w, k), Room(w, k)))
            && (KindAt(w, k) == KIND_UDP_UP ==> |f.planes[k].sent| == ToSend(w, k))
  {
    hide Play, Inv, Copies, ClientSays, ServerSays, ToSend;
    PlayKeepsPlanes(w, moves);
    var f := Play(w, moves).value;
    FinishedState(w, f.st);
    StoppedIsNotForged(f.planes[k].heard, f.planes[k].sent);
    ArrivalsAreCopies(if KindAt(w, k) == KIND_UDP_UP then f.planes[k].heard else UntilFailure(f.planes[k].heard),
                      f.planes[k].sent, SentSize(w, k), Room(w, k));
  }
}
