/** The control session between a benchmark client and its server, as two programs that
    step in any order over two byte streams which deliver in pieces of any size. */
module Session {
  import opened Wire
  import opened Protocol
  import opened Plans

  // ----- State -----

  /** One direction of the control connection: the messages written, the messages read, and
      the bytes in between, split into those the reader already has and those on their way. */
  datatype Channel = Channel(sent: seq<Msg>, got: seq<Msg>, arrived: seq<byte>, flying: seq<byte>) {
    function Write(codec: Codec, m: Msg): Channel {
      Channel(sent + [m], got, arrived, flying + codec.encode(m))
    }

    function Read(m: Msg, rest: seq<byte>): Channel {
      Channel(sent, got + [m], rest, flying)
    }

    function Deliver(n: nat): Channel
      requires n <= |flying|
    {
      Channel(sent, got, arrived + flying[..n], flying[n..])
    }
  }

  /** Where the client stands. `CData` counts the datagrams (or the one connection) it will
      still send to the server's data port, the hello included. */
  datatype ClientPc =
    | CHello | CAwaitHello
    | CRequest(i: nat) | CAwaitResponse(i: nat) | CData(i: nat, port: u16, left: nat)
    | CAwaitReport(i: nat) | CReply(i: nat, theirs: Report)
    | CClose | CDone
    | CBadHandshake | CRejected | CUnreachable

  datatype ServerPc =
    | SAwaitHello | SHello
    | SAwaitRequest | SRespond(req: Request) | SAwaitData(req: Request) | SData(req: Request)
    | SReport(req: Request) | SAwaitReply
    | SDone | SBadHandshake | SUnknownKind

  datatype Outcome = Outcome(plan: Plan, client: Report, server: Report)

  /** `served` counts the tests the server has completed, `received` are the client reports it
      read, `data` is what is on its way to the data port of the current test, `copies` how often
      the network will yet repeat a datagram. */
  datatype State = State(c: ClientPc, s: ServerPc, up: Channel, down: Channel,
                         served: nat, received: seq<Report>, outcomes: seq<Outcome>, data: nat, copies: nat)

  /** Everything the environment decides: ports, the reports that come out of each data phase,
      the datagrams a UDP upload sends after its hello, and the wording of a refusal. */
  datatype World = World(codec: Codec, options: Options, plans: seq<Plan>, port: nat -> u16, burst: nat -> nat,
                         copies: nat, clientReport: nat -> Report, serverReport: nat -> Report,
                         refusal: byte -> seq<byte>)

  ghost predicate Runnable(w: World) {
    Faithful(w.codec) && forall p :: p in w.plans ==> IsTest(p.kind)
  }

  function Init(w: World): State {
    State(CHello, SAwaitHello, Channel([], [], [], []), Channel([], [], [], []), 0, [], [], 0, w.copies)
  }

  /** The request of round `i`; the one past the last plan closes the session. */
  function RequestAt(w: World, i: nat): Request {
    if i < |w.plans| then RequestOf(w.options, w.plans[i]) else Request.Close()
  }

  function NextRound(w: World, i: nat): ClientPc {
    if i < |w.plans| then CRequest(i) else CClose
  }

  function ToSend(w: World, i: nat): nat {
    if RequestAt(w, i).kind == KIND_UDP_UP then 1 + w.burst(i) else 1
  }

  // ----- Steps -----

  /** Besides the parties' own steps: bytes of the control connection arrive, the network loses or
      repeats a datagram that is on its way, or a stranger's datagram reaches the data port while
      the server waits for its first. */
  datatype Action = Client | Server | DeliverUp(n: nat) | DeliverDown(n: nat) | Lose | Copy | Stray

  function ClientStep(w: World, st: State): Option<State> {
    match st.c
    case CHello => Some(st.(up := st.up.Write(w.codec, Hello), c := CAwaitHello))
    case CAwaitHello =>
      (match w.codec.decode(AHello, st.down.arrived)
       case NeedMore => None
       case Bad => Some(st.(c := CBadHandshake))
       case Got(m, rest) => Some(st.(down := st.down.Read(m, rest), c := NextRound(w, 0))))
    case CRequest(i) =>
      Some(st.(up := st.up.Write(w.codec, Req(RequestAt(w, i))), c := CAwaitResponse(i)))
    case CAwaitResponse(i) =>
      (match w.codec.decode(AResponse, st.down.arrived)
       case Got(m, rest) =>
         var st' := st.(down := st.down.Read(m, rest));
         if !m.Resp? || m.resp.status != STATUS_OK then Some(st'.(c := CRejected))
         else if !IsTest(RequestAt(w, i).kind) then Some(st'.(c := CUnreachable))
         else Some(st'.(c := CData(i, m.resp.dataPort, ToSend(w, i))))
       case _ => None)
    case CData(i, port, left) =>
      if left > 0 then Some(st.(data := st.data + 1, c := CData(i, port, left - 1)))
      else Some(st.(c := CAwaitReport(i)))
    case CAwaitReport(i) =>
      (match w.codec.decode(AReport, st.down.arrived)
       case Got(m, rest) =>
         if m.Rep? then Some(st.(down := st.down.Read(m, rest), c := CReply(i, m.rep))) else None
       case _ => None)
    case CReply(i, theirs) =>
      if i < |w.plans| then
        Some(st.(up := st.up.Write(w.codec, Rep(w.clientReport(i))),
                 outcomes := st.outcomes + [Outcome(w.plans[i], w.clientReport(i), theirs)],
                 c := NextRound(w, i + 1)))
      else None
    case CClose => Some(st.(up := st.up.Write(w.codec, Req(Request.Close())), c := CDone))
    case _ => None
  }

  function ServerStep(w: World, st: State): Option<State> {
    match st.s
    case SAwaitHello =>
      (match w.codec.decode(AHello, st.up.arrived)
       case NeedMore => None
       case Bad => Some(st.(s := SBadHandshake))
       case Got(m, rest) => Some(st.(up := st.up.Read(m, rest), s := SHello)))
    case SHello => Some(st.(down := st.down.Write(w.codec, Hello), s := SAwaitRequest))
    case SAwaitRequest =>
      (match w.codec.decode(ARequest, st.up.arrived)
       case Got(m, rest) =>
         var st' := st.(up := st.up.Read(m, rest));
         if !m.Req? then None
         else if m.req.kind == KIND_CLOSE then Some(st'.(s := SDone))
         else if IsTest(m.req.kind) then Some(st'.(s := SRespond(m.req)))
         else Some(st'.(down := st.down.Write(w.codec, Resp(Response.Reject(w.refusal(m.req.kind)))), s := SUnknownKind))
       case _ => None)
    case SRespond(req) =>
      Some(st.(down := st.down.Write(w.codec, Resp(Response.Accept(w.port(st.served)))), s := SAwaitData(req)))
    case SAwaitData(req) =>
      if st.data > 0 then Some(st.(data := st.data - 1, s := SData(req))) else None
    case SData(req) => Some(st.(s := SReport(req)))
    case SReport(req) =>
      Some(st.(down := st.down.Write(w.codec, Rep(w.serverReport(st.served))), s := SAwaitReply))
    case SAwaitReply =>
      (match w.codec.decode(AReport, st.up.arrived)
       case Got(m, rest) =>
         if m.Rep? then
           Some(st.(up := st.up.Read(m, rest), s := SAwaitRequest, served := st.served + 1,
                    received := st.received + [m.rep], data := 0))
         else None
       case _ => None)
    case _ => None
  }

  /** One step of a party or of the network; `None` when that step is not possible now. */
  function Apply(w: World, st: State, a: Action): Option<State> {
    match a
    case Client => ClientStep(w, st)
    case Server => ServerStep(w, st)
    case DeliverUp(n) => if 0 < n <= |st.up.flying| then Some(st.(up := st.up.Deliver(n))) else None
    case DeliverDown(n) => if 0 < n <= |st.down.flying| then Some(st.(down := st.down.Deliver(n))) else None
    case Lose =>
      if st.data > 0 && IsUdp(RequestAt(w, st.served).kind) then Some(st.(data := st.data - 1)) else None
    case Copy =>
      if st.data > 0 && st.copies > 0 && IsUdp(RequestAt(w, st.served).kind) then
        Some(st.(data := st.data + 1, copies := st.copies - 1))
      else None
    case Stray =>
      if st.s.SAwaitData? && IsUdp(st.s.req.kind) then Some(st.(s := SData(st.s.req))) else None
  }

  function Run(w: World, actions: seq<Action>): Option<State> {
    if actions == [] then Some(Init(w))
    else
      match Run(w, actions[..|actions| - 1])
      case None => None
      case Some(st) => Apply(w, st, actions[|actions| - 1])
  }

  // ----- What each channel carries -----

  /** The `k`-th message of the client's half of the conversation. */
  function UpMsg(w: World, k: nat): Msg {
    if k == 0 then Hello
    else if k % 2 == 1 then Req(RequestAt(w, k / 2))
    else Rep(w.clientReport(k / 2 - 1))
  }

  function DownMsg(w: World, k: nat): Msg {
    if k == 0 then Hello
    else if k % 2 == 1 then Resp(Response.Accept(w.port(k / 2)))
    else Rep(w.serverReport(k / 2 - 1))
  }

  function UpScript(w: World): nat -> Msg { (k: nat) => UpMsg(w, k) }

  function DownScript(w: World): nat -> Msg { (k: nat) => DownMsg(w, k) }

  /** How many messages a client at `c` has written and read, with `n` plans in all. */
  function ClientWrote(c: ClientPc, n: nat): nat {
    match c
    case CHello => 0
    case CAwaitHello => 1
    case CRequest(i) => 1 + 2 * i
    case CAwaitResponse(i) => 2 + 2 * i
    case CData(i, _, _) => 2 + 2 * i
    case CAwaitReport(i) => 2 + 2 * i
    case CReply(i, _) => 2 + 2 * i
    case CClose => 1 + 2 * n
    case _ => 2 + 2 * n
  }

  function ClientRead(c: ClientPc, n: nat): nat {
    match c
    case CHello => 0
    case CAwaitHello => 0
    case CRequest(i) => 1 + 2 * i
    case CAwaitResponse(i) => 1 + 2 * i
    case CData(i, _, _) => 2 + 2 * i
    case CAwaitReport(i) => 2 + 2 * i
    case CReply(i, _) => 3 + 2 * i
    case _ => 1 + 2 * n
  }

  function ServerWrote(s: ServerPc, served: nat): nat {
    match s
    case SAwaitHello => 0
    case SHello => 0
    case SAwaitData(_) => 2 + 2 * served
    case SData(_) => 2 + 2 * served
    case SReport(_) => 2 + 2 * served
    case SAwaitReply => 3 + 2 * served
    case _ => 1 + 2 * served
  }

  function ServerRead(s: ServerPc, served: nat): nat {
    match s
    case SAwaitHello => 0
    case SHello => 1
    case SAwaitRequest => 1 + 2 * served
    case _ => 2 + 2 * served
  }

  /** `ch` carries the first `wrote` messages of a conversation, `read` of them consumed, and
      its bytes are exactly the encodings of the rest. */
  ghost predicate Carries(codec: Codec, ch: Channel, msg: nat -> Msg, wrote: nat, read: nat) {
    && read <= wrote == |ch.sent| && |ch.got| == read
    && (forall k: nat :: k < wrote ==> ch.sent[k] == msg(k))
    && ch.got == ch.sent[..read]
    && ch.arrived + ch.flying == EncodeAll(codec, ch.sent[read..])
  }

  lemma {:induction false} EncodeAllAppend(codec: Codec, ms: seq<Msg>, m: Msg)
    ensures EncodeAll(codec, ms + [m]) == EncodeAll(codec, ms) + codec.encode(m)
  {
    if ms == [] {
      assert ms + [m] == [m];
    } else {
      EncodeAllAppend(codec, ms[1..], m);
      assert (ms + [m])[1..] == ms[1..] + [m];
    }
  }

  lemma WriteCarries(codec: Codec, ch: Channel, msg: nat -> Msg, wrote: nat, read: nat)
    requires Carries(codec, ch, msg, wrote, read)
    ensures Carries(codec, ch.Write(codec, msg(wrote)), msg, wrote + 1, read)
  {
    var m := msg(wrote);
    EncodeAllAppend(codec, ch.sent[read..], m);
    assert (ch.sent + [m])[read..] == ch.sent[read..] + [m];
    assert ch.arrived + (ch.flying + codec.encode(m)) == (ch.arrived + ch.flying) + codec.encode(m);
  }

  lemma DeliverCarries(codec: Codec, ch: Channel, msg: nat -> Msg, wrote: nat, read: nat, n: nat)
    requires Carries(codec, ch, msg, wrote, read) && n <= |ch.flying|
    ensures Carries(codec, ch.Deliver(n), msg, wrote, read)
  {
    assert ch.Deliver(n).arrived + ch.Deliver(n).flying == ch.arrived + ch.flying;
  }

  ghost predicate Expects(msg: nat -> Msg, read: nat, k: Kind) {
    KindOf(msg(read)) == k && Seen(msg(read)) == msg(read)
  }

  /** A reader that has decided anything has decided on the next message written. */
  lemma ReadCarries(codec: Codec, ch: Channel, msg: nat -> Msg, wrote: nat, read: nat, k: Kind)
    requires Faithful(codec) && Carries(codec, ch, msg, wrote, read)
    requires !codec.decode(k, ch.arrived).NeedMore? && Expects(msg, read, k)
    ensures read < wrote
    ensures var p := codec.decode(k, ch.arrived);
            p.Got? && p.value == msg(read) && Carries(codec, ch.Read(p.value, p.rest), msg, wrote, read + 1)
  {
    var p, all := codec.decode(k, ch.arrived), codec.decode(k, ch.arrived + ch.flying);
    assert Extends(p, all, ch.flying);
    assert read < wrote;
    var later := ch.sent[read + 1..];
    assert ch.sent[read..][1..] == later;
    assert ch.arrived + ch.flying == codec.encode(msg(read)) + EncodeAll(codec, later);
    assert all == Got(msg(read), EncodeAll(codec, later));
    assert ch.sent[..read + 1] == ch.sent[..read] + [msg(read)];
  }

  /** A message that was written and has fully arrived can be read. */
  lemma ReadReady(codec: Codec, ch: Channel, msg: nat -> Msg, wrote: nat, read: nat, k: Kind)
    requires Faithful(codec) && Carries(codec, ch, msg, wrote, read)
    requires read < wrote && ch.flying == [] && Expects(msg, read, k)
    ensures codec.decode(k, ch.arrived) == Got(msg(read), EncodeAll(codec, ch.sent[read + 1..]))
  {
    assert ch.sent[read..][1..] == ch.sent[read + 1..];
    assert ch.arrived == ch.arrived + ch.flying == codec.encode(msg(read)) + EncodeAll(codec, ch.sent[read + 1..]);
  }

  // ----- The invariant of every run -----

  /** The rounds a client at `c` has completed. */
  function RoundsDone(c: ClientPc, n: nat): nat {
    match c
    case CHello => 0
    case CAwaitHello => 0
    case CRequest(i) => i
    case CAwaitResponse(i) => i
    case CData(i, _, _) => i
    case CAwaitReport(i) => i
    case CReply(i, _) => i
    case _ => n
  }

  function ExpectedOutcome(w: World, i: nat): Outcome
    requires i < |w.plans|
  {
    Outcome(w.plans[i], w.clientReport(i), w.serverReport(i))
  }

  ghost predicate ClientOk(w: World, st: State) {
    && !(st.c.CBadHandshake? || st.c.CRejected? || st.c.CUnreachable?)
    && (st.c.CRequest? || st.c.CAwaitResponse? || st.c.CData? || st.c.CAwaitReport? || st.c.CReply? ==>
          st.c.i < |w.plans|)
    && (st.c.CReply? ==> st.c.theirs == w.serverReport(st.c.i))
    && (st.c.CData? ==> st.c.port == w.port(st.c.i) && st.c.left <= ToSend(w, st.c.i))
    && |st.outcomes| == RoundsDone(st.c, |w.plans|) <= |w.plans|
    && (forall k :: 0 <= k < |st.outcomes| ==> st.outcomes[k] == ExpectedOutcome(w, k))
  }

  ghost predicate ServerOk(w: World, st: State) {
    && !(st.s.SBadHandshake? || st.s.SUnknownKind?)
    && st.served <= |w.plans|
    && (st.s.SAwaitHello? || st.s.SHello? ==> st.served == 0)
    && (st.s.SRespond? || st.s.SAwaitData? || st.s.SData? || st.s.SReport? ==>
          st.served < |w.plans| && st.s.req == RequestAt(w, st.served))
    && (st.s.SAwaitReply? ==> st.served < |w.plans|)
    && (st.s.SDone? ==> st.served == |w.plans|)
    && |st.received| == st.served
    && (forall k :: 0 <= k < st.served ==> st.received[k] == w.clientReport(k))
  }

  /** What is on its way to the data port: nothing before the client learns the port, and over
      TCP exactly the one connection until the server takes it. */
  ghost predicate DataOk(w: World, st: State) {
    && (st.s.SAwaitHello? || st.s.SHello? || st.s.SAwaitRequest? || st.s.SRespond? ==> st.data == 0)
    && (st.s.SAwaitData? && st.c.CAwaitResponse? ==> st.data == 0)
    && (st.s.SAwaitData? && !IsUdp(st.s.req.kind) && st.c.CData? ==> st.data + st.c.left == 1)
    && (st.s.SAwaitData? && !IsUdp(st.s.req.kind) && st.c.CAwaitReport? ==> st.data == 1)
  }

  ghost predicate ChannelsOk(w: World, st: State) {
    && ServerRead(st.s, st.served) <= ClientWrote(st.c, |w.plans|)
    && ClientRead(st.c, |w.plans|) <= ServerWrote(st.s, st.served)
    && Carries(w.codec, st.up, UpScript(w), ClientWrote(st.c, |w.plans|), ServerRead(st.s, st.served))
    && Carries(w.codec, st.down, DownScript(w), ServerWrote(st.s, st.served), ClientRead(st.c, |w.plans|))
  }

  ghost predicate Inv(w: World, st: State) {
    Runnable(w) && ClientOk(w, st) && ServerOk(w, st) && DataOk(w, st) && ChannelsOk(w, st)
  }

  /** What the script holds at the places where the two programs write and read. */
  lemma ScriptFacts(w: World, i: nat)
    ensures UpScript(w)(0) == Hello == DownScript(w)(0)
    ensures UpScript(w)(1 + 2 * i) == Req(RequestAt(w, i))
    ensures UpScript(w)(2 + 2 * i) == Rep(w.clientReport(i))
    ensures DownScript(w)(1 + 2 * i) == Resp(Response.Accept(w.port(i)))
    ensures DownScript(w)(2 + 2 * i) == Rep(w.serverReport(i))
  {
    assert (1 + 2 * i) % 2 == 1 && (1 + 2 * i) / 2 == i;
    assert (2 + 2 * i) % 2 == 0 && (2 + 2 * i) / 2 - 1 == i;
  }

  /** Around the data phase the two parties are in the same round: the client has asked, and
      has not yet been given the report. */
  lemma Rendezvous(w: World, st: State)
    requires Inv(w, st) && (st.s.SRespond? || st.s.SAwaitData?)
    ensures st.c.CAwaitResponse? || (st.s.SAwaitData? && (st.c.CData? || st.c.CAwaitReport?))
    ensures st.c.i == st.served
  {
    hide Carries, Faithful;
  }

  /** A client that sends data talks to a server that is serving the same round. */
  lemma DataRound(w: World, st: State)
    requires Inv(w, st) && st.c.CData?
    ensures st.s.SAwaitData? || st.s.SData? || st.s.SReport? || st.s.SAwaitReply?
    ensures st.c.i == st.served
  {
    hide Carries, Faithful;
  }

  lemma ClientHello(w: World, st: State)
    requires Inv(w, st) && ClientStep(w, st).Some? && st.c.CHello?
    ensures Inv(w, ClientStep(w, st).value)
  {
    hide Carries, EncodeAll, Faithful, UpScript, DownScript, ServerStep, ServerWrote, ServerRead;
    ScriptFacts(w, 0);
    if st.s.SAwaitData? { Rendezvous(w, st); }
    WriteCarries(w.codec, st.up, UpScript(w), 0, ServerRead(st.s, st.served));
  }

  lemma ClientHelloRead(w: World, st: State)
    requires Inv(w, st) && ClientStep(w, st).Some? && st.c.CAwaitHello?
    ensures Inv(w, ClientStep(w, st).value)
  {
    hide Carries, EncodeAll, Faithful, UpScript, DownScript, ServerStep, ServerWrote, ServerRead;
    ScriptFacts(w, 0);
    if st.s.SAwaitData? { Rendezvous(w, st); }
    ReadCarries(w.codec, st.down, DownScript(w), ServerWrote(st.s, st.served), 0, AHello);
  }

  lemma ClientRequest(w: World, st: State)
    requires Inv(w, st) && ClientStep(w, st).Some? && st.c.CRequest?
    ensures Inv(w, ClientStep(w, st).value)
  {
    hide Carries, EncodeAll, Faithful, UpScript, DownScript, ServerStep, ServerWrote, ServerRead;
    ScriptFacts(w, st.c.i);
    if st.s.SAwaitData? { Rendezvous(w, st); }
    WriteCarries(w.codec, st.up, UpScript(w), 1 + 2 * st.c.i, ServerRead(st.s, st.served));
  }

  lemma ClientResponseRead(w: World, st: State)
    requires Inv(w, st) && ClientStep(w, st).Some? && st.c.CAwaitResponse?
    ensures Inv(w, ClientStep(w, st).value)
  {
    hide Carries, EncodeAll, Faithful, UpScript, DownScript, ServerStep, ServerWrote, ServerRead;
    ScriptFacts(w, st.c.i);
    if st.s.SAwaitData? { Rendezvous(w, st); }
    ReadCarries(w.codec, st.down, DownScript(w), ServerWrote(st.s, st.served), 1 + 2 * st.c.i, AResponse);
  }

  lemma ClientData(w: World, st: State)
    requires Inv(w, st) && ClientStep(w, st).Some? && st.c.CData?
    ensures Inv(w, ClientStep(w, st).value)
  {
    hide Carries, EncodeAll, Faithful, UpScript, DownScript, ServerStep, ServerWrote, ServerRead;
    DataRound(w, st);
  }

  lemma ClientReportRead(w: World, st: State)
    requires Inv(w, st) && ClientStep(w, st).Some? && st.c.CAwaitReport?
    ensures Inv(w, ClientStep(w, st).value)
  {
    hide Carries, EncodeAll, Faithful, UpScript, DownScript, ServerStep, ServerWrote, ServerRead;
    ScriptFacts(w, st.c.i);
    if st.s.SAwaitData? { Rendezvous(w, st); }
    ReadCarries(w.codec, st.down, DownScript(w), ServerWrote(st.s, st.served), 2 + 2 * st.c.i, AReport);
  }

  lemma ClientReply(w: World, st: State)
    requires Inv(w, st) && ClientStep(w, st).Some? && st.c.CReply?
    ensures Inv(w, ClientStep(w, st).value)
  {
    hide Carries, EncodeAll, Faithful, UpScript, DownScript, ServerStep, ServerWrote, ServerRead;
    ScriptFacts(w, st.c.i);
    if st.s.SAwaitData? { Rendezvous(w, st); }
    WriteCarries(w.codec, st.up, UpScript(w), 2 + 2 * st.c.i, ServerRead(st.s, st.served));
  }

  lemma ClientClose(w: World, st: State)
    requires Inv(w, st) && ClientStep(w, st).Some? && st.c.CClose?
    ensures Inv(w, ClientStep(w, st).value)
  {
    hide Carries, EncodeAll, Faithful, UpScript, DownScript, ServerStep, ServerWrote, ServerRead;
    ScriptFacts(w, |w.plans|);
    if st.s.SAwaitData? { Rendezvous(w, st); }
    WriteCarries(w.codec, st.up, UpScript(w), 1 + 2 * |w.plans|, ServerRead(st.s, st.served));
  }

  lemma ClientKeepsInv(w: World, st: State)
    requires Inv(w, st) && ClientStep(w, st).Some?
    ensures Inv(w, ClientStep(w, st).value)
  {
    hide Inv;
    match st.c
    case CHello => ClientHello(w, st);
    case CAwaitHello => ClientHelloRead(w, st);
    case CRequest(_) => ClientRequest(w, st);
    case CAwaitResponse(_) => ClientResponseRead(w, st);
    case CData(_, _, _) => ClientData(w, st);
    case CAwaitReport(_) => ClientReportRead(w, st);
    case CReply(_, _) => ClientReply(w, st);
    case CClose => ClientClose(w, st);
    case _ =>
  }

  lemma ServerHelloRead(w: World, st: State)
    requires Inv(w, st) && ServerStep(w, st).Some? && st.s.SAwaitHello?
    ensures Inv(w, ServerStep(w, st).value)
  {
    hide Carries, EncodeAll, Faithful, UpScript, DownScript, ClientStep, ClientWrote, ClientRead;
    ScriptFacts(w, 0);
    ReadCarries(w.codec, st.up, UpScript(w), ClientWrote(st.c, |w.plans|), 0, AHello);
  }

  lemma ServerHello(w: World, st: State)
    requires Inv(w, st) && ServerStep(w, st).Some? && st.s.SHello?
    ensures Inv(w, ServerStep(w, st).value)
  {
    hide Carries, EncodeAll, Faithful, UpScript, DownScript, ClientStep, ClientWrote, ClientRead, ToSend, RoundsDone, RequestAt, Runnable;
    ScriptFacts(w, 0);
    WriteCarries(w.codec, st.down, DownScript(w), 0, ClientRead(st.c, |w.plans|));
  }

  lemma ServerRequestRead(w: World, st: State)
    requires Inv(w, st) && ServerStep(w, st).Some? && st.s.SAwaitRequest?
    ensures Inv(w, ServerStep(w, st).value)
  {
    hide Carries, EncodeAll, Faithful, UpScript, DownScript, ClientStep, ClientWrote, ClientRead;
    ScriptFacts(w, st.served);
    ReadCarries(w.codec, st.up, UpScript(w), ClientWrote(st.c, |w.plans|), 1 + 2 * st.served, ARequest);
  }

  lemma ServerRespond(w: World, st: State)
    requires Inv(w, st) && ServerStep(w, st).Some? && st.s.SRespond?
    ensures Inv(w, ServerStep(w, st).value)
  {
    hide Carries, EncodeAll, Faithful, UpScript, DownScript, ClientStep, ClientWrote, ClientRead;
    ScriptFacts(w, st.served);
    Rendezvous(w, st);
    WriteCarries(w.codec, st.down, DownScript(w), 1 + 2 * st.served, ClientRead(st.c, |w.plans|));
  }

  lemma ServerData(w: World, st: State)
    requires Inv(w, st) && ServerStep(w, st).Some? && (st.s.SAwaitData? || st.s.SData?)
    ensures Inv(w, ServerStep(w, st).value)
  {
    hide Carries, EncodeAll, Faithful, UpScript, DownScript, ClientStep, ClientWrote, ClientRead;
  }

  lemma ServerReport(w: World, st: State)
    requires Inv(w, st) && ServerStep(w, st).Some? && st.s.SReport?
    ensures Inv(w, ServerStep(w, st).value)
  {
    hide Carries, EncodeAll, Faithful, UpScript, DownScript, ClientStep, ClientWrote, ClientRead;
    ScriptFacts(w, st.served);
    WriteCarries(w.codec, st.down, DownScript(w), 2 + 2 * st.served, ClientRead(st.c, |w.plans|));
  }

  lemma ServerReplyRead(w: World, st: State)
    requires Inv(w, st) && ServerStep(w, st).Some? && st.s.SAwaitReply?
    ensures Inv(w, ServerStep(w, st).value)
  {
    hide Carries, EncodeAll, Faithful, UpScript, DownScript, ClientStep, ClientWrote, ClientRead;
    ScriptFacts(w, st.served);
    ReadCarries(w.codec, st.up, UpScript(w), ClientWrote(st.c, |w.plans|), 2 + 2 * st.served, AReport);
  }

  lemma ServerKeepsInv(w: World, st: State)
    requires Inv(w, st) && ServerStep(w, st).Some?
    ensures Inv(w, ServerStep(w, st).value)
  {
    hide Inv;
    match st.s
    case SAwaitHello => ServerHelloRead(w, st);
    case SHello => ServerHello(w, st);
    case SAwaitRequest => ServerRequestRead(w, st);
    case SRespond(_) => ServerRespond(w, st);
    case SAwaitData(_) => ServerData(w, st);
    case SData(_) => ServerData(w, st);
    case SReport(_) => ServerReport(w, st);
    case SAwaitReply => ServerReplyRead(w, st);
    case _ =>
  }

  lemma DeliveryKeepsInv(w: World, st: State, a: Action)
    requires Inv(w, st) && (a.DeliverUp? || a.DeliverDown?) && Apply(w, st, a).Some?
    ensures Inv(w, Apply(w, st, a).value)
  {
    hide Carries, EncodeAll, Faithful, ClientStep, ServerStep, ToSend, RoundsDone, RequestAt, Runnable;
    if a.DeliverUp? {
      DeliverCarries(w.codec, st.up, UpScript(w), ClientWrote(st.c, |w.plans|), ServerRead(st.s, st.served), a.n);
    } else {
      DeliverCarries(w.codec, st.down, DownScript(w), ServerWrote(st.s, st.served), ClientRead(st.c, |w.plans|), a.n);
    }
  }

  lemma DatagramKeepsInv(w: World, st: State, a: Action)
    requires Inv(w, st) && (a.Lose? || a.Copy? || a.Stray?) && Apply(w, st, a).Some?
    ensures Inv(w, Apply(w, st, a).value)
  {
    hide Carries, EncodeAll, Faithful, ClientStep, ServerStep, ToSend, RoundsDone, Runnable, UpScript, DownScript;
  }

  lemma StepKeepsInv(w: World, st: State, a: Action)
    requires Inv(w, st) && Apply(w, st, a).Some?
    ensures Inv(w, Apply(w, st, a).value)
  {
    hide Inv, ClientStep, ServerStep;
    match a
    case Client => ClientKeepsInv(w, st);
    case Server => ServerKeepsInv(w, st);
    case DeliverUp(_) => DeliveryKeepsInv(w, st, a);
    case DeliverDown(_) => DeliveryKeepsInv(w, st, a);
    case _ => DatagramKeepsInv(w, st, a);
  }

  /** Every state of every run satisfies the invariant, whatever the interleaving, the
      fragmentation and the losses. */
  lemma {:induction false} RunKeepsInv(w: World, actions: seq<Action>)
    requires Runnable(w) && Run(w, actions).Some?
    ensures Inv(w, Run(w, actions).value)
  {
    if actions != [] {
      var before := actions[..|actions| - 1];
      RunKeepsInv(w, before);
      StepKeepsInv(w, Run(w, before).value, actions[|actions| - 1]);
    }
  }

  // ----- Theorems -----

  /** Safety of every run: what each side has read is exactly a prefix of what the other side
      wrote, no run rejects a test or reaches a dead branch, and every outcome so far pairs its
      plan with the two reports of that very round. */
  lemma RunIsSafe(w: World, actions: seq<Action>)
    requires Runnable(w) && Run(w, actions).Some?
    ensures var st := Run(w, actions).value;
            && st.up.got <= st.up.sent && st.down.got <= st.down.sent
            && !st.c.CRejected? && !st.c.CUnreachable? && !st.c.CBadHandshake?
            && !st.s.SUnknownKind? && !st.s.SBadHandshake?
            && |st.outcomes| <= |w.plans|
            && (forall k :: 0 <= k < |st.outcomes| ==>
                  st.outcomes[k] == Outcome(w.plans[k], w.clientReport(k), w.serverReport(k)))
            && (st.c.CData? ==> st.c.port == w.port(st.served))
  {
    RunKeepsInv(w, actions);
    if Run(w, actions).value.c.CData? {
      DataRound(w, Run(w, actions).value);
    }
  }

  /** The conversation of every run, message by message: what the client writes, */
  lemma ClientWrites(w: World, actions: seq<Action>, k: nat)
    requires Runnable(w) && Run(w, actions).Some?
    ensures var sent := Run(w, actions).value.up.sent;
            && |sent| <= 2 + 2 * |w.plans|
            && (|sent| > 0 ==> sent[0] == Hello)
            && (k < |w.plans| && 1 + 2 * k < |sent| ==>
                  sent[1 + 2 * k].Req? && Announces(w.options, w.plans[k], sent[1 + 2 * k].req))
            && (k < |w.plans| && 2 + 2 * k < |sent| ==> sent[2 + 2 * k] == Rep(w.clientReport(k)))
            && (1 + 2 * |w.plans| < |sent| ==> sent[1 + 2 * |w.plans|] == Req(Request(4, 0, 0, 0, 0)))
  {
    hide Run, Carries, ClientOk, ServerOk, DataOk, UpScript, DownScript, RequestAt, Announces;
    RunKeepsInv(w, actions);
    var st := Run(w, actions).value;
    WroteBound(w, st);
    Carried(w.codec, st.up, UpScript(w), ClientWrote(st.c, |w.plans|), ServerRead(st.s, st.served));
    ScriptFacts(w, k);
    ScriptFacts(w, |w.plans|);
    RequestsAnnounce(w, k);
  }

  lemma Carried(codec: Codec, ch: Channel, msg: nat -> Msg, wrote: nat, read: nat)
    requires Carries(codec, ch, msg, wrote, read)
    ensures |ch.sent| == wrote && forall k: nat :: k < wrote ==> ch.sent[k] == msg(k)
  {
  }

  lemma RequestsAnnounce(w: World, k: nat)
    requires Runnable(w)
    ensures k < |w.plans| ==> Announces(w.options, w.plans[k], RequestAt(w, k))
    ensures RequestAt(w, |w.plans|) == Request(4, 0, 0, 0, 0)
  {
    hide Faithful;
    if k < |w.plans| {
      assert IsTest(w.plans[k].kind);
    }
  }

  /** and what the server does. */
  lemma ServerWrites(w: World, actions: seq<Action>, k: nat)
    requires Runnable(w) && Run(w, actions).Some?
    ensures var sent := Run(w, actions).value.down.sent;
            && |sent| <= 1 + 2 * |w.plans|
            && (|sent| > 0 ==> sent[0] == Hello)
            && (1 + 2 * k < |sent| ==> sent[1 + 2 * k] == Resp(Response(0, w.port(k), [])))
            && (2 + 2 * k < |sent| ==> sent[2 + 2 * k] == Rep(w.serverReport(k)))
  {
    hide Run, Carries, ClientOk, ServerOk, DataOk, UpScript, DownScript;
    RunKeepsInv(w, actions);
    var st := Run(w, actions).value;
    WroteBound(w, st);
    Carried(w.codec, st.down, DownScript(w), ServerWrote(st.s, st.served), ClientRead(st.c, |w.plans|));
    ScriptFacts(w, k);
  }

  lemma WroteBound(w: World, st: State)
    requires Inv(w, st)
    ensures ClientWrote(st.c, |w.plans|) <= 2 + 2 * |w.plans|
    ensures ServerWrote(st.s, st.served) <= 1 + 2 * |w.plans|
  {
    hide Carries;
  }

  predicate Finished(st: State) { st.c.CDone? && st.s.SDone? }

  /** The server waits for a first datagram, the client for the server's report, and nothing is
      on its way. */
  predicate Starved(st: State) { st.s.SAwaitData? && st.c.CAwaitReport? && st.data == 0 }

  /** Neither party can step and nothing is on its way to either of them. */
  predicate Quiet(w: World, st: State) {
    ClientStep(w, st).None? && ServerStep(w, st).None? && st.up.flying == [] && st.down.flying == []
  }

  predicate Stuck(w: World, st: State) { Quiet(w, st) && Apply(w, st, Lose).None? && Apply(w, st, Copy).None? }

  lemma StuckMeansNoStep(w: World, st: State)
    ensures Stuck(w, st) <==> forall a :: a != Stray ==> Apply(w, st, a).None?
  {
    if forall a :: a != Stray ==> Apply(w, st, a).None? {
      assert Apply(w, st, Client).None? && Apply(w, st, Server).None?;
      assert Apply(w, st, DeliverUp(|st.up.flying|)).None?;
      assert Apply(w, st, DeliverDown(|st.down.flying|)).None?;
    }
  }

  lemma NothingPending(w: World, st: State)
    requires Inv(w, st)
    ensures ServerRead(st.s, st.served) == ClientWrote(st.c, |w.plans|) ==> st.up.arrived == [] && st.up.flying == []
    ensures ClientRead(st.c, |w.plans|) == ServerWrote(st.s, st.served) ==> st.down.arrived == [] && st.down.flying == []
  {
  }

  lemma StarvedIsStuck(w: World, st: State)
    requires Inv(w, st) && Starved(st)
    ensures Stuck(w, st) && IsUdp(RequestAt(w, st.served).kind)
  {
    Rendezvous(w, st);
    NothingPending(w, st);
  }

  lemma FinishedIsStuck(w: World, st: State)
    requires Inv(w, st) && Finished(st)
    ensures Stuck(w, st)
  {
    NothingPending(w, st);
  }

  /** With nothing in flight, a client whose message has been written can read it. */
  lemma ClientReady(w: World, st: State)
    requires Inv(w, st) && st.down.flying == []
    requires ClientRead(st.c, |w.plans|) < ServerWrote(st.s, st.served)
    requires st.c.CAwaitHello? || st.c.CAwaitResponse? || st.c.CAwaitReport?
    ensures ClientStep(w, st).Some?
  {
    hide Carries, EncodeAll, Faithful, UpScript, DownScript, ServerStep;
    ScriptFacts(w, if st.c.CAwaitHello? then 0 else st.c.i);
    var kind := if st.c.CAwaitHello? then AHello else if st.c.CAwaitResponse? then AResponse else AReport;
    ReadReady(w.codec, st.down, DownScript(w), ServerWrote(st.s, st.served), ClientRead(st.c, |w.plans|), kind);
  }

  lemma ServerReady(w: World, st: State)
    requires Inv(w, st) && st.up.flying == []
    requires ServerRead(st.s, st.served) < ClientWrote(st.c, |w.plans|)
    requires st.s.SAwaitHello? || st.s.SAwaitRequest? || st.s.SAwaitReply?
    ensures ServerStep(w, st).Some?
  {
    hide Carries, EncodeAll, Faithful, UpScript, DownScript, ClientStep;
    ScriptFacts(w, st.served);
    var kind := if st.s.SAwaitHello? then AHello else if st.s.SAwaitRequest? then ARequest else AReport;
    ReadReady(w.codec, st.up, UpScript(w), ClientWrote(st.c, |w.plans|), ServerRead(st.s, st.served), kind);
  }

  lemma SomeoneCanStep(w: World, st: State)
    requires Inv(w, st) && !Finished(st) && !Starved(st)
    ensures !Quiet(w, st)
  {
    hide Carries, EncodeAll, Faithful;
    if Quiet(w, st) {
      if st.s.SAwaitHello? || st.s.SAwaitRequest? || st.s.SAwaitReply? {
        if ServerRead(st.s, st.served) < ClientWrote(st.c, |w.plans|) { ServerReady(w, st); }
      }
      if st.c.CAwaitHello? || st.c.CAwaitResponse? || st.c.CAwaitReport? {
        if ClientRead(st.c, |w.plans|) < ServerWrote(st.s, st.served) { ClientReady(w, st); }
      }
      if st.s.SAwaitData? { Rendezvous(w, st); }
      assert false;
    }
  }

  /** The states from which no step but a stranger's is possible. */
  lemma StuckStates(w: World, st: State)
    requires Inv(w, st)
    ensures (forall a :: a != Stray ==> Apply(w, st, a).None?) <==> Finished(st) || Starved(st)
  {
    StuckMeansNoStep(w, st);
    if Finished(st) {
      FinishedIsStuck(w, st);
    } else if Starved(st) {
      StarvedIsStuck(w, st);
    } else {
      SomeoneCanStep(w, st);
    }
  }

  lemma FinishedState(w: World, st: State)
    requires Inv(w, st) && Finished(st)
    ensures |st.outcomes| == |st.received| == st.served == |w.plans|
    ensures forall k :: 0 <= k < |w.plans| ==>
              st.outcomes[k] == ExpectedOutcome(w, k) && st.received[k] == w.clientReport(k)
    ensures st.up.got == st.up.sent && st.down.got == st.down.sent
    ensures |st.up.sent| == 2 + 2 * |w.plans| && |st.down.sent| == 1 + 2 * |w.plans|
    ensures st.up.arrived == [] && st.up.flying == [] && st.down.arrived == [] && st.down.flying == []
  {
    NothingPending(w, st);
  }

  /** A session that ended completed every plan in order, both parties hold both reports, all
      that was written was read, and no byte is left on either channel. */
  lemma FinishedSession(w: World, actions: seq<Action>)
    requires Runnable(w) && Run(w, actions).Some? && Finished(Run(w, actions).value)
    ensures var st := Run(w, actions).value;
            && |st.outcomes| == |st.received| == st.served == |w.plans|
            && (forall k :: 0 <= k < |w.plans| ==>
                  st.outcomes[k] == Outcome(w.plans[k], w.clientReport(k), w.serverReport(k))
                  && st.received[k] == w.clientReport(k))
            && st.up.got == st.up.sent && st.down.got == st.down.sent
            && |st.up.sent| == 2 + 2 * |w.plans| && |st.down.sent| == 1 + 2 * |w.plans|
            && st.up.arrived == [] && st.up.flying == [] && st.down.arrived == [] && st.down.flying == []
  {
    RunKeepsInv(w, actions);
    FinishedState(w, Run(w, actions).value);
  }

  // ----- Termination -----

  function ClientProgress(c: ClientPc, n: nat): nat {
    match c
    case CHello => 0
    case CAwaitHello => 1
    case CRequest(i) => 2 + 6 * i
    case CAwaitResponse(i) => 3 + 6 * i
    case CData(i, _, _) => 4 + 6 * i
    case CAwaitReport(i) => 5 + 6 * i
    case CReply(i, _) => 6 + 6 * i
    case CClose => 2 + 6 * n
    case _ => 3 + 6 * n
  }

  function ServerProgress(s: ServerPc, served: nat): nat {
    match s
    case SAwaitHello => 0
    case SHello => 1
    case SAwaitRequest => 2 + 6 * served
    case SRespond(_) => 3 + 6 * served
    case SAwaitData(_) => 4 + 6 * served
    case SData(_) => 5 + 6 * served
    case SReport(_) => 6 + 6 * served
    case SAwaitReply => 7 + 6 * served
    case _ => 3 + 6 * served
  }

  /** Program steps left to take. */
  function StepsLeft(w: World, st: State): int {
    12 * |w.plans| + 6 - ClientProgress(st.c, |w.plans|) - ServerProgress(st.s, st.served)
  }

  function DataLeft(st: State): nat { st.data + 2 * st.copies + if st.c.CData? then 2 * st.c.left else 0 }

  function BytesLeft(st: State): nat { |st.up.flying| + |st.down.flying| }

  lemma StepsLeftNonnegative(w: World, st: State)
    requires Inv(w, st)
    ensures StepsLeft(w, st) >= 0
  {
    hide Carries, EncodeAll, Faithful;
  }

  ghost predicate Smaller(w: World, st: State, st': State) {
    || StepsLeft(w, st') < StepsLeft(w, st)
    || (StepsLeft(w, st') == StepsLeft(w, st) && DataLeft(st') < DataLeft(st))
    || (StepsLeft(w, st') == StepsLeft(w, st) && DataLeft(st') == DataLeft(st) && BytesLeft(st') < BytesLeft(st))
  }

  lemma ClientShrinks(w: World, st: State)
    requires Inv(w, st) && ClientStep(w, st).Some?
    ensures Smaller(w, st, ClientStep(w, st).value)
  {
    hide Carries, ChannelsOk, Runnable, DataOk, ServerOk, ServerStep;
  }

  lemma ServerShrinks(w: World, st: State)
    requires ServerStep(w, st).Some?
    ensures Smaller(w, st, ServerStep(w, st).value)
  {
  }

  lemma StepShrinks(w: World, st: State, a: Action)
    requires Inv(w, st) && Apply(w, st, a).Some?
    ensures Smaller(w, st, Apply(w, st, a).value)
  {
    hide ClientStep, ServerStep, Inv;
    match a
    case Client => ClientShrinks(w, st);
    case Server => ServerShrinks(w, st);
    case _ =>
  }

  lemma {:induction false} DescendFrom(w: World, run: nat -> State, choice: nat -> Action, k: nat)
    requires Inv(w, run(k))
    requires forall i: nat :: Apply(w, run(i), choice(i)) == Some(run(i + 1))
    ensures false
    decreases StepsLeft(w, run(k)), DataLeft(run(k)), BytesLeft(run(k))
  {
    hide Inv, Apply;
    assert Apply(w, run(k), choice(k)) == Some(run(k + 1));
    StepKeepsInv(w, run(k), choice(k));
    StepShrinks(w, run(k), choice(k));
    StepsLeftNonnegative(w, run(k));
    StepsLeftNonnegative(w, run(k + 1));
    DescendFrom(w, run, choice, k + 1);
  }

  /** No schedule goes on for ever: every infinite list of choices names a step that is not
      possible. */
  lemma EveryRunEnds(w: World, run: nat -> State, choice: nat -> Action)
    requires Runnable(w) && run(0) == Init(w)
    ensures exists i: nat :: Apply(w, run(i), choice(i)) != Some(run(i + 1))
  {
    if forall i: nat :: Apply(w, run(i), choice(i)) == Some(run(i + 1)) {
      assert Run(w, []) == Some(Init(w));
      RunKeepsInv(w, []);
      DescendFrom(w, run, choice, 0);
    }
  }
}
