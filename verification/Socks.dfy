/** UDP through a SOCKS5 relay: the datagram header of section 7 of RFC 1928, and the socket
    wrappers that add and strip it. */
module Socks {
  import opened Wire

  datatype Host = V4(ip: seq<byte>) | V6(ip: seq<byte>) | Domain(len: byte, contents: seq<byte>)

  datatype SocksAddr = SocksAddr(host: Host, port: u16)

  datatype SocksError = HeaderTooShort | Fragmented | AddressTooShort | UnknownType(atyp: byte)

  const ATYP_V4: byte := 1
  const ATYP_DOMAIN: byte := 3
  const ATYP_V6: byte := 4

  /** IP addresses have their fixed sizes and a domain its declared length. */
  predicate WfAddr(a: SocksAddr) {
    match a.host
    case V4(ip) => |ip| == 4
    case V6(ip) => |ip| == 16
    case Domain(len, contents) => |contents| == len
  }

  /** What the encoder needs: a domain may hold more bytes than its length declares. */
  predicate Encodable(a: SocksAddr) {
    match a.host
    case V4(ip) => |ip| == 4
    case V6(ip) => |ip| == 16
    case Domain(len, contents) => len <= |contents|
  }

  /** The address without the bytes past a domain's declared length. */
  function Trim(a: SocksAddr): (t: SocksAddr)
    requires Encodable(a)
    ensures WfAddr(t) && (WfAddr(a) ==> t == a)
  {
    if a.host.Domain? then a.(host := Domain(a.host.len, a.host.contents[..a.host.len])) else a
  }

  function EncodeHost(h: Host): seq<byte>
    requires h.Domain? ==> h.len <= |h.contents|
  {
    match h
    case V4(ip) => [ATYP_V4] + ip
    case V6(ip) => [ATYP_V6] + ip
    case Domain(len, contents) => [ATYP_DOMAIN, len] + contents[..len]
  }

  /** Two reserved bytes, no fragmentation, address, port. */
  function Header(a: SocksAddr): seq<byte>
    requires Encodable(a)
  {
    [0, 0, 0] + EncodeHost(a.host) + Be(a.port, 2)
  }

  method EncodeSocks5UdpHeader(a: SocksAddr) returns (buf: seq<byte>)
    requires Encodable(a)
    ensures buf == Header(a)
  {
    buf := [];
    buf := buf + [0];
    buf := buf + [0];
    buf := buf + [0];
    match a.host {
      case V4(ip) =>
        buf := buf + [ATYP_V4];
        buf := buf + ip;
      case V6(ip) =>
        buf := buf + [ATYP_V6];
        buf := buf + ip;
      case Domain(len, contents) =>
        buf := buf + [ATYP_DOMAIN];
        buf := buf + [len];
        buf := buf + contents[..len];
    }
    assert buf == [0, 0, 0] + EncodeHost(a.host);
    buf := buf + [a.port / 256];
    buf := buf + [a.port % 256];
    assert Be(a.port, 2) == [a.port / 256, a.port % 256];
  }

  /** The source address of a relayed datagram and the length of its header. The reserved bytes
      are not looked at. */
  function DecodeSocks5UdpHeader(buf: seq<byte>): Result<(SocksAddr, nat), SocksError> {
    if |buf| < 4 then Err(HeaderTooShort)
    else if buf[2] != 0 then Err(Fragmented)
    else if buf[3] == ATYP_V4 then
      if |buf| < 4 + 4 + 2 then Err(AddressTooShort) else Ok((SocksAddr(V4(buf[4..8]), U16At(buf, 8)), 10))
    else if buf[3] == ATYP_V6 then
      if |buf| < 4 + 16 + 2 then Err(AddressTooShort) else Ok((SocksAddr(V6(buf[4..20]), U16At(buf, 20)), 22))
    else if buf[3] == ATYP_DOMAIN then
      if |buf| < 5 then Err(AddressTooShort)
      else
        var offset: nat := 5 + buf[4] as int;
        if |buf| < offset + 2 then Err(AddressTooShort)
        else Ok((SocksAddr(Domain(buf[4], buf[5..offset]), U16At(buf, offset)), offset + 2))
    else Err(UnknownType(buf[3]))
  }

  // ----- The codec -----

  lemma PortBytes(buf: seq<byte>, pos: nat, port: u16)
    ensures Be(port, 2) == [port / 256, port % 256]
    ensures pos + 2 <= |buf| ==> Be(U16At(buf, pos), 2) == buf[pos..pos + 2]
  {
  }

  lemma Layout(h: seq<byte>, port: u16, payload: seq<byte>)
    ensures var buf := [0, 0, 0] + h + Be(port, 2) + payload;
            && |buf| == 5 + |h| + |payload| && buf[2] == 0
            && (forall k :: 0 <= k < |h| ==> buf[3 + k] == h[k])
            && U16At(buf, 3 + |h|) == port
  {
    var buf := [0, 0, 0] + h + Be(port, 2) + payload;
    PortBytes(buf, 3 + |h|, port);
    assert buf[3 + |h|] == Be(port, 2)[0] && buf[4 + |h|] == Be(port, 2)[1];
  }

  /** Whatever payload follows, a header decodes to its address and its own length. */
  lemma DecodeHeader(a: SocksAddr, payload: seq<byte>)
    requires Encodable(a)
    ensures DecodeSocks5UdpHeader(Header(a) + payload) == Ok((Trim(a), |Header(a)|))
  {
    hide Be, U16At;
    var h, buf := EncodeHost(a.host), Header(a) + payload;
    Layout(h, a.port, payload);
    match a.host
    case V4(ip) =>
      assert h == [ATYP_V4] + ip && buf[4..8] == h[1..];
    case V6(ip) =>
      assert h == [ATYP_V6] + ip && buf[4..20] == h[1..];
    case Domain(len, contents) =>
      assert h == [ATYP_DOMAIN, len] + contents[..len] && buf[5..3 + |h|] == h[2..];
  }

  /** Any accepted datagram with zero reserved bytes starts with the encoding of the address it
      decodes to. */
  lemma EncodeDecoded(buf: seq<byte>)
    requires DecodeSocks5UdpHeader(buf).Ok? && buf[0] == 0 && buf[1] == 0
    ensures var (a, n) := DecodeSocks5UdpHeader(buf).value;
            WfAddr(a) && n <= |buf| && Header(a) == buf[..n]
  {
    hide Be, U16At;
    var (a, n) := DecodeSocks5UdpHeader(buf).value;
    PortBytes(buf, n - 2, 0);
    ThreeParts(buf, 3, n - 2, n);
    assert buf[..3] == [0, 0, 0];
    DecodedHost(buf);
  }

  lemma ThreeParts(buf: seq<byte>, i: nat, j: nat, k: nat)
    requires i <= j <= k <= |buf|
    ensures buf[..k] == buf[..i] + buf[i..j] + buf[j..k]
  {
  }

  lemma DecodedHost(buf: seq<byte>)
    requires DecodeSocks5UdpHeader(buf).Ok?
    ensures var (a, n) := DecodeSocks5UdpHeader(buf).value;
            WfAddr(a) && 5 <= n <= |buf| && a.port == U16At(buf, n - 2) && EncodeHost(a.host) == buf[3..n - 2]
  {
    hide U16At;
    var (a, n) := DecodeSocks5UdpHeader(buf).value;
    match a.host
    case V4(ip) =>
      assert buf[3..8] == [buf[3]] + buf[4..8];
    case V6(ip) =>
      assert buf[3..20] == [buf[3]] + buf[4..20];
    case Domain(len, contents) =>
      assert buf[3..n - 2] == [buf[3], buf[4]] + buf[5..n - 2] && contents[..len] == contents;
  }

  /** The header in figures: type 1, 4 or 3 behind three zeros, and the port, high byte first. */
  lemma HeaderBytes(a: SocksAddr)
    requires Encodable(a)
    ensures a.host.V4? ==> Header(a) == [0, 0, 0, 1] + a.host.ip + [a.port / 256, a.port % 256]
    ensures a.host.V6? ==> Header(a) == [0, 0, 0, 4] + a.host.ip + [a.port / 256, a.port % 256]
    ensures a.host.Domain? ==>
              Header(a) == [0, 0, 0, 3, a.host.len] + a.host.contents[..a.host.len] + [a.port / 256, a.port % 256]
  {
    hide Be;
    PortBytes([], 0, a.port);
  }

  /** Which datagrams have a header, and how the others are refused. */
  lemma AcceptedExactly(buf: seq<byte>)
    ensures DecodeSocks5UdpHeader(buf).Ok? <==>
            |buf| >= 5 && buf[2] == 0 &&
            ((buf[3] == 1 && |buf| >= 10) || (buf[3] == 4 && |buf| >= 22) || (buf[3] == 3 && |buf| >= 7 + buf[4] as int))
    ensures |buf| < 4 ==> DecodeSocks5UdpHeader(buf) == Err(HeaderTooShort)
    ensures |buf| >= 4 && buf[2] != 0 ==> DecodeSocks5UdpHeader(buf) == Err(Fragmented)
    ensures |buf| >= 4 && buf[2] == 0 && buf[3] !in {1, 3, 4} ==> DecodeSocks5UdpHeader(buf) == Err(UnknownType(buf[3]))
    ensures |buf| >= 4 && buf[2] == 0 && buf[3] in {1, 3, 4} && DecodeSocks5UdpHeader(buf).Err? ==>
              DecodeSocks5UdpHeader(buf) == Err(AddressTooShort)
  {
  }

  /** The two reserved bytes make no difference. */
  lemma ReservedIsIgnored(x: byte, y: byte, rest: seq<byte>)
    ensures DecodeSocks5UdpHeader([x, y] + rest) == DecodeSocks5UdpHeader([0, 0] + rest)
  {
    var a, b := [x, y] + rest, [0, 0] + rest;
    assert forall i, j :: 2 <= i <= j <= |a| ==> a[i..j] == b[i..j];
  }

  /** No header is the beginning of another. */
  lemma PrefixFree(a: SocksAddr, b: SocksAddr)
    requires Encodable(a) && Encodable(b) && Header(a) <= Header(b)
    ensures Trim(a) == Trim(b)
  {
    DecodeHeader(a, Header(b)[|Header(a)|..]);
    DecodeHeader(b, []);
    assert Header(b) + [] == Header(b) == Header(a) + Header(b)[|Header(a)|..];
  }

  lemma HeaderLength(a: SocksAddr)
    requires Encodable(a)
    ensures |Header(a)| == if a.host.V4? then 10 else if a.host.V6? then 22 else 7 + a.host.len
    ensures |Header(a)| <= 256 <==> !a.host.Domain? || a.host.len <= 249
  {
  }

  // ----- Sockets -----

  /** A connected datagram socket: `incoming` are the datagrams not yet received. */
  class UdpSocket {
    var incoming: seq<seq<byte>>
    var outgoing: seq<seq<byte>>

    constructor (incoming: seq<seq<byte>>)
      ensures this.incoming == incoming && outgoing == []
    {
      this.incoming, outgoing := incoming, [];
    }

    method Send(data: seq<byte>)
      modifies `outgoing
      ensures outgoing == old(outgoing) + [data]
    {
      outgoing := outgoing + [data];
    }

    /** Copies the next datagram into `buf`; what does not fit is lost. */
    method Recv(buf: array<byte>) returns (n: nat)
      requires incoming != []
      modifies `incoming, buf
      ensures incoming == old(incoming)[1..] && n == Min(|old(incoming)[0]|, buf.Length)
      ensures buf[..] == old(incoming)[0][..n] + old(buf[n..])
    {
      var data := incoming[0];
      n := if |data| <= buf.Length then |data| else buf.Length;
      forall i | 0 <= i < n {
        buf[i] := data[i];
      }
      incoming := incoming[1..];
    }
  }

  /** A socket to a fixed destination, direct or through a relay. */
  datatype TransportUdpSocket = Direct(socket: UdpSocket) | Socks5(socket: UdpSocket, target: SocksAddr)

  /** How much longer than the caller's buffer the relay wrapper receives. */
  const SLACK := 256

  /** What a caller with a buffer of `room` bytes gets of a datagram that came directly. */
  function DirectView(data: seq<byte>, room: nat): seq<byte> { data[..Min(|data|, room)] }

  /** What it gets of a datagram that came from a relay. */
  function RelayView(data: seq<byte>, room: nat): Result<seq<byte>, SocksError> {
    var seen := DirectView(data, room + SLACK);
    match DecodeSocks5UdpHeader(seen)
    case Err(e) => Err(e)
    case Ok((_, n)) => if n <= |seen| then Ok(DirectView(seen[n..], room)) else Err(HeaderTooShort)
  }

  /** What goes on the wire for a payload. */
  function Framed(t: TransportUdpSocket, payload: seq<byte>): seq<byte>
    requires t.Socks5? ==> Encodable(t.target)
  {
    if t.Direct? then payload else Header(t.target) + payload
  }

  method Send(t: TransportUdpSocket, payload: seq<byte>)
    requires t.Socks5? ==> Encodable(t.target)
    modifies t.socket`outgoing
    ensures t.socket.outgoing == old(t.socket.outgoing) + [Framed(t, payload)]
  {
    match t {
      case Direct(socket) => socket.Send(payload);
      case Socks5(socket, target) =>
        var header := EncodeSocks5UdpHeader(target);
        var buf := [];
        buf := buf + header;
        buf := buf + payload;
        assert buf == header + payload;
        socket.Send(buf);
    }
  }

  /** Receives one payload into the front of `buf` and leaves the rest of it alone. */
  method Recv(t: TransportUdpSocket, buf: array<byte>) returns (r: Result<nat, SocksError>)
    requires t.socket.incoming != []
    modifies t.socket`incoming, buf
    ensures t.socket.incoming == old(t.socket.incoming)[1..]
    ensures var data := old(t.socket.incoming)[0];
            var view := if t.Direct? then Ok(DirectView(data, buf.Length)) else RelayView(data, buf.Length);
            if view.Ok? then r == Ok(|view.value|) && buf[..] == view.value + old(buf[|view.value|..])
            else r == Err(view.error) && buf[..] == old(buf[..])
  {
    ghost var data := t.socket.incoming[0];
    match t {
      case Direct(socket) =>
        var n := socket.Recv(buf);
        r := Ok(n);
      case Socks5(socket, target) =>
        var tmp := new byte[buf.Length + SLACK](_ => 0);
        var n := socket.Recv(tmp);
        assert tmp[..n] == DirectView(data, buf.Length + SLACK);
        var header := DecodeSocks5UdpHeader(tmp[..n]);
        if header.Err? {
          return Err(header.error);
        }
        var hlen := header.value.1;
        var payload := tmp[hlen..n];
        assert payload == tmp[..n][hlen..];
        var copied := if |payload| <= buf.Length then |payload| else buf.Length;
        forall i | 0 <= i < copied {
          buf[i] := payload[i];
        }
        r := Ok(copied);
    }
  }

  // ----- Transparency -----

  /** Through a relay the caller gets exactly what a direct socket would give it if and only if
      the header fits the slack, or header and payload together fit buffer and slack. */
  lemma RelayIsTransparentExactly(a: SocksAddr, payload: seq<byte>, room: nat)
    requires Encodable(a)
    ensures RelayView(Header(a) + payload, room) == Ok(DirectView(payload, room)) <==>
            |Header(a)| <= 256 || |Header(a)| + |payload| <= room + 256
  {
    var h, data := Header(a), Header(a) + payload;
    var seen := DirectView(data, room + SLACK);
    if |h| <= |seen| {
      var kept := payload[..|seen| - |h|];
      assert seen == h + kept;
      DecodeHeader(a, kept);
      assert seen[|h|..] == kept;
      assert DirectView(kept, room) == payload[..Min(|kept|, room)];
      assert |DirectView(payload, room)| == Min(|payload|, room);
    } else {
      CutHeader(a, seen);
    }
  }

  /** A datagram cut inside its header is refused. */
  lemma CutHeader(a: SocksAddr, cut: seq<byte>)
    requires Encodable(a) && cut < Header(a)
    ensures DecodeSocks5UdpHeader(cut).Err?
  {
    if DecodeSocks5UdpHeader(cut).Ok? {
      assert cut[..3] == [0, 0, 0];
      EncodeDecoded(cut);
      var (b, n) := DecodeSocks5UdpHeader(cut).value;
      PrefixFree(b, a);
    }
  }

  /** Every IP source and every domain of up to 249 bytes is relayed transparently. */
  lemma CommonSourcesAreTransparent(a: SocksAddr, payload: seq<byte>, room: nat)
    requires Encodable(a) && (!a.host.Domain? || a.host.len <= 249)
    ensures RelayView(Header(a) + payload, room) == Ok(DirectView(payload, room))
  {
    HeaderLength(a);
    RelayIsTransparentExactly(a, payload, room);
  }

  /** From a longer domain a payload that fills the buffer arrives short. */
  lemma LongDomainCutsPayload(a: SocksAddr, payload: seq<byte>, room: nat)
    requires Encodable(a) && a.host.Domain? && a.host.len >= 250 && |payload| >= room >= 6
    ensures RelayView(Header(a) + payload, room) == Ok(payload[..room - (a.host.len - 249)])
  {
    HeaderLength(a);
    var kept := payload[..room - (a.host.len - 249)];
    assert DirectView(Header(a) + payload, room + SLACK) == Header(a) + kept;
    DecodeHeader(a, kept);
    assert (Header(a) + kept)[|Header(a)|..] == kept == DirectView(kept, room);
  }

  /** What one side sends through a relay is its payload behind the target's header; a relay that
      puts the sender's address in its place delivers the whole payload if and only if that header
      fits the slack, or header and payload together fit buffer and slack. */
  lemma RelayedPayloadArrives(t: TransportUdpSocket, source: SocksAddr, payload: seq<byte>, room: nat)
    requires t.Socks5? && Encodable(t.target) && Encodable(source) && |payload| <= room
    ensures var seen := DecodeSocks5UdpHeader(Framed(t, payload));
            && seen.Ok? && seen.value.0 == Trim(t.target) && seen.value.1 <= |Framed(t, payload)|
            && (RelayView(Header(source) + Framed(t, payload)[seen.value.1..], room) == Ok(payload) <==>
                  |Header(source)| <= 256 || |Header(source)| + |payload| <= room + 256)
  {
    DecodeHeader(t.target, payload);
    assert Framed(t, payload)[|Header(t.target)|..] == payload;
    RelayIsTransparentExactly(source, payload, room);
    assert DirectView(payload, room) == payload;
  }

  // ----- The QUIC wrapper -----

  /** The socket a QUIC endpoint sends through: `remote` is the address it believes it talks to. */
  datatype SocksUdpSocket = SocksUdpSocket(inner: UdpSocket, target: SocksAddr, remote: SocksAddr)

  /** What the endpoint is told about a packet: sender, length, and length of each segment. */
  datatype RecvMeta = RecvMeta(addr: SocksAddr, len: nat, stride: nat)

  const POLL_BUFFER := 65535

  /** The packet the QUIC endpoint is given of a datagram; none when the payload is empty. */
  function PolledView(data: seq<byte>, room: nat): Result<Option<seq<byte>>, SocksError> {
    var seen := DirectView(data, POLL_BUFFER);
    if seen == [] then Ok(None)
    else
      match DecodeSocks5UdpHeader(seen)
      case Err(e) => Err(e)
      case Ok((_, n)) =>
        if n > |seen| then Err(HeaderTooShort)
        else if n == |seen| then Ok(None) else Ok(Some(DirectView(seen[n..], room)))
  }

  method TrySend(t: SocksUdpSocket, contents: seq<byte>)
    requires Encodable(t.target)
    modifies t.inner`outgoing
    ensures t.inner.outgoing == old(t.inner.outgoing) + [Header(t.target) + contents]
  {
    var header := EncodeSocks5UdpHeader(t.target);
    var buf := [];
    buf := buf + header;
    buf := buf + contents;
    assert buf == header + contents;
    t.inner.Send(buf);
  }

  /** Takes one datagram and returns how many packets it made of it: one for a payload, even where
      the buffer has no room for it, whose metadata name the remote address whatever the relay's
      header says; none for an empty one. */
  method PollRecv(t: SocksUdpSocket, buf: array<byte>, meta: array<RecvMeta>) returns (r: Result<nat, SocksError>)
    requires t.inner.incoming != [] && meta.Length > 0
    modifies t.inner`incoming, buf, meta
    ensures t.inner.incoming == old(t.inner.incoming)[1..]
    ensures match PolledView(old(t.inner.incoming)[0], buf.Length)
            case Err(e) => r == Err(e) && buf[..] == old(buf[..]) && meta[..] == old(meta[..])
            case Ok(None) => r == Ok(0) && buf[..] == old(buf[..]) && meta[..] == old(meta[..])
            case Ok(Some(p)) =>
              && r == Ok(1) && buf[..] == p + old(buf[|p|..])
              && meta[..] == [RecvMeta(t.remote, |p|, |p|)] + old(meta[1..])
  {
    ghost var data := t.inner.incoming[0];
    var recvBuf := new byte[POLL_BUFFER](_ => 0);
    var n := t.inner.Recv(recvBuf);
    var filled := recvBuf[..n];
    assert filled == DirectView(data, POLL_BUFFER);
    if filled == [] {
      return Ok(0);
    }
    var header := DecodeSocks5UdpHeader(filled);
    if header.Err? {
      return Err(header.error);
    }
    var payload := filled[header.value.1..];
    if payload == [] {
      return Ok(0);
    }
    var copied := if |payload| <= buf.Length then |payload| else buf.Length;
    forall i | 0 <= i < copied {
      buf[i] := payload[i];
    }
    meta[0] := RecvMeta(t.remote, copied, copied);
    r := Ok(1);
  }

  /** The endpoint gets a framed packet as if it had come bare if and only if the header and what
      its buffer has room for fit the largest datagram. */
  lemma PolledPayloadArrives(a: SocksAddr, payload: seq<byte>, room: nat)
    requires Encodable(a)
    ensures PolledView(Header(a) + payload, room) == Ok(if payload == [] then None else Some(DirectView(payload, room))) <==>
            |Header(a)| + Min(|payload|, room) <= 65535
  {
    HeaderLength(a);
    var kept := DirectView(payload, POLL_BUFFER - |Header(a)|);
    assert DirectView(Header(a) + payload, POLL_BUFFER) == Header(a) + kept;
    DecodeHeader(a, kept);
    assert (Header(a) + kept)[|Header(a)|..] == kept;
    assert |DirectView(payload, room)| == Min(|payload|, room);
    assert DirectView(kept, room) == payload[..Min(|kept|, room)];
  }
}
