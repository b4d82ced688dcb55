/** The control stream as the read and write functions use it: one field at a time. */
module Stream {
  import opened Wire
  import opened Protocol

  datatype IoError = UnexpectedEof | InvalidData

  lemma Regroup4<T>(w: seq<T>, a: seq<T>, b: seq<T>, c: seq<T>, d: seq<T>)
    ensures w + a + b + c + d == w + (a + b + c + d)
  {
  }

  lemma Regroup5<T>(w: seq<T>, a: seq<T>, b: seq<T>, c: seq<T>, d: seq<T>, e: seq<T>)
    ensures w + a + b + c + d + e == w + (a + b + c + d + e)
  {
  }

  lemma RegroupMore5<T>(w: seq<T>, f: seq<T>, a: seq<T>, b: seq<T>, c: seq<T>, d: seq<T>, e: seq<T>)
    ensures (w + f) + a + b + c + d + e == w + (f + a + b + c + d + e)
  {
  }

  /** A byte stream: writers append to `bytes`, readers consume it from the front. */
  class Pipe {
    var bytes: seq<byte>

    constructor ()
      ensures bytes == []
    {
      bytes := [];
    }

    method WriteAll(data: seq<byte>)
      modifies this
      ensures bytes == old(bytes) + data
    {
      bytes := bytes + data;
    }

    method WriteUint(width: nat, value: nat)
      modifies this
      ensures bytes == old(bytes) + Be(value, width)
    {
      bytes := bytes + Be(value, width);
    }

    /** Reads exactly `n` bytes; a stream that ends before that is drained and reported. */
    method ReadExact(n: nat) returns (r: Result<seq<byte>, IoError>)
      modifies this
      ensures TakeBytes(n, old(bytes)) == if r.Ok? then Got(r.value, bytes) else NeedMore
      ensures r.Err? ==> r.error == UnexpectedEof && bytes == []
    {
      if |bytes| < n {
        bytes := [];
        return Err(UnexpectedEof);
      }
      r := Ok(bytes[..n]);
      bytes := bytes[n..];
    }

    method ReadUint(width: nat) returns (r: Result<nat, IoError>)
      modifies this
      ensures Take(width, old(bytes)) == if r.Ok? then Got(r.value, bytes) else NeedMore
      ensures r.Err? ==> r.error == UnexpectedEof
    {
      var field := ReadExact(width);
      if field.Err? {
        return Err(field.error);
      }
      r := Ok(FromBe(field.value));
    }

    method WriteHandshake()
      modifies this
      ensures bytes == old(bytes) + Encode(Hello)
    {
      WriteAll(MAGIC);
      WriteUint(1, VERSION);
      assert Be(VERSION, 1) == [VERSION];
    }

    method ReadHandshake() returns (r: Result<(), IoError>)
      modifies this
      ensures DecodeHello(old(bytes)) ==
              if r.Ok? then Got(Hello, bytes) else if r.error == UnexpectedEof then NeedMore else Bad
    {
      var magic := ReadExact(8);
      if magic.Err? {
        return Err(magic.error);
      }
      if magic.value != MAGIC {
        return Err(InvalidData);
      }
      var version := ReadUint(1);
      if version.Err? {
        return Err(version.error);
      }
      if version.value != VERSION {
        return Err(InvalidData);
      }
      r := Ok(());
    }

    method WriteRequest(q: Request)
      modifies this
      ensures bytes == old(bytes) + Encode(Req(q))
    {
      ghost var was := bytes;
      WriteUint(1, q.kind);
      WriteUint(4, q.durationMs);
      WriteUint(4, q.payloadSize);
      WriteUint(8, q.bandwidthBps);
      WriteUint(8, q.expectedPackets);
      Regroup5(was, Be(q.kind, 1), Be(q.durationMs, 4), Be(q.payloadSize, 4), Be(q.bandwidthBps, 8), Be(q.expectedPackets, 8));
    }

    method ReadRequest() returns (r: Result<Request, IoError>)
      modifies this
      ensures DecodeRequest(old(bytes)) == if r.Ok? then Got(Req(r.value), bytes) else NeedMore
    {
      Widths();
      var kind := ReadUint(1);
      if kind.Err? { return Err(kind.error); }
      var duration := ReadUint(4);
      if duration.Err? { return Err(duration.error); }
      var size := ReadUint(4);
      if size.Err? { return Err(size.error); }
      var bandwidth := ReadUint(8);
      if bandwidth.Err? { return Err(bandwidth.error); }
      var expected := ReadUint(8);
      if expected.Err? { return Err(expected.error); }
      r := Ok(Request(kind.value, duration.value, size.value, bandwidth.value, expected.value));
    }

    method WriteResponse(q: Response)
      modifies this
      ensures bytes == old(bytes) + Encode(Resp(q))
    {
      ghost var was := bytes;
      WriteUint(1, q.status);
      WriteUint(2, q.dataPort);
      var length := if |q.error| <= U16_MAX then |q.error| else U16_MAX;
      WriteUint(2, length);
      WriteAll(q.error[..length]);
      Regroup4(was, Be(q.status, 1), Be(q.dataPort, 2), Be(length, 2), q.error[..length]);
    }

    method ReadResponse() returns (r: Result<Response, IoError>)
      modifies this
      ensures DecodeResponse(old(bytes)) == if r.Ok? then Got(Resp(r.value), bytes) else NeedMore
    {
      Widths();
      var status := ReadUint(1);
      if status.Err? { return Err(status.error); }
      var port := ReadUint(2);
      if port.Err? { return Err(port.error); }
      var length := ReadUint(2);
      if length.Err? { return Err(length.error); }
      var error := ReadExact(length.value);
      if error.Err? { return Err(error.error); }
      r := Ok(Response(status.value, port.value, error.value));
    }

    method WriteReport(q: Report)
      modifies this
      ensures bytes == old(bytes) + Encode(Rep(q))
    {
      ghost var was := bytes;
      WriteUint(8, q.bytes);
      WriteUint(8, q.packets);
      WriteUint(8, q.maxSeq);
      WriteUint(8, q.ooo);
      WriteUint(8, q.dup);
      WriteUint(8, q.jitterNs);
      WriteUint(8, q.latencyMinNs);
      WriteUint(8, q.latencyMaxNs);
      WriteUint(8, q.latencySumNs);
      WriteUint(8, q.durationNs);
      Regroup5(was, Be(q.bytes, 8), Be(q.packets, 8), Be(q.maxSeq, 8), Be(q.ooo, 8), Be(q.dup, 8));
      ghost var first := Be(q.bytes, 8) + Be(q.packets, 8) + Be(q.maxSeq, 8) + Be(q.ooo, 8) + Be(q.dup, 8);
      RegroupMore5(was, first, Be(q.jitterNs, 8), Be(q.latencyMinNs, 8), Be(q.latencyMaxNs, 8),
                   Be(q.latencySumNs, 8), Be(q.durationNs, 8));
    }

    method ReadReport() returns (r: Result<Report, IoError>)
      modifies this
      ensures DecodeReport(old(bytes)) == if r.Ok? then Got(Rep(r.value), bytes) else NeedMore
    {
      hide Take;
      Widths();
      var a := ReadUint(8);
      if a.Err? { return Err(a.error); }
      var b := ReadUint(8);
      if b.Err? { return Err(b.error); }
      var c := ReadUint(8);
      if c.Err? { return Err(c.error); }
      var d := ReadUint(8);
      if d.Err? { return Err(d.error); }
      var e := ReadUint(8);
      if e.Err? { return Err(e.error); }
      var f := ReadUint(8);
      if f.Err? { return Err(f.error); }
      var g := ReadUint(8);
      if g.Err? { return Err(g.error); }
      var h := ReadUint(8);
      if h.Err? { return Err(h.error); }
      var i := ReadUint(8);
      if i.Err? { return Err(i.error); }
      var j := ReadUint(8);
      if j.Err? { return Err(j.error); }
      r := Ok(Report(a.value, b.value, c.value, d.value, e.value, f.value, g.value, h.value, i.value, j.value));
    }
  }

  lemma WrittenTogether(resp: Response, rep: Report)
    ensures DecodeResponse([] + Encode(Resp(resp)) + Encode(Rep(rep))) == Got(Seen(Resp(resp)), Encode(Rep(rep)))
    ensures DecodeReport(Encode(Rep(rep))) == Got(Rep(rep), [])
  {
    hide Encode, DecodeResponse, DecodeReport, Seen;
    var first, second := Encode(Resp(resp)), Encode(Rep(rep));
    assert [] + first + second == first + second;
    DecodeEncodeResponse(resp, second);
    assert second + [] == second;
    DecodeEncodeReport(rep, []);
  }

  /** One party writes a response and its report, the other reads them back: the error text
      survives up to its first 65535 bytes and the stream stays in step. */
  method ExchangeResponseAndReport(p: Pipe, resp: Response, rep: Report)
    returns (r: Result<Response, IoError>, s: Result<Report, IoError>)
    requires p.bytes == []
    modifies p
    ensures r == Ok(resp.(error := resp.error[..Min(|resp.error|, 65535)]))
    ensures s == Ok(rep) && p.bytes == []
  {
    p.WriteResponse(resp);
    p.WriteReport(rep);
    WrittenTogether(resp, rep);
    r := p.ReadResponse();
    s := p.ReadReport();
  }
}
