/** The benchmark control protocol: message layouts and how a reader consumes them from a byte
    stream. */
module Protocol {
  import opened Wire

  /** What a reader gets from the bytes that have arrived so far: a value and the bytes it
      did not consume, a malformed message, or nothing yet. */
  datatype Parse<+T> = NeedMore | Bad | Got(value: T, rest: seq<byte>) {
    predicate IsFailure() { !Got? }

    function PropagateFailure<U>(): Parse<U>
      requires !Got?
    {
      if NeedMore? then NeedMore else Bad
    }

    function Extract(): (T, seq<byte>)
      requires Got?
    {
      (value, rest)
    }
  }

  const MAGIC: seq<byte> := [0x50, 0x52, 0x4F, 0x58, 0x59, 0x42, 0x45, 0x4E] // "PROXYBEN"
  const VERSION: byte := 1

  const KIND_TCP_UP: byte := 0
  const KIND_TCP_DOWN: byte := 1
  const KIND_UDP_UP: byte := 2
  const KIND_UDP_DOWN: byte := 3
  const KIND_CLOSE: byte := 4

  const STATUS_OK: byte := 0
  const STATUS_ERR: byte := 1

  datatype Request = Request(kind: byte, durationMs: u32, payloadSize: u32, bandwidthBps: u64, expectedPackets: u64) {
    static function Close(): Request { Request(KIND_CLOSE, 0, 0, 0, 0) }
  }

  /** The error text is modelled as its bytes. */
  datatype Response = Response(status: byte, dataPort: u16, error: seq<byte>) {
    static function Accept(port: u16): Response { Response(STATUS_OK, port, []) }
    static function Reject(message: seq<byte>): Response { Response(STATUS_ERR, 0, message) }
  }

  datatype Report = Report(bytes: u64, packets: u64, maxSeq: u64, ooo: u64, dup: u64, jitterNs: u64,
                           latencyMinNs: u64, latencyMaxNs: u64, latencySumNs: u64, durationNs: u64)

  datatype Msg = Hello | Req(req: Request) | Resp(resp: Response) | Rep(rep: Report)

  datatype Kind = AHello | ARequest | AResponse | AReport

  function KindOf(m: Msg): Kind {
    match m
    case Hello => AHello
    case Req(_) => ARequest
    case Resp(_) => AResponse
    case Rep(_) => AReport
  }

  // ----- Writing -----

  function ErrorLength(r: Response): u16 { Min(|r.error|, U16_MAX) }

  function Encode(m: Msg): seq<byte> {
    match m
    case Hello => MAGIC + [VERSION]
    case Req(r) =>
      Be(r.kind, 1) + Be(r.durationMs, 4) + Be(r.payloadSize, 4) + Be(r.bandwidthBps, 8) + Be(r.expectedPackets, 8)
    case Resp(r) =>
      Be(r.status, 1) + Be(r.dataPort, 2) + Be(ErrorLength(r), 2) + r.error[..ErrorLength(r)]
    case Rep(r) =>
      Be(r.bytes, 8) + Be(r.packets, 8) + Be(r.maxSeq, 8) + Be(r.ooo, 8) + Be(r.dup, 8)
      + Be(r.jitterNs, 8) + Be(r.latencyMinNs, 8) + Be(r.latencyMaxNs, 8) + Be(r.latencySumNs, 8) + Be(r.durationNs, 8)
  }

  /** The message the peer sees: error text past its 16-bit length field is lost. */
  function Seen(m: Msg): Msg {
    if m.Resp? then Resp(m.resp.(error := m.resp.error[..ErrorLength(m.resp)])) else m
  }

  // ----- Reading -----

  function Take(width: nat, s: seq<byte>): (r: Parse<nat>)
    ensures r.Got? ==> r.value < Pow256(width)
  {
    if |s| < width then NeedMore
    else
      FromBeRoundTrip(s[..width]);
      Got(FromBe(s[..width]), s[width..])
  }

  function TakeBytes(n: nat, s: seq<byte>): Parse<seq<byte>> {
    if |s| < n then NeedMore else Got(s[..n], s[n..])
  }

  function DecodeHello(s: seq<byte>): Parse<Msg> {
    var (magic, s) :- TakeBytes(8, s);
    if magic != MAGIC then Bad
    else
      var (version, s) :- Take(1, s);
      if version != VERSION then Bad else Got(Hello, s)
  }

  function DecodeRequest(s: seq<byte>): Parse<Msg> {
    Widths();
    var (kind, s) :- Take(1, s);
    var (duration, s) :- Take(4, s);
    var (size, s) :- Take(4, s);
    var (bandwidth, s) :- Take(8, s);
    var (expected, s) :- Take(8, s);
    Got(Req(Request(kind, duration, size, bandwidth, expected)), s)
  }

  function DecodeResponse(s: seq<byte>): Parse<Msg> {
    Widths();
    var (status, s) :- Take(1, s);
    var (port, s) :- Take(2, s);
    var (length, s) :- Take(2, s);
    var (error, s) :- TakeBytes(length, s);
    Got(Resp(Response(status, port, error)), s)
  }

  function DecodeReport(s: seq<byte>): Parse<Msg> {
    Widths();
    var (bytes, s) :- Take(8, s);
    var (packets, s) :- Take(8, s);
    var (maxSeq, s) :- Take(8, s);
    var (ooo, s) :- Take(8, s);
    var (dup, s) :- Take(8, s);
    var (jitter, s) :- Take(8, s);
    var (latMin, s) :- Take(8, s);
    var (latMax, s) :- Take(8, s);
    var (latSum, s) :- Take(8, s);
    var (duration, s) :- Take(8, s);
    Got(Rep(Report(bytes, packets, maxSeq, ooo, dup, jitter, latMin, latMax, latSum, duration)), s)
  }

  function Decode(k: Kind, s: seq<byte>): Parse<Msg> {
    match k
    case AHello => DecodeHello(s)
    case ARequest => DecodeRequest(s)
    case AResponse => DecodeResponse(s)
    case AReport => DecodeReport(s)
  }

  // ----- Round trips -----

  lemma TakeBe(width: nat, n: nat, t: seq<byte>)
    requires n < Pow256(width)
    ensures Take(width, Be(n, width) + t) == Got(n, t)
  {
    BeRoundTrip(n, width);
    assert (Be(n, width) + t)[..width] == Be(n, width);
    assert (Be(n, width) + t)[width..] == t;
  }

  lemma TakeInverse(width: nat, s: seq<byte>)
    requires Take(width, s).Got?
    ensures s == Be(Take(width, s).value, width) + Take(width, s).rest
  {
    FromBeRoundTrip(s[..width]);
  }

  lemma DecodeEncodeReport(r: Report, t: seq<byte>)
    ensures DecodeReport(Encode(Rep(r)) + t) == Got(Rep(r), t)
  {
    Widths();
    var t9 := Be(r.durationNs, 8) + t;
    var t8 := Be(r.latencySumNs, 8) + t9;
    var t7 := Be(r.latencyMaxNs, 8) + t8;
    var t6 := Be(r.latencyMinNs, 8) + t7;
    var t5 := Be(r.jitterNs, 8) + t6;
    var t4 := Be(r.dup, 8) + t5;
    var t3 := Be(r.ooo, 8) + t4;
    var t2 := Be(r.maxSeq, 8) + t3;
    var t1 := Be(r.packets, 8) + t2;
    assert Encode(Rep(r)) + t == Be(r.bytes, 8) + t1;
    TakeBe(8, r.bytes, t1);
    TakeBe(8, r.packets, t2);
    TakeBe(8, r.maxSeq, t3);
    TakeBe(8, r.ooo, t4);
    TakeBe(8, r.dup, t5);
    TakeBe(8, r.jitterNs, t6);
    TakeBe(8, r.latencyMinNs, t7);
    TakeBe(8, r.latencyMaxNs, t8);
    TakeBe(8, r.latencySumNs, t9);
    TakeBe(8, r.durationNs, t);
  }

  lemma DecodeEncodeRequest(r: Request, t: seq<byte>)
    ensures DecodeRequest(Encode(Req(r)) + t) == Got(Req(r), t)
  {
    Widths();
    var t4 := Be(r.expectedPackets, 8) + t;
    var t3 := Be(r.bandwidthBps, 8) + t4;
    var t2 := Be(r.payloadSize, 4) + t3;
    var t1 := Be(r.durationMs, 4) + t2;
    assert Encode(Req(r)) + t == Be(r.kind, 1) + t1;
    TakeBe(1, r.kind, t1);
    TakeBe(4, r.durationMs, t2);
    TakeBe(4, r.payloadSize, t3);
    TakeBe(8, r.bandwidthBps, t4);
    TakeBe(8, r.expectedPackets, t);
  }

  lemma DecodeEncodeResponse(r: Response, t: seq<byte>)
    ensures DecodeResponse(Encode(Resp(r)) + t) == Got(Seen(Resp(r)), t)
  {
    Widths();
    var n := ErrorLength(r);
    var t3 := r.error[..n] + t;
    var t2 := Be(n, 2) + t3;
    var t1 := Be(r.dataPort, 2) + t2;
    assert Encode(Resp(r)) + t == Be(r.status, 1) + t1;
    TakeBe(1, r.status, t1);
    TakeBe(2, r.dataPort, t2);
    TakeBe(2, n, t3);
    assert t3[..n] == r.error[..n] && t3[n..] == t;
  }

  /** Whatever follows a message on the stream, its reader gets that message and stops
      exactly at its end. */
  lemma DecodeEncode(m: Msg, t: seq<byte>)
    ensures Decode(KindOf(m), Encode(m) + t) == Got(Seen(m), t)
  {
    match m
    case Hello =>
      var s := Encode(m) + t;
      assert s[..8] == MAGIC && s[8..] == [VERSION] + t;
      assert Be(VERSION, 1) == [VERSION];
      TakeBe(1, VERSION, t);
    case Req(r) => DecodeEncodeRequest(r, t);
    case Resp(r) => DecodeEncodeResponse(r, t);
    case Rep(r) => DecodeEncodeReport(r, t);
  }

  lemma TakeExtends(width: nat, s: seq<byte>, t: seq<byte>)
    requires Take(width, s).Got?
    ensures Take(width, s + t) == Got(Take(width, s).value, Take(width, s).rest + t)
  {
    TakeInverse(width, s);
    TakeBe(width, Take(width, s).value, Take(width, s).rest + t);
    assert s + t == Be(Take(width, s).value, width) + (Take(width, s).rest + t);
  }

  /** Only well-formed messages decode: the consumed bytes are the encoding of the value read. */
  lemma EncodeDecode(k: Kind, s: seq<byte>)
    requires Decode(k, s).Got?
    ensures var Got(m, rest) := Decode(k, s); KindOf(m) == k && Seen(m) == m && s == Encode(m) + rest
  {
    match k
    case AHello =>
      TakeInverse(1, s[8..]);
      assert Be(VERSION, 1) == [VERSION];
    case ARequest => EncodeDecodeRequest(s);
    case AResponse => EncodeDecodeResponse(s);
    case AReport => EncodeDecodeReport(s);
  }

  lemma EncodeDecodeRequest(s: seq<byte>)
    requires DecodeRequest(s).Got?
    ensures var Got(m, rest) := DecodeRequest(s); m.Req? && s == Encode(m) + rest
  {
    hide Take, Be;
    var Got(kind, s1) := Take(1, s);
    var Got(duration, s2) := Take(4, s1);
    var Got(size, s3) := Take(4, s2);
    var Got(bandwidth, s4) := Take(8, s3);
    var Got(expected, rest) := Take(8, s4);
    TakeInverse(1, s);
    TakeInverse(4, s1);
    TakeInverse(4, s2);
    TakeInverse(8, s3);
    TakeInverse(8, s4);
    Flatten5(Be(kind, 1), Be(duration, 4), Be(size, 4), Be(bandwidth, 8), Be(expected, 8), rest);
  }

  lemma Flatten3<T>(a: seq<T>, b: seq<T>, c: seq<T>, rest: seq<T>)
    ensures a + (b + (c + rest)) == a + b + c + rest
  {
  }

  lemma Flatten5<T>(a: seq<T>, b: seq<T>, c: seq<T>, d: seq<T>, e: seq<T>, rest: seq<T>)
    ensures a + (b + (c + (d + (e + rest)))) == a + b + c + d + e + rest
  {
    Flatten3(a, b, c, d + (e + rest));
    Flatten3(a + b + c, d, e, rest);
  }

  lemma EncodeDecodeResponse(s: seq<byte>)
    requires DecodeResponse(s).Got?
    ensures var Got(m, rest) := DecodeResponse(s); m.Resp? && Seen(m) == m && s == Encode(m) + rest
  {
    hide Take, Be;
    Widths();
    var Got(status, s1) := Take(1, s);
    var Got(port, s2) := Take(2, s1);
    var Got(length, s3) := Take(2, s2);
    TakeInverse(1, s);
    TakeInverse(2, s1);
    TakeInverse(2, s2);
    Flatten3(Be(status, 1), Be(port, 2), Be(length, 2), s3);
    var r := Response(status, port, s3[..length]);
    assert r.error[..ErrorLength(r)] == r.error && s3 == r.error + s3[length..];
    Flatten3(Be(status, 1) + Be(port, 2), Be(length, 2), r.error, s3[length..]);
  }

  lemma EncodeDecodeReport(s: seq<byte>)
    requires DecodeReport(s).Got?
    ensures var Got(m, rest) := DecodeReport(s); m.Rep? && s == Encode(m) + rest
  {
    hide Take, Be;
    var Got(a, s1) := Take(8, s);
    var Got(b, s2) := Take(8, s1);
    var Got(c, s3) := Take(8, s2);
    var Got(d, s4) := Take(8, s3);
    var Got(e, s5) := Take(8, s4);
    var Got(f, s6) := Take(8, s5);
    var Got(g, s7) := Take(8, s6);
    var Got(h, s8) := Take(8, s7);
    var Got(i, s9) := Take(8, s8);
    var Got(j, rest) := Take(8, s9);
    TakeInverse(8, s);
    TakeInverse(8, s1);
    TakeInverse(8, s2);
    TakeInverse(8, s3);
    TakeInverse(8, s4);
    TakeInverse(8, s5);
    TakeInverse(8, s6);
    TakeInverse(8, s7);
    TakeInverse(8, s8);
    TakeInverse(8, s9);
    Flatten5(Be(a, 8), Be(b, 8), Be(c, 8), Be(d, 8), Be(e, 8), s5);
    var first := Be(a, 8) + Be(b, 8) + Be(c, 8) + Be(d, 8) + Be(e, 8);
    Flatten3(first, Be(f, 8), Be(g, 8), s7);
    Flatten3(first + Be(f, 8) + Be(g, 8), Be(h, 8), Be(i, 8), s9);
    assert s9 == Be(j, 8) + rest;
    assert s == (first + Be(f, 8) + Be(g, 8) + Be(h, 8) + Be(i, 8)) + s9;
  }

  lemma MoreAfterGot(k: Kind, s: seq<byte>, t: seq<byte>)
    requires Decode(k, s).Got?
    ensures Decode(k, s + t) == Got(Decode(k, s).value, Decode(k, s).rest + t)
  {
    hide Decode, Encode;
    EncodeDecode(k, s);
    var m, rest := Decode(k, s).value, Decode(k, s).rest;
    DecodeEncode(m, rest + t);
    assert s + t == Encode(m) + (rest + t);
  }

  /** Only a handshake can be malformed, and more bytes do not repair it. */
  lemma MoreAfterBad(k: Kind, s: seq<byte>, t: seq<byte>)
    requires Decode(k, s).Bad?
    ensures k == AHello && Decode(k, s + t).Bad?
  {
    hide FromBe, Be, Pow256;
    assert (s + t)[..8] == s[..8];
    if s[..8] == MAGIC {
      TakeExtends(1, s[8..], t);
      assert (s + t)[8..] == s[8..] + t;
    }
  }

  /** Bytes that arrive later never change what a reader already decided. */
  lemma DecodeExtends(k: Kind, s: seq<byte>, t: seq<byte>)
    requires !Decode(k, s).NeedMore?
    ensures Decode(k, s).Bad? ==> Decode(k, s + t).Bad?
    ensures Decode(k, s).Got? ==> Decode(k, s + t) == Got(Decode(k, s).value, Decode(k, s).rest + t)
  {
    if Decode(k, s).Got? {
      MoreAfterGot(k, s, t);
    } else {
      MoreAfterBad(k, s, t);
    }
  }

  /** However the stream is fragmented, a message that has not fully arrived is waited for. */
  lemma PartialMessage(m: Msg, s: seq<byte>)
    requires s < Encode(m)
    ensures Decode(KindOf(m), s).NeedMore?
  {
    if !Decode(KindOf(m), s).NeedMore? {
      var t := Encode(m)[|s|..];
      assert s + t == Encode(m) == Encode(m) + [];
      DecodeExtends(KindOf(m), s, t);
      DecodeEncode(m, []);
      assert false;
    }
  }

  // ----- Layouts in figures -----

  /** The bytes of `s` from `at` on are those of `n` in `width` bytes. */
  predicate FieldAt(s: seq<byte>, at: nat, width: nat, n: nat) {
    at + width <= |s| && s[at..at + width] == Be(n, width)
  }

  lemma Slice<T>(a: seq<T>, b: seq<T>, c: seq<T>)
    ensures (a + b + c)[|a|..|a| + |b|] == b
  {
  }

  /** "PROXYBEN", then version 1. */
  lemma HelloLayout()
    ensures Encode(Hello) == [0x50, 0x52, 0x4F, 0x58, 0x59, 0x42, 0x45, 0x4E, 1]
  {
  }

  /** 25 bytes: kind, duration, payload size, bandwidth, expected packets. */
  lemma RequestLayout(r: Request)
    ensures var e := Encode(Req(r));
            && |e| == 25 && FieldAt(e, 0, 1, r.kind) && FieldAt(e, 1, 4, r.durationMs) && FieldAt(e, 5, 4, r.payloadSize)
            && FieldAt(e, 9, 8, r.bandwidthBps) && FieldAt(e, 17, 8, r.expectedPackets)
  {
    hide Be;
    var a, b, c, d, f := Be(r.kind, 1), Be(r.durationMs, 4), Be(r.payloadSize, 4), Be(r.bandwidthBps, 8), Be(r.expectedPackets, 8);
    var e := Encode(Req(r));
    assert e == [] + a + (b + c + d + f) && e == a + b + (c + d + f) && e == a + b + c + (d + f) && e == a + b + c + d + f + [];
    Slice([], a, b + c + d + f);
    Slice(a, b, c + d + f);
    Slice(a + b, c, d + f);
    Slice(a + b + c, d, f);
    Slice(a + b + c + d, f, []);
  }

  /** Status, port, length of the text, then as much of the text as 16 bits can count. */
  lemma ResponseLayout(r: Response)
    ensures var e, n := Encode(Resp(r)), Min(|r.error|, 65535);
            && |e| == 5 + n && FieldAt(e, 0, 1, r.status) && FieldAt(e, 1, 2, r.dataPort) && FieldAt(e, 3, 2, n)
            && e[5..] == r.error[..n]
  {
    hide Be;
    var n := Min(|r.error|, 65535);
    var a, b, c, d := Be(r.status, 1), Be(r.dataPort, 2), Be(n, 2), r.error[..n];
    var e := Encode(Resp(r));
    assert e == [] + a + (b + c + d) && e == a + b + (c + d) && e == a + b + c + d;
    Slice([], a, b + c + d);
    Slice(a, b, c + d);
    Slice(a + b, c, d);
  }

  /** The value of the field of a report that stands at place `i`. */
  function ReportField(r: Report, i: nat): u64
    requires i < 10
  {
    [r.bytes, r.packets, r.maxSeq, r.ooo, r.dup, r.jitterNs, r.latencyMinNs, r.latencyMaxNs, r.latencySumNs, r.durationNs][i]
  }

  /** Ten fields of eight bytes, in the order of their declaration. */
  lemma ReportLayout(r: Report)
    ensures |Encode(Rep(r))| == 80
    ensures forall i: nat :: i < 10 ==> FieldAt(Encode(Rep(r)), 8 * i, 8, ReportField(r, i))
  {
    hide Be;
    var a, b, c, d, f := Be(r.bytes, 8), Be(r.packets, 8), Be(r.maxSeq, 8), Be(r.ooo, 8), Be(r.dup, 8);
    var g, h, i, j, k := Be(r.jitterNs, 8), Be(r.latencyMinNs, 8), Be(r.latencyMaxNs, 8), Be(r.latencySumNs, 8), Be(r.durationNs, 8);
    var e := Encode(Rep(r));
    FiveFields(a, b, c, d, f, g + h + i + j + k);
    Flatten5(g, h, i, j, k, []);
    assert e == a + b + c + d + f + (g + h + i + j + k);
    var first := a + b + c + d + f;
    FiveFields(g, h, i, j, k, []);
    Shifted(first, g + h + i + j + k, e);
  }

  /** The last field of a beginning of `e`. */
  lemma FieldIn<T>(e: seq<T>, begin: seq<T>, x: seq<T>, y: seq<T>)
    requires begin == x + y && begin <= e
    ensures x <= e && e[|x|..|x| + |y|] == y
  {
    assert e[..|begin|] == begin;
    assert e[..|x|] == begin[..|x|] == x;
    assert e[|x|..|x| + |y|] == begin[|x|..] == y;
  }

  lemma FiveFields<T>(a: seq<T>, b: seq<T>, c: seq<T>, d: seq<T>, f: seq<T>, rest: seq<T>)
    requires |a| == |b| == |c| == |d| == |f| == 8
    ensures var e := a + b + c + d + f + rest;
            e[0..8] == a && e[8..16] == b && e[16..24] == c && e[24..32] == d && e[32..40] == f
  {
    var ab := a + b;
    var abc := ab + c;
    var abcd := abc + d;
    var abcdf := abcd + f;
    var e := abcdf + rest;
    FieldIn(e, abcdf, abcd, f);
    FieldIn(e, abcd, abc, d);
    FieldIn(e, abc, ab, c);
    FieldIn(e, ab, a, b);
  }

  lemma Shifted<T>(first: seq<T>, rest: seq<T>, e: seq<T>)
    requires e == first + rest && |first| == 40 && |rest| == 40
    ensures e[40..48] == rest[0..8] && e[48..56] == rest[8..16] && e[56..64] == rest[16..24]
    ensures e[64..72] == rest[24..32] && e[72..80] == rest[32..40]
  {
  }

  // ----- Message streams -----

  /** A way to put messages on a byte stream and to take them off again. */
  datatype Codec = Codec(encode: Msg -> seq<byte>, decode: (Kind, seq<byte>) -> Parse<Msg>)

  /** What a conversation needs of its codec: a message is read back whatever follows it,
      nothing is decided on no bytes, and later bytes change no decision. */
  ghost predicate Faithful(c: Codec) {
    && (forall m, t :: c.decode(KindOf(m), c.encode(m) + t) == Got(Seen(m), t))
    && (forall k :: c.decode(k, []).NeedMore?)
    && (forall k, s, t :: !c.decode(k, s).NeedMore? ==> Extends(c.decode(k, s), c.decode(k, s + t), t))
  }

  predicate Extends(early: Parse<Msg>, late: Parse<Msg>, t: seq<byte>) {
    if early.Got? then late == Got(early.value, early.rest + t) else late == early
  }

  function BenchCodec(): Codec { Codec(m => Encode(m), (k, s) => Decode(k, s)) }

  lemma BenchCodecIsFaithful()
    ensures Faithful(BenchCodec())
  {
    forall m, t
      ensures Decode(KindOf(m), Encode(m) + t) == Got(Seen(m), t)
    {
      DecodeEncode(m, t);
    }
    forall k, s, t | !Decode(k, s).NeedMore?
      ensures Extends(Decode(k, s), Decode(k, s + t), t)
    {
      DecodeExtends(k, s, t);
    }
  }

  function EncodeAll(c: Codec, ms: seq<Msg>): seq<byte> {
    if ms == [] then [] else c.encode(ms[0]) + EncodeAll(c, ms[1..])
  }

  function DecodeAll(c: Codec, ks: seq<Kind>, s: seq<byte>): Parse<seq<Msg>> {
    if ks == [] then Got([], s)
    else
      var (m, s) :- c.decode(ks[0], s);
      var (ms, s) :- DecodeAll(c, ks[1..], s);
      Got([m] + ms, s)
  }

  function Kinds(ms: seq<Msg>): seq<Kind> {
    if ms == [] then [] else [KindOf(ms[0])] + Kinds(ms[1..])
  }

  function AllSeen(ms: seq<Msg>): seq<Msg> {
    if ms == [] then [] else [Seen(ms[0])] + AllSeen(ms[1..])
  }

  /** Any concatenation of messages, read in the order written, comes back message by
      message and consumes exactly the bytes written. */
  lemma {:induction false} StreamRoundTrip(c: Codec, ms: seq<Msg>, t: seq<byte>)
    requires Faithful(c)
    ensures DecodeAll(c, Kinds(ms), EncodeAll(c, ms) + t) == Got(AllSeen(ms), t)
  {
    if ms == [] {
      assert EncodeAll(c, ms) + t == t;
    } else {
      var later := EncodeAll(c, ms[1..]) + t;
      assert EncodeAll(c, ms) + t == c.encode(ms[0]) + later;
      assert c.decode(KindOf(ms[0]), c.encode(ms[0]) + later) == Got(Seen(ms[0]), later);
      StreamRoundTrip(c, ms[1..], t);
    }
  }

  lemma BenchStreamRoundTrip(ms: seq<Msg>, t: seq<byte>)
    ensures DecodeAll(BenchCodec(), Kinds(ms), EncodeAll(BenchCodec(), ms) + t) == Got(AllSeen(ms), t)
  {
    BenchCodecIsFaithful();
    StreamRoundTrip(BenchCodec(), ms, t);
  }
}
