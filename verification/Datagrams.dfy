/** The header every benchmark datagram starts with: sequence number and send time. */
module Datagrams {
  import opened Wire

  const UDP_HEADER_LEN := 16

  /** Overwrites the first 16 bytes of `buf` and nothing else. */
  method EncodeUdpHeader(buf: array<byte>, seqNo: u64, sendNs: u64)
    requires buf.Length >= UDP_HEADER_LEN
    modifies buf
    ensures buf[..] == Be(seqNo, 8) + Be(sendNs, 8) + old(buf[16..])
  {
    var first, second := Be(seqNo, 8), Be(sendNs, 8);
    forall i | 0 <= i < 8 {
      buf[i] := first[i];
    }
    forall i | 8 <= i < 16 {
      buf[i] := second[i - 8];
    }
  }

  function DecodeUdpHeader(buf: seq<byte>): Option<(u64, u64)> {
    if |buf| < UDP_HEADER_LEN then None
    else
      FromBeRoundTrip(buf[..8]);
      FromBeRoundTrip(buf[8..16]);
      Widths();
      Some((FromBe(buf[..8]), FromBe(buf[8..16])))
  }

  /** What was put in the header comes out of it, whatever payload follows. */
  lemma HeaderRoundTrip(seqNo: u64, sendNs: u64, payload: seq<byte>)
    ensures DecodeUdpHeader(Be(seqNo, 8) + Be(sendNs, 8) + payload) == Some((seqNo, sendNs))
  {
    Widths();
    BeRoundTrip(seqNo, 8);
    BeRoundTrip(sendNs, 8);
    var buf := Be(seqNo, 8) + Be(sendNs, 8) + payload;
    assert buf[..8] == Be(seqNo, 8) && buf[8..16] == Be(sendNs, 8);
  }

  /** Exactly the datagrams of 16 bytes or more have a header, and it is determined by what it
      decodes to. */
  lemma HeaderInverse(buf: seq<byte>)
    ensures DecodeUdpHeader(buf).Some? <==> |buf| >= 16
    ensures |buf| >= 16 ==>
              var Some((seqNo, sendNs)) := DecodeUdpHeader(buf); buf == Be(seqNo, 8) + Be(sendNs, 8) + buf[16..]
  {
    if |buf| < 16 {
      return;
    }
    FromBeRoundTrip(buf[..8]);
    FromBeRoundTrip(buf[8..16]);
  }
}
