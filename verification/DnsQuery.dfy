/** The A query the resolver sends, and the response a server makes of it. */
module DnsQuery {
  import opened Wire
  import opened Dns

  // ----- Labels of a hostname -----

  /** The parts of a hostname between dots; there is always at least one. */
  function Split(host: seq<byte>): (parts: seq<seq<byte>>)
    ensures |parts| > 0
  {
    if host == [] then [[]]
    else
      var parts := Split(host[1..]);
      if host[0] == DOT then [[]] + parts else [[host[0]] + parts[0]] + parts[1..]
  }

  function Join(parts: seq<seq<byte>>): seq<byte>
    requires |parts| > 0
  {
    if |parts| == 1 then parts[0] else parts[0] + [DOT] + Join(parts[1..])
  }

  /** The parts contain no dot, and joined by dots they are the hostname again. */
  lemma {:induction false} SplitJoin(host: seq<byte>)
    ensures Join(Split(host)) == host && forall l :: l in Split(host) ==> 0x2E !in l
  {
    if host != [] {
      SplitJoin(host[1..]);
      var parts := Split(host[1..]);
      assert parts[0] in parts;
      if host[0] == DOT {
        assert ([[]] + parts)[1..] == parts;
      } else {
        var mine := [[host[0]] + parts[0]] + parts[1..];
        assert mine[1..] == parts[1..];
        assert host == [host[0]] + host[1..];
        forall l | l in mine
          ensures DOT !in l
        {
          if l != mine[0] { assert l in parts; }
        }
      }
    }
  }

  function NonEmpty(parts: seq<seq<byte>>): (r: seq<seq<byte>>)
    ensures forall l :: l in r <==> l in parts && l != []
  {
    if parts == [] then []
    else if parts[0] == [] then NonEmpty(parts[1..])
    else [parts[0]] + NonEmpty(parts[1..])
  }

  /** The labels of a hostname: empty parts are ignored. */
  function Labels(host: seq<byte>): seq<seq<byte>> { NonEmpty(Split(host)) }

  predicate Short(parts: seq<seq<byte>>) { forall l :: l in parts ==> |l| <= MAX_LABEL_LEN }

  predicate LabelsFit(host: seq<byte>) { Short(Split(host)) }

  // ----- The query -----

  function QueryTail(): seq<byte> { Be(TYPE_A, 2) + Be(1, 2) }

  function Query(id: u16, labels: seq<seq<byte>>): seq<byte>
    requires forall l :: l in labels ==> |l| < 256
  {
    EncodeHeader(id, 0x0100, 1, 0, 0, 0) + (EncodeLabels(labels) + [0]) + QueryTail()
  }

  lemma {:induction false} EncodeLabelsAppend(labels: seq<seq<byte>>, l: seq<byte>)
    requires (forall k :: k in labels ==> |k| < 256) && |l| < 256
    ensures EncodeLabels(labels + [l]) == EncodeLabels(labels) + [|l|] + l
  {
    if labels == [] {
      assert labels + [l] == [l];
    } else {
      assert (labels + [l])[1..] == labels[1..] + [l];
      EncodeLabelsAppend(labels[1..], l);
    }
  }

  lemma {:induction false} NonEmptyAppend(parts: seq<seq<byte>>, l: seq<byte>)
    ensures NonEmpty(parts + [l]) == NonEmpty(parts) + if l == [] then [] else [l]
  {
    if parts == [] {
      assert parts + [l] == [l];
    } else {
      assert (parts + [l])[1..] == parts[1..] + [l];
      NonEmptyAppend(parts[1..], l);
    }
  }

  lemma Regroup<T>(h: seq<T>, n: seq<T>, a: seq<T>, b: seq<T>)
    ensures h + n + a + b == h + (n + a + b)
  {
  }

  lemma RegroupQuery<T>(h: seq<T>, n: seq<T>, z: seq<T>, a: seq<T>, b: seq<T>)
    ensures h + n + z + a + b == h + (n + z) + (a + b)
  {
  }

  /** The encoded labels of the first `i` parts. */
  function NameOf(parts: seq<seq<byte>>, i: nat): seq<byte>
    requires i <= |parts| && Short(parts[..i])
  {
    EncodeLabels(NonEmpty(parts[..i]))
  }

  /** One more part adds its length and bytes, or nothing when it is empty. */
  lemma NameGrows(parts: seq<seq<byte>>, i: nat)
    requires i < |parts| && Short(parts[..i]) && |parts[i]| <= MAX_LABEL_LEN
    ensures Short(parts[..i + 1])
    ensures NameOf(parts, i + 1) == NameOf(parts, i) + if parts[i] == [] then [] else [|parts[i]|] + parts[i]
  {
    hide EncodeLabels, NonEmpty;
    var part := parts[i];
    assert parts[..i + 1] == parts[..i] + [part];
    NonEmptyAppend(parts[..i], part);
    if part == [] {
      assert NonEmpty(parts[..i]) + [] == NonEmpty(parts[..i]);
    } else {
      EncodeLabelsAppend(NonEmpty(parts[..i]), part);
      Regroup([], EncodeLabels(NonEmpty(parts[..i])), [|part|], part);
    }
  }

  lemma NoParts(parts: seq<seq<byte>>)
    ensures Short(parts[..0]) && NameOf(parts, 0) == []
  {
  }

  lemma AllParts(parts: seq<seq<byte>>)
    requires Short(parts[..|parts|])
    ensures Short(parts) && NameOf(parts, |parts|) == EncodeLabels(NonEmpty(parts))
  {
    assert parts[..|parts|] == parts;
  }

  lemma OneTooLong(parts: seq<seq<byte>>, i: nat)
    requires i < |parts| && |parts[i]| > MAX_LABEL_LEN
    ensures !Short(parts)
  {
    assert parts[i] in parts;
  }

  lemma WhatLabelsFit(host: seq<byte>)
    ensures LabelsFit(host) <==> forall l :: l in Split(host) ==> |l| <= 63
  {
  }

  /** A standard query with recursion desired, one question and no records, that ends in type 1,
      class 1. */
  predicate AsksForAddress(q: seq<byte>, id: u16) {
    && |q| >= 17 && U16At(q, 0) == id && U16At(q, 2) == 0x0100 && U16At(q, 4) == 1
    && U16At(q, 6) == U16At(q, 8) == U16At(q, 10) == 0
    && U16At(q, |q| - 4) == 1 && U16At(q, |q| - 2) == 1
  }

  lemma QueryFields(id: u16, labels: seq<seq<byte>>)
    requires forall l :: l in labels ==> |l| < 256
    ensures AsksForAddress(Query(id, labels), id)
  {
    hide At, Be, U16At, EncodeLabels;
    var q, name := Query(id, labels), EncodeLabels(labels) + [0];
    var header := EncodeHeader(id, 0x0100, 1, 0, 0, 0);
    WholeIsAt(q);
    AtSplit(q, 0, header + name, QueryTail());
    AtSplit(q, 0, header, name);
    HeaderFields(q, id, 0x0100, 1, 0, 0, 0);
    AtSplit(q, 0, Be(id, 2) + Be(0x0100, 2) + Be(1, 2) + Be(0, 2) + Be(0, 2), Be(0, 2));
    AtSplit(q, 0, Be(id, 2) + Be(0x0100, 2) + Be(1, 2) + Be(0, 2), Be(0, 2));
    U16Value(q, 8, 0);
    U16Value(q, 10, 0);
    AtSplit(q, |q| - 4, Be(1, 2), Be(1, 2));
    U16Value(q, |q| - 4, 1);
    U16Value(q, |q| - 2, 1);
  }

  /** The query for "a..bc.", byte by byte. */
  method SampleQuery() returns (r: Result<seq<byte>, DnsError>)
    ensures r == Ok([0x12, 0x34, 1, 0, 0, 1, 0, 0, 0, 0, 0, 0, 1, 0x61, 2, 0x62, 0x63, 0, 0, 1, 0, 1])
  {
    var host: seq<byte> := [0x61, 0x2E, 0x2E, 0x62, 0x63, 0x2E];
    r := EncodeQuery(0x1234, host);
    SampleLabels();
    SampleBytes();
  }

  lemma SampleLabels()
    ensures Split([0x61, 0x2E, 0x2E, 0x62, 0x63, 0x2E]) == [[0x61], [], [0x62, 0x63], []]
    ensures Labels([0x61, 0x2E, 0x2E, 0x62, 0x63, 0x2E]) == [[0x61], [0x62, 0x63]]
  {
    hide Split, NonEmpty;
    SplitNothing();
    SplitTo([0x2E], [], [[]], [[], []]);
    SplitTo([0x63, 0x2E], [0x2E], [[], []], [[0x63], []]);
    SplitTo([0x62, 0x63, 0x2E], [0x63, 0x2E], [[0x63], []], [[0x62, 0x63], []]);
    SplitTo([0x2E, 0x62, 0x63, 0x2E], [0x62, 0x63, 0x2E], [[0x62, 0x63], []], [[], [0x62, 0x63], []]);
    SplitTo([0x2E, 0x2E, 0x62, 0x63, 0x2E], [0x2E, 0x62, 0x63, 0x2E], [[], [0x62, 0x63], []], [[], [], [0x62, 0x63], []]);
    SplitTo([0x61, 0x2E, 0x2E, 0x62, 0x63, 0x2E], [0x2E, 0x2E, 0x62, 0x63, 0x2E], [[], [], [0x62, 0x63], []],
            [[0x61], [], [0x62, 0x63], []]);
    SampleNonEmpty();
  }

  lemma SampleNonEmpty()
    ensures NonEmpty([[0x61], [], [0x62, 0x63], []]) == [[0x61], [0x62, 0x63]]
  {
    hide NonEmpty;
    SplitNothing();
    NonEmptyTo([[]], [], [], []);
    NonEmptyTo([[0x62, 0x63], []], [[]], [], [[0x62, 0x63]]);
    NonEmptyTo([[], [0x62, 0x63], []], [[0x62, 0x63], []], [[0x62, 0x63]], [[0x62, 0x63]]);
    NonEmptyTo([[0x61], [], [0x62, 0x63], []], [[], [0x62, 0x63], []], [[0x62, 0x63]], [[0x61], [0x62, 0x63]]);
  }

  lemma SplitNothing()
    ensures Split([]) == [[]] && NonEmpty([]) == []
  {
  }

  lemma SplitTo(host: seq<byte>, rest: seq<byte>, parts: seq<seq<byte>>, all: seq<seq<byte>>)
    requires host != [] && rest == host[1..] && parts != [] && Split(rest) == parts
    requires host[0] == 0x2E ==> all == [[]] + parts
    requires host[0] != 0x2E ==> |all| == |parts| && all[0] == [host[0]] + parts[0] && all[1..] == parts[1..]
    ensures Split(host) == all
  {
    if host[0] != 0x2E {
      assert all == [all[0]] + all[1..];
    }
  }

  lemma NonEmptyTo(parts: seq<seq<byte>>, rest: seq<seq<byte>>, labels: seq<seq<byte>>, all: seq<seq<byte>>)
    requires parts != [] && rest == parts[1..] && NonEmpty(rest) == labels
    requires all == (if parts[0] == [] then [] else [parts[0]]) + labels
    ensures NonEmpty(parts) == all
  {
  }

  lemma SampleBytes()
    ensures Query(0x1234, [[0x61], [0x62, 0x63]])
         == [0x12, 0x34, 1, 0, 0, 1, 0, 0, 0, 0, 0, 0, 1, 0x61, 2, 0x62, 0x63, 0, 0, 1, 0, 1]
  {
    hide EncodeLabels, EncodeHeader, QueryTail;
    TwoLabels();
    SampleEnds();
    assert [1, 0x61, 2, 0x62, 0x63] + [0] == [1, 0x61, 2, 0x62, 0x63, 0];
  }

  lemma SampleEnds()
    ensures EncodeHeader(0x1234, 0x0100, 1, 0, 0, 0) == [0x12, 0x34, 1, 0, 0, 1, 0, 0, 0, 0, 0, 0]
    ensures QueryTail() == [0, 1, 0, 1]
  {
    hide Be;
    TwoBytes(0x1234);
    TwoBytes(0x0100);
    TwoBytes(1);
    TwoBytes(0);
  }

  lemma TwoLabels()
    ensures EncodeLabels([[0x61], [0x62, 0x63]]) == [1, 0x61, 2, 0x62, 0x63]
  {
    var labels: seq<seq<byte>> := [[0x61], [0x62, 0x63]];
    assert labels[1..] == [[0x62, 0x63]] && labels[1..][1..] == [];
    assert EncodeLabels(labels[1..]) == [2, 0x62, 0x63] + [];
  }

  lemma TwoBytes(x: u16)
    ensures Be(x, 2) == [x / 256, x % 256]
  {
  }

  /** Builds the query byte by byte; a label over 63 bytes is refused. */
  method EncodeQuery(id: u16, host: seq<byte>) returns (r: Result<seq<byte>, DnsError>)
    ensures r == if forall l :: l in Split(host) ==> |l| <= 63 then Ok(Query(id, Labels(host))) else Err(LabelTooLong)
    ensures r.Ok? ==> AsksForAddress(r.value, id)
  {
    hide Be, EncodeLabels, NonEmpty, NameOf, Short, AsksForAddress;
    var header := Be(id, 2) + Be(0x0100, 2) + Be(1, 2) + Be(0, 2) + Be(0, 2) + Be(0, 2);
    var buf := header;
    var parts := Split(host);
    NoParts(parts);
    for i := 0 to |parts|
      invariant Short(parts[..i]) && buf == header + NameOf(parts, i)
    {
      var part := parts[i];
      if part == [] {
        NameGrows(parts, i);
        assert NameOf(parts, i) + [] == NameOf(parts, i);
        continue;
      }
      if |part| > MAX_LABEL_LEN {
        OneTooLong(parts, i);
        WhatLabelsFit(host);
        return Err(LabelTooLong);
      }
      NameGrows(parts, i);
      Regroup(header, NameOf(parts, i), [|part|], part);
      buf := buf + [|part|];
      buf := buf + part;
    }
    AllParts(parts);
    ghost var name := NameOf(parts, |parts|);
    buf := buf + [0];
    buf := buf + Be(TYPE_A, 2);
    buf := buf + Be(1, 2);
    RegroupQuery(header, name, [0], Be(TYPE_A, 2), Be(1, 2));
    WhatLabelsFit(host);
    QueryFields(id, Labels(host));
    r := Ok(buf);
  }

  // ----- Laws of the query -----

  lemma {:induction false} PartsFit(parts: seq<seq<byte>>)
    requires |parts| > 0 && forall l :: l in parts ==> |l| < 256
    ensures |EncodeLabels(NonEmpty(parts))| <= |Join(parts)| + 1
  {
    if |parts| > 1 {
      PartsFit(parts[1..]);
    } else {
      assert parts == [parts[0]] && NonEmpty(parts[1..]) == [];
    }
    if parts[0] != [] {
      assert NonEmpty(parts)[1..] == NonEmpty(parts[1..]);
    }
  }

  /** The query names exactly the nonempty labels of the hostname, its name ends four bytes
      before the end, and it is at most 18 bytes longer than the hostname. */
  lemma QueryRoundTrip(id: u16, host: seq<byte>)
    requires LabelsFit(host)
    ensures var q := Query(id, Labels(host));
            && ParseName(q, 12) == Some((Name(Labels(host), Root), |q| - 4)) && SkipName(q, 12) == Ok(|q| - 4)
            && |q| <= |host| + 18
  {
    hide Query, At, EncodeName, ParseName, SkipName, Split, Join;
    var q, name := Query(id, Labels(host)), Name(Labels(host), Root);
    SplitJoin(host);
    PartsFit(Split(host));
    NameStandsInQuery(id, Labels(host));
    NameIsParsed(q, HEADER_LEN, name);
    NameIsSkipped(q, HEADER_LEN, name);
  }

  lemma NameStandsInQuery(id: u16, labels: seq<seq<byte>>)
    requires forall l :: l in labels ==> 0 < |l| <= MAX_LABEL_LEN
    ensures var name := Name(labels, Root);
            && WfName(name) && EncodeName(name) == EncodeLabels(labels) + [0]
            && At(Query(id, labels), HEADER_LEN, EncodeName(name))
            && |Query(id, labels)| == HEADER_LEN + |EncodeName(name)| + 4
  {
    var header, name, q := EncodeHeader(id, 0x0100, 1, 0, 0, 0), Name(labels, Root), Query(id, labels);
    WholeIsAt(q);
    AtSplit(q, 0, header + EncodeName(name), QueryTail());
    AtSplit(q, 0, header, EncodeName(name));
  }

  /** What a server makes of a query: its own flags, one answer, and the answer itself, whose
      name points at offset 12. */
  function Answered(query: seq<byte>, flags: u16, ttl: seq<byte>, ip: seq<byte>): seq<byte>
    requires |query| >= HEADER_LEN
  {
    query[..2] + Be(flags, 2) + query[4..6] + Be(1, 2) + query[8..]
    + ([0xC0, 0x0C] + (Be(1, 2) + (Be(1, 2) + ttl) + Be(4, 2)) + ip)
  }

  lemma HeaderSlices<T>(a: seq<T>, b: seq<T>, c: seq<T>, d: seq<T>, e: seq<T>, f: seq<T>, rest: seq<T>)
    requires |a| == |b| == |c| == |d| == |e| == |f| == 2
    ensures var q := a + b + c + d + e + f + rest;
            q[..2] == a && q[4..6] == c && q[8..] == e + f + rest
  {
    var q := a + b + c + d + e + f + rest;
    assert q == a + (b + (c + (d + (e + f + rest))));
  }

  lemma RegroupAnswered<T>(a: seq<T>, b: seq<T>, c: seq<T>, d: seq<T>, e: seq<T>, f: seq<T>, q: seq<T>, r: seq<T>)
    ensures a + b + c + d + (e + f + q) + r == a + b + c + d + e + f + q + r
  {
  }

  lemma OneQuestion(labels: seq<seq<byte>>)
    requires forall l :: l in labels ==> 0 < |l| <= MAX_LABEL_LEN
    ensures var q := Question(Name(labels, Root), QueryTail());
            WfQuestion(q) && EncodeQuestions([q]) == EncodeLabels(labels) + [0] + QueryTail()
  {
    hide EncodeLabels;
    var q := Question(Name(labels, Root), QueryTail());
    assert [q][1..] == [];
    assert EncodeQuestions([q]) == EncodeQuestion(q) + [];
  }

  lemma OneAnswer(ttl: seq<byte>, ip: seq<byte>)
    requires |ttl| == 4 && |ip| == 4
    ensures var a := Record(Name([], Pointer(0xC0, 0x0C)), TYPE_A, Be(1, 2) + ttl, ip);
            && WfRecord(a) && IsA(a) && FirstA([a]) == Ok(ip)
            && EncodeRecords([a]) == [0xC0, 0x0C] + (Be(TYPE_A, 2) + (Be(1, 2) + ttl) + Be(4, 2)) + ip
  {
    hide Be;
    var a := Record(Name([], Pointer(0xC0, 0x0C)), TYPE_A, Be(1, 2) + ttl, ip);
    assert EncodeName(a.name) == [0xC0, 0x0C];
    assert [a][1..] == [];
    assert EncodeRecords([a]) == EncodeRecord(a) + [];
  }

  /** A query answered with one address decodes to that address. */
  lemma AnsweredQueryDecodes(id: u16, host: seq<byte>, flags: u16, ttl: seq<byte>, ip: seq<byte>)
    requires LabelsFit(host) && flags % 16 == 0 && |ttl| == 4 && |ip| == 4
    ensures DecodeAResponse(id, Answered(Query(id, Labels(host)), flags, ttl, ip)) == Ok(ip)
  {
    hide Be, EncodeLabels, EncodeQuestions, EncodeRecords, FirstA, WfQuestion, WfRecord, NonEmpty;
    var labels := Labels(host);
    var q := Question(Name(labels, Root), QueryTail());
    var a := Record(Name([], Pointer(0xC0, 0x0C)), TYPE_A, Be(1, 2) + ttl, ip);
    var questions := EncodeLabels(labels) + [0] + QueryTail();
    OneQuestion(labels);
    OneAnswer(ttl, ip);
    HeaderSlices(Be(id, 2), Be(0x0100, 2), Be(1, 2), Be(0, 2), Be(0, 2), Be(0, 2), questions);
    RegroupTail(EncodeHeader(id, 0x0100, 1, 0, 0, 0), EncodeLabels(labels) + [0], QueryTail());
    RegroupAnswered(Be(id, 2), Be(flags, 2), Be(1, 2), Be(1, 2), Be(0, 2), Be(0, 2), questions, EncodeRecords([a]));
    SerializedResponseDecodes(id, flags, [q], [a], 0, 0, []);
    assert EncodeHeader(id, flags, 1, 1, 0, 0) + EncodeQuestions([q]) + EncodeRecords([a]) + []
        == Answered(Query(id, labels), flags, ttl, ip);
  }

  lemma RegroupTail<T>(h: seq<T>, n: seq<T>, t: seq<T>)
    ensures h + n + t == h + (n + t)
  {
  }
}
