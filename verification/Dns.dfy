/** The A-record resolver's wire format, sections 4.1.1 to 4.1.4 of RFC 1035. */
module Dns {
  import opened Wire

  datatype DnsError =
    | LabelTooLong | TooShort | IdMismatch | Rcode(code: nat) | NoAnswers
    | NameTruncated | PointerTruncated | QuestionTruncated | AnswerTruncated | RdataTruncated
    | NoARecord

  const MAX_LABEL_LEN := 63
  const HEADER_LEN := 12
  const DOT: byte := 0x2E
  const TYPE_A: u16 := 1

  // ----- Names -----

  /** A name on the wire: labels, then the root or a compression pointer. */
  datatype NameEnd = Root | Pointer(hi: byte, lo: byte)

  datatype Name = Name(labels: seq<seq<byte>>, end: NameEnd)

  /** Two set top bits mark a pointer, so a label is shorter than 192 bytes; conforming ones
      have at most 63. */
  ghost predicate WfName(n: Name) {
    && (forall l :: l in n.labels ==> 0 < |l| < 192)
    && (n.end.Pointer? ==> n.end.hi >= 192)
  }

  function EncodeLabels(labels: seq<seq<byte>>): seq<byte>
    requires forall l :: l in labels ==> |l| < 256
  {
    if labels == [] then [] else [|labels[0]|] + labels[0] + EncodeLabels(labels[1..])
  }

  function EncodeEnd(e: NameEnd): seq<byte> {
    match e
    case Root => [0]
    case Pointer(hi, lo) => [hi, lo]
  }

  ghost function EncodeName(n: Name): seq<byte>
    requires WfName(n)
  {
    EncodeLabels(n.labels) + EncodeEnd(n.end)
  }

  /** `buf` has the bytes `s` at `pos`. */
  predicate At(buf: seq<byte>, pos: nat, s: seq<byte>) {
    pos + |s| <= |buf| && buf[pos..pos + |s|] == s
  }

  lemma AtSplit(buf: seq<byte>, pos: nat, s: seq<byte>, t: seq<byte>)
    ensures At(buf, pos, s + t) <==> At(buf, pos, s) && At(buf, pos + |s|, t)
  {
    if pos + |s + t| <= |buf| {
      var part := buf[pos..pos + |s + t|];
      assert part[..|s|] == buf[pos..pos + |s|] && part[|s|..] == buf[pos + |s|..pos + |s| + |t|];
      assert part == part[..|s|] + part[|s|..];
      assert (s + t)[..|s|] == s && (s + t)[|s|..] == t;
    }
  }

  /** The position after the name at `pos`. */
  function SkipName(buf: seq<byte>, pos: nat): (r: Result<nat, DnsError>)
    ensures r.Ok? ==> pos < r.value <= |buf|
    decreases |buf| - pos
  {
    if pos >= |buf| then Err(NameTruncated)
    else if buf[pos] == 0 then Ok(pos + 1)
    else if buf[pos] >= 192 then if pos + 1 >= |buf| then Err(PointerTruncated) else Ok(pos + 2)
    else SkipName(buf, pos + 1 + buf[pos])
  }

  /** The name at `pos`, where there is one. */
  function ParseName(buf: seq<byte>, pos: nat): Option<(Name, nat)>
    decreases |buf| - pos
  {
    if pos >= |buf| then None
    else if buf[pos] == 0 then Some((Name([], Root), pos + 1))
    else if buf[pos] >= 192 then
      if pos + 1 >= |buf| then None else Some((Name([], Pointer(buf[pos], buf[pos + 1])), pos + 2))
    else if pos + 1 + buf[pos] >= |buf| then None
    else
      match ParseName(buf, pos + 1 + buf[pos])
      case None => None
      case Some((n, p)) => Some((n.(labels := [buf[pos + 1..pos + 1 + buf[pos]]] + n.labels), p))
  }

  /** Skipping is parsing without keeping the name. */
  lemma {:induction false} SkipIsParse(buf: seq<byte>, pos: nat)
    ensures SkipName(buf, pos).Ok? <==> ParseName(buf, pos).Some?
    ensures SkipName(buf, pos).Ok? ==> ParseName(buf, pos).value.1 == SkipName(buf, pos).value
    decreases |buf| - pos
  {
    if pos < |buf| && 0 < buf[pos] < 192 {
      SkipIsParse(buf, pos + 1 + buf[pos]);
    }
  }

  lemma EndEncoded(e: NameEnd)
    requires WfName(Name([], e))
    ensures EncodeName(Name([], e)) == EncodeEnd(e)
  {
  }

  lemma OneByteAt(buf: seq<byte>, pos: nat, x: byte)
    requires pos < |buf| && buf[pos] == x
    ensures At(buf, pos, [x])
  {
  }

  lemma TwoBytesAt(buf: seq<byte>, pos: nat, x: byte, y: byte)
    requires pos + 1 < |buf| && buf[pos] == x && buf[pos + 1] == y
    ensures At(buf, pos, [x, y])
  {
    assert buf[pos..pos + 2] == [x, y];
  }

  lemma RootParsed(buf: seq<byte>, pos: nat)
    requires pos < |buf| && buf[pos] == 0
    ensures ParseName(buf, pos) == Some((Name([], Root), pos + 1)) && WfName(Name([], Root))
  {
  }

  lemma PointerParsed(buf: seq<byte>, pos: nat)
    requires pos < |buf| && buf[pos] >= 192 && ParseName(buf, pos).Some?
    ensures pos + 1 < |buf| && WfName(Name([], Pointer(buf[pos], buf[pos + 1])))
    ensures ParseName(buf, pos) == Some((Name([], Pointer(buf[pos], buf[pos + 1])), pos + 2))
  {
  }

  lemma PositionOfName(buf: seq<byte>, pos: nat)
    requires ParseName(buf, pos).Some?
    ensures pos < |buf|
  {
  }

  lemma ParsedEndIsThere(buf: seq<byte>, pos: nat)
    requires ParseName(buf, pos).Some? && pos < |buf| && !(0 < buf[pos] < 192)
    ensures var (n, p) := ParseName(buf, pos).value;
            WfName(n) && p == pos + |EncodeName(n)| && At(buf, pos, EncodeName(n))
  {
    hide EncodeName, ParseName, At, WfName;
    if buf[pos] == 0 {
      RootParsed(buf, pos);
      EndEncoded(Root);
      OneByteAt(buf, pos, 0);
    } else {
      PointerParsed(buf, pos);
      EndEncoded(Pointer(buf[pos], buf[pos + 1]));
      TwoBytesAt(buf, pos, buf[pos], buf[pos + 1]);
    }
  }

  lemma LabelIsThere(buf: seq<byte>, pos: nat, l: seq<byte>)
    requires pos + 1 + |l| <= |buf| && buf[pos] == |l| && l == buf[pos + 1..pos + 1 + |l|]
    ensures At(buf, pos, [|l|] + l)
  {
  }

  /** A parsed name is well formed and stands in the buffer. */
  lemma {:induction false} ParsedNameIsThere(buf: seq<byte>, pos: nat)
    requires ParseName(buf, pos).Some?
    ensures var (n, p) := ParseName(buf, pos).value;
            WfName(n) && p == pos + |EncodeName(n)| && At(buf, pos, EncodeName(n))
    decreases |buf| - pos
  {
    hide At, EncodeName, EncodeLabels, WfName;
    PositionOfName(buf, pos);
    if 0 < buf[pos] < 192 {
      var l := buf[pos + 1..pos + 1 + buf[pos]];
      ParsedNameIsThere(buf, pos + 1 + buf[pos]);
      var (later, _) := ParseName(buf, pos + 1 + buf[pos]).value;
      ConsLabel(l, later);
      LabelIsThere(buf, pos, l);
      AtSplit(buf, pos, [|l|] + l, EncodeName(later));
    } else {
      ParsedEndIsThere(buf, pos);
    }
  }

  lemma ConsLabel(l: seq<byte>, later: Name)
    requires 0 < |l| < 192 && WfName(later)
    ensures var n := later.(labels := [l] + later.labels);
            WfName(n) && EncodeName(n) == [|l|] + l + EncodeName(later)
  {
    assert ([l] + later.labels)[1..] == later.labels;
  }

  lemma FirstLabel(buf: seq<byte>, pos: nat, l: seq<byte>, t: seq<byte>)
    requires 0 < |l| < 192 && At(buf, pos, [|l|] + l + t) && t != []
    ensures pos + 1 + |l| < |buf| && buf[pos] == |l| && buf[pos + 1..pos + 1 + |l|] == l
    ensures At(buf, pos + 1 + |l|, t)
  {
    AtSplit(buf, pos, [|l|] + l, t);
    AtSplit(buf, pos, [|l|], l);
    assert buf[pos] == buf[pos..pos + 1][0];
  }

  /** A well-formed name is parsed back, wherever it stands. */
  lemma {:induction false} NameIsParsed(buf: seq<byte>, pos: nat, n: Name)
    requires WfName(n) && At(buf, pos, EncodeName(n))
    ensures ParseName(buf, pos) == Some((n, pos + |EncodeName(n)|))
    decreases |n.labels|
  {
    hide At, EncodeName, EncodeLabels, ParseName;
    if n.labels == [] {
      EndIsParsed(buf, pos, n.end);
    } else {
      var l, later := n.labels[0], n.(labels := n.labels[1..]);
      assert n.labels == [l] + later.labels;
      ConsLabel(l, later);
      SomeEnd(later);
      FirstLabel(buf, pos, l, EncodeName(later));
      NameIsParsed(buf, pos + 1 + |l|, later);
      ParseLabel(buf, pos);
    }
  }

  lemma SomeEnd(n: Name)
    requires WfName(n)
    ensures EncodeName(n) != []
  {
  }

  lemma ParseLabel(buf: seq<byte>, pos: nat)
    requires pos < |buf| && 0 < buf[pos] < 192 && pos + 1 + buf[pos] < |buf|
    requires ParseName(buf, pos + 1 + buf[pos]).Some?
    ensures var (n, p) := ParseName(buf, pos + 1 + buf[pos]).value;
            ParseName(buf, pos) == Some((n.(labels := [buf[pos + 1..pos + 1 + buf[pos]]] + n.labels), p))
  {
  }

  lemma EndIsParsed(buf: seq<byte>, pos: nat, e: NameEnd)
    requires WfName(Name([], e)) && At(buf, pos, EncodeName(Name([], e)))
    ensures ParseName(buf, pos) == Some((Name([], e), pos + |EncodeName(Name([], e))|))
  {
    var s := EncodeEnd(e);
    EndEncoded(e);
    var part := buf[pos..pos + |s|];
    assert buf[pos] == part[0];
    if e.Pointer? {
      assert buf[pos + 1] == part[1];
    }
  }

  lemma NameIsSkipped(buf: seq<byte>, pos: nat, n: Name)
    requires WfName(n) && At(buf, pos, EncodeName(n))
    ensures SkipName(buf, pos) == Ok(pos + |EncodeName(n)|)
  {
    hide SkipName, ParseName, EncodeName, At, WfName;
    NameIsParsed(buf, pos, n);
    SkipIsParse(buf, pos);
  }

  /** The cursor loop over the labels of a name. */
  method SkipNameLoop(buf: seq<byte>, start: nat) returns (r: Result<nat, DnsError>)
    ensures r == SkipName(buf, start)
  {
    var pos := start;
    while true
      invariant SkipName(buf, start) == SkipName(buf, pos)
      decreases |buf| - pos
    {
      if pos >= |buf| {
        return Err(NameTruncated);
      }
      var len := buf[pos];
      if len == 0 {
        return Ok(pos + 1);
      }
      if len >= 192 {
        if pos + 1 >= |buf| {
          return Err(PointerTruncated);
        }
        return Ok(pos + 2);
      }
      pos := pos + 1 + len;
    }
  }

  // ----- Responses -----

  /** The position after `n` questions. */
  function SkipQuestions(buf: seq<byte>, pos: nat, n: nat): Result<nat, DnsError>
    decreases n
  {
    if n == 0 then Ok(pos)
    else
      match SkipName(buf, pos)
      case Err(e) => Err(e)
      case Ok(p) => if p + 4 > |buf| then Err(QuestionTruncated) else SkipQuestions(buf, p + 4, n - 1)
  }

  /** The address in the first of `n` answers that is an A record. */
  function FindA(buf: seq<byte>, pos: nat, n: nat): Result<seq<byte>, DnsError>
    decreases n
  {
    if n == 0 then Err(NoARecord)
    else
      match SkipName(buf, pos)
      case Err(e) => Err(e)
      case Ok(p) =>
        if p + 10 > |buf| then Err(AnswerTruncated)
        else
          var rdlength := U16At(buf, p + 8);
          if p + 10 + rdlength > |buf| then Err(RdataTruncated)
          else if U16At(buf, p) == TYPE_A && rdlength == 4 then Ok(buf[p + 10..p + 14])
          else FindA(buf, p + 10 + rdlength, n - 1)
  }

  function DecodeAResponse(expectedId: u16, buf: seq<byte>): Result<seq<byte>, DnsError> {
    if |buf| < HEADER_LEN then Err(TooShort)
    else if U16At(buf, 0) != expectedId then Err(IdMismatch)
    else if U16At(buf, 2) % 16 != 0 then Err(Rcode(U16At(buf, 2) % 16))
    else if U16At(buf, 6) == 0 then Err(NoAnswers)
    else
      match SkipQuestions(buf, HEADER_LEN, U16At(buf, 4))
      case Err(e) => Err(e)
      case Ok(p) => FindA(buf, p, U16At(buf, 6))
  }

  /** The resolver's decoder: every index it uses is in bounds, on any bytes. */
  method DecodeAResponseLoop(expectedId: u16, buf: seq<byte>) returns (r: Result<seq<byte>, DnsError>)
    ensures r == DecodeAResponse(expectedId, buf)
  {
    hide SkipName, U16At;
    if |buf| < HEADER_LEN {
      return Err(TooShort);
    }
    if U16At(buf, 0) != expectedId {
      return Err(IdMismatch);
    }
    var rcode := U16At(buf, 2) % 16;
    if rcode != 0 {
      return Err(Rcode(rcode));
    }
    var qd, an := U16At(buf, 4), U16At(buf, 6);
    if an == 0 {
      return Err(NoAnswers);
    }
    var pos: nat := HEADER_LEN;
    for i := 0 to qd
      invariant SkipQuestions(buf, HEADER_LEN, qd) == SkipQuestions(buf, pos, qd - i)
    {
      var skipped := SkipNameLoop(buf, pos);
      if skipped.Err? {
        return Err(skipped.error);
      }
      if skipped.value + 4 > |buf| {
        return Err(QuestionTruncated);
      }
      pos := skipped.value + 4;
    }
    ghost var answers := pos;
    for i := 0 to an
      invariant SkipQuestions(buf, HEADER_LEN, qd) == Ok(answers)
      invariant FindA(buf, answers, an) == FindA(buf, pos, an - i)
    {
      var skipped := SkipNameLoop(buf, pos);
      if skipped.Err? {
        return Err(skipped.error);
      }
      pos := skipped.value;
      if pos + 10 > |buf| {
        return Err(AnswerTruncated);
      }
      var rtype := U16At(buf, pos);
      var rdlength := U16At(buf, pos + 8);
      pos := pos + 10;
      if pos + rdlength > |buf| {
        return Err(RdataTruncated);
      }
      if rtype == TYPE_A && rdlength == 4 {
        return Ok(buf[pos..pos + 4]);
      }
      pos := pos + rdlength;
    }
    r := Err(NoARecord);
  }

  // ----- Messages -----

  /** A question: its name, then type and class. */
  datatype Question = Question(name: Name, typeClass: seq<byte>)

  /** A resource record; `classTtl` are the six bytes between type and length. */
  datatype Record = Record(name: Name, rtype: u16, classTtl: seq<byte>, rdata: seq<byte>)

  ghost predicate WfQuestion(q: Question) { WfName(q.name) && |q.typeClass| == 4 }

  ghost predicate WfRecord(r: Record) {
    WfName(r.name) && |r.classTtl| == 6 && |r.rdata| <= U16_MAX
  }

  predicate IsA(r: Record) { r.rtype == 1 && |r.rdata| == 4 }

  ghost function EncodeQuestion(q: Question): seq<byte>
    requires WfQuestion(q)
  {
    EncodeName(q.name) + q.typeClass
  }

  ghost function RecordHead(r: Record): seq<byte>
    requires WfRecord(r)
  {
    Be(r.rtype, 2) + r.classTtl + Be(|r.rdata|, 2)
  }

  ghost function EncodeRecord(r: Record): seq<byte>
    requires WfRecord(r)
  {
    EncodeName(r.name) + RecordHead(r) + r.rdata
  }

  ghost function EncodeQuestions(qs: seq<Question>): seq<byte>
    requires forall q :: q in qs ==> WfQuestion(q)
  {
    if qs == [] then [] else EncodeQuestion(qs[0]) + EncodeQuestions(qs[1..])
  }

  ghost function EncodeRecords(rs: seq<Record>): seq<byte>
    requires forall r :: r in rs ==> WfRecord(r)
  {
    if rs == [] then [] else EncodeRecord(rs[0]) + EncodeRecords(rs[1..])
  }

  function EncodeHeader(id: u16, flags: u16, qd: u16, an: u16, ns: u16, ar: u16): (s: seq<byte>)
    ensures |s| == HEADER_LEN
  {
    Be(id, 2) + Be(flags, 2) + Be(qd, 2) + Be(an, 2) + Be(ns, 2) + Be(ar, 2)
  }

  /** The address of the first A record. */
  function FirstA(rs: seq<Record>): Result<seq<byte>, DnsError> {
    if rs == [] then Err(NoARecord) else if IsA(rs[0]) then Ok(rs[0].rdata) else FirstA(rs[1..])
  }

  lemma U16Value(buf: seq<byte>, pos: nat, x: u16)
    ensures At(buf, pos, Be(x, 2)) <==> pos + 2 <= |buf| && U16At(buf, pos) == x
  {
    assert Be(x, 2) == [x / 256, x % 256];
    if pos + 2 <= |buf| {
      assert buf[pos..pos + 2] == [buf[pos], buf[pos + 1]];
    }
  }

  lemma QuestionIsSkipped(buf: seq<byte>, pos: nat, q: Question, n: nat)
    requires WfQuestion(q) && At(buf, pos, EncodeQuestion(q)) && n > 0
    ensures SkipQuestions(buf, pos, n) == SkipQuestions(buf, pos + |EncodeQuestion(q)|, n - 1)
  {
    hide At, EncodeName, SkipName, WfName;
    AtSplit(buf, pos, EncodeName(q.name), q.typeClass);
    NameIsSkipped(buf, pos, q.name);
    AtFits(buf, pos, EncodeQuestion(q));
  }

  lemma {:induction false} QuestionsAreSkipped(buf: seq<byte>, pos: nat, qs: seq<Question>)
    requires (forall q :: q in qs ==> WfQuestion(q)) && At(buf, pos, EncodeQuestions(qs))
    ensures SkipQuestions(buf, pos, |qs|) == Ok(pos + |EncodeQuestions(qs)|)
    decreases |qs|
  {
    hide At, EncodeQuestion, WfQuestion, SkipName;
    if qs != [] {
      AtSplit(buf, pos, EncodeQuestion(qs[0]), EncodeQuestions(qs[1..]));
      QuestionIsSkipped(buf, pos, qs[0], |qs|);
      QuestionsAreSkipped(buf, pos + |EncodeQuestion(qs[0])|, qs[1..]);
    }
  }

  lemma AtFits(buf: seq<byte>, pos: nat, s: seq<byte>)
    requires At(buf, pos, s)
    ensures pos + |s| <= |buf|
  {
  }

  lemma QuestionIsThere(buf: seq<byte>, pos: nat, n: nat) returns (q: Question)
    requires n > 0 && SkipQuestions(buf, pos, n).Ok?
    ensures WfQuestion(q) && At(buf, pos, EncodeQuestion(q)) && pos + |EncodeQuestion(q)| <= |buf|
    ensures SkipQuestions(buf, pos, n) == SkipQuestions(buf, pos + |EncodeQuestion(q)|, n - 1)
  {
    hide At, EncodeName, WfName, SkipName, ParseName;
    SkipIsParse(buf, pos);
    ParsedNameIsThere(buf, pos);
    var (name, p) := ParseName(buf, pos).value;
    q := Question(name, buf[p..p + 4]);
    SliceIsAt(buf, p, p + 4);
    AtSplit(buf, pos, EncodeName(name), q.typeClass);
  }

  lemma ConsQuestions(q: Question, later: seq<Question>)
    requires WfQuestion(q) && forall s :: s in later ==> WfQuestion(s)
    ensures EncodeQuestions([q] + later) == EncodeQuestion(q) + EncodeQuestions(later)
  {
    hide EncodeQuestion;
    assert ([q] + later)[1..] == later;
  }

  lemma NoQuestions(buf: seq<byte>, pos: nat)
    requires pos <= |buf|
    ensures EncodeQuestions([]) == [] && At(buf, pos, []) && SkipQuestions(buf, pos, 0) == Ok(pos)
  {
  }

  lemma {:induction false} SkippedAreQuestions(buf: seq<byte>, pos: nat, n: nat) returns (qs: seq<Question>)
    requires SkipQuestions(buf, pos, n).Ok? && pos <= |buf|
    ensures (forall q :: q in qs ==> WfQuestion(q)) && |qs| == n
    ensures At(buf, pos, EncodeQuestions(qs)) && SkipQuestions(buf, pos, n) == Ok(pos + |EncodeQuestions(qs)|)
    decreases n
  {
    hide At, EncodeQuestion, EncodeQuestions, WfQuestion, SkipQuestions;
    if n == 0 {
      NoQuestions(buf, pos);
      return [];
    }
    var q := QuestionIsThere(buf, pos, n);
    var next := pos + |EncodeQuestion(q)|;
    var later := SkippedAreQuestions(buf, next, n - 1);
    ConsQuestions(q, later);
    AtSplit(buf, pos, EncodeQuestion(q), EncodeQuestions(later));
    assert pos + |EncodeQuestions([q] + later)| == next + |EncodeQuestions(later)|;
    return [q] + later;
  }

  lemma RecordFields(buf: seq<byte>, pos: nat, r: Record)
    requires WfRecord(r) && At(buf, pos, EncodeRecord(r))
    ensures var p := pos + |EncodeName(r.name)|;
            && SkipName(buf, pos) == Ok(p) && p + 10 + |r.rdata| <= |buf|
            && U16At(buf, p) == r.rtype && U16At(buf, p + 8) == |r.rdata|
            && buf[p + 10..p + 10 + |r.rdata|] == r.rdata && |EncodeRecord(r)| == p - pos + 10 + |r.rdata|
  {
    hide EncodeName, SkipName, WfName;
    var p := pos + |EncodeName(r.name)|;
    AtSplit(buf, pos, EncodeName(r.name) + RecordHead(r), r.rdata);
    AtSplit(buf, pos, EncodeName(r.name), RecordHead(r));
    AtSplit(buf, p, Be(r.rtype, 2) + r.classTtl, Be(|r.rdata|, 2));
    AtSplit(buf, p, Be(r.rtype, 2), r.classTtl);
    NameIsSkipped(buf, pos, r.name);
    U16Value(buf, p, r.rtype);
    U16Value(buf, p + 8, |r.rdata|);
  }

  /** One record decides the search or is stepped over. */
  lemma FindAStep(buf: seq<byte>, pos: nat, r: Record, n: nat)
    requires WfRecord(r) && At(buf, pos, EncodeRecord(r)) && n > 0
    ensures FindA(buf, pos, n) == if IsA(r) then Ok(r.rdata) else FindA(buf, pos + |EncodeRecord(r)|, n - 1)
  {
    hide At, EncodeRecord, SkipName;
    RecordFields(buf, pos, r);
  }

  lemma NoneLeft(buf: seq<byte>, pos: nat)
    ensures FindA(buf, pos, 0) == Err(NoARecord)
  {
  }

  lemma {:induction false} FindAOn(buf: seq<byte>, pos: nat, rs: seq<Record>)
    requires (forall r :: r in rs ==> WfRecord(r)) && At(buf, pos, EncodeRecords(rs))
    ensures FindA(buf, pos, |rs|) == FirstA(rs)
    decreases |rs|
  {
    hide At, EncodeRecord, WfRecord, IsA, FindA;
    if rs == [] {
      NoneLeft(buf, pos);
    } else {
      AtSplit(buf, pos, EncodeRecord(rs[0]), EncodeRecords(rs[1..]));
      FindAStep(buf, pos, rs[0], |rs|);
      if !IsA(rs[0]) {
        FindAOn(buf, pos + |EncodeRecord(rs[0])|, rs[1..]);
      }
    }
  }

  lemma HeaderFields(buf: seq<byte>, id: u16, flags: u16, qd: u16, an: u16, ns: u16, ar: u16)
    requires At(buf, 0, EncodeHeader(id, flags, qd, an, ns, ar))
    ensures |buf| >= HEADER_LEN && U16At(buf, 0) == id && U16At(buf, 2) == flags
    ensures U16At(buf, 4) == qd && U16At(buf, 6) == an
  {
    AtSplit(buf, 0, Be(id, 2) + Be(flags, 2) + Be(qd, 2) + Be(an, 2) + Be(ns, 2), Be(ar, 2));
    AtSplit(buf, 0, Be(id, 2) + Be(flags, 2) + Be(qd, 2) + Be(an, 2), Be(ns, 2));
    AtSplit(buf, 0, Be(id, 2) + Be(flags, 2) + Be(qd, 2), Be(an, 2));
    AtSplit(buf, 0, Be(id, 2) + Be(flags, 2), Be(qd, 2));
    AtSplit(buf, 0, Be(id, 2), Be(flags, 2));
    U16Value(buf, 0, id);
    U16Value(buf, 2, flags);
    U16Value(buf, 4, qd);
    U16Value(buf, 6, an);
  }

  /** Behind an acceptable header and its questions the search for the address begins. */
  lemma DecodeParts(id: u16, buf: seq<byte>, p: nat)
    requires |buf| >= HEADER_LEN && U16At(buf, 0) == id && U16At(buf, 2) % 16 == 0 && U16At(buf, 6) > 0
    requires SkipQuestions(buf, HEADER_LEN, U16At(buf, 4)) == Ok(p)
    ensures DecodeAResponse(id, buf) == FindA(buf, p, U16At(buf, 6))
  {
  }

  /** Any serialized response with a matching id, no error code and at least one answer decodes
      to the address of its first A record, or to "no A record", whatever follows the answers. */
  lemma SerializedResponseDecodes(id: u16, flags: u16, qs: seq<Question>, rs: seq<Record>, ns: u16, ar: u16, rest: seq<byte>)
    requires (forall q :: q in qs ==> WfQuestion(q)) && (forall r :: r in rs ==> WfRecord(r))
    requires flags % 16 == 0 && |qs| <= U16_MAX && 0 < |rs| <= U16_MAX
    ensures DecodeAResponse(id, EncodeHeader(id, flags, |qs|, |rs|, ns, ar) + EncodeQuestions(qs) + EncodeRecords(rs) + rest)
            == FirstA(rs)
  {
    hide At, EncodeHeader, EncodeQuestions, EncodeRecords, SkipQuestions, FindA, FirstA, U16At, DecodeAResponse;
    var header, questions, records := EncodeHeader(id, flags, |qs|, |rs|, ns, ar), EncodeQuestions(qs), EncodeRecords(rs);
    var buf := header + questions + records + rest;
    WholeIsAt(buf);
    AtSplit(buf, 0, header + questions + records, rest);
    AtSplit(buf, 0, header + questions, records);
    AtSplit(buf, 0, header, questions);
    HeaderFields(buf, id, flags, |qs|, |rs|, ns, ar);
    QuestionsAreSkipped(buf, HEADER_LEN, qs);
    FindAOn(buf, HEADER_LEN + |questions|, rs);
    DecodeParts(id, buf, HEADER_LEN + |questions|);
  }

  lemma WholeIsAt(buf: seq<byte>)
    ensures At(buf, 0, buf)
  {
  }

  // ----- Exactly which bytes decode -----

  /** What the decoder takes for an answer: `buf` carries `ip` in its first A record `a`, after the
      questions `qs` and the records `before`. Neither the QR bit nor the class of a record is
      looked at. */
  ghost predicate Answers(buf: seq<byte>, id: u16, ip: seq<byte>, qs: seq<Question>, before: seq<Record>, a: Record) {
    && |buf| >= 12 && U16At(buf, 0) == id && U16At(buf, 2) % 16 == 0
    && U16At(buf, 4) == |qs| && U16At(buf, 6) > |before|
    && (forall q :: q in qs ==> WfQuestion(q)) && (forall r :: r in before ==> WfRecord(r) && !(r.rtype == 1 && |r.rdata| == 4))
    && WfRecord(a) && a.rtype == 1 && |a.rdata| == 4 && a.rdata == ip
    && At(buf, 12, EncodeQuestions(qs))
    && At(buf, 12 + |EncodeQuestions(qs)|, EncodeRecords(before))
    && At(buf, 12 + |EncodeQuestions(qs)| + |EncodeRecords(before)|, EncodeRecord(a))
  }

  lemma {:induction false} FindAHits(buf: seq<byte>, pos: nat, before: seq<Record>, a: Record, n: nat)
    requires (forall r :: r in before ==> WfRecord(r) && !IsA(r)) && WfRecord(a) && IsA(a) && n > |before|
    requires At(buf, pos, EncodeRecords(before)) && At(buf, pos + |EncodeRecords(before)|, EncodeRecord(a))
    ensures FindA(buf, pos, n) == Ok(a.rdata)
    decreases n
  {
    hide At, EncodeRecord, WfRecord, IsA, FindA;
    if before == [] {
      FindAStep(buf, pos, a, n);
    } else {
      AtSplit(buf, pos, EncodeRecord(before[0]), EncodeRecords(before[1..]));
      FindAStep(buf, pos, before[0], n);
      FindAHits(buf, pos + |EncodeRecord(before[0])|, before[1..], a, n - 1);
    }
  }

  lemma SliceIsAt(buf: seq<byte>, from: nat, to: nat)
    requires from <= to <= |buf|
    ensures At(buf, from, buf[from..to]) && |buf[from..to]| == to - from
  {
  }

  lemma HeadIsThere(buf: seq<byte>, p: nat, r: Record)
    requires WfRecord(r) && p + 10 <= |buf|
    requires r.rtype == U16At(buf, p) && r.classTtl == buf[p + 2..p + 8] && |r.rdata| == U16At(buf, p + 8)
    ensures At(buf, p, RecordHead(r)) && |RecordHead(r)| == 10
  {
    hide At, Be, U16At;
    SliceIsAt(buf, p + 2, p + 8);
    U16Value(buf, p, r.rtype);
    U16Value(buf, p + 8, |r.rdata|);
    AtSplit(buf, p, Be(r.rtype, 2), r.classTtl);
    AtSplit(buf, p, Be(r.rtype, 2) + r.classTtl, Be(|r.rdata|, 2));
  }

  lemma RecordIsThere(buf: seq<byte>, pos: nat) returns (r: Record)
    requires SkipName(buf, pos).Ok? && SkipName(buf, pos).value + 10 <= |buf|
    requires SkipName(buf, pos).value + 10 + U16At(buf, SkipName(buf, pos).value + 8) <= |buf|
    ensures WfRecord(r) && At(buf, pos, EncodeRecord(r))
  {
    hide At, EncodeName, ParseName, SkipName, WfName, RecordHead, U16At;
    SkipIsParse(buf, pos);
    ParsedNameIsThere(buf, pos);
    var (name, p) := ParseName(buf, pos).value;
    var end := p + 10 + U16At(buf, p + 8);
    r := Record(name, U16At(buf, p), buf[p + 2..p + 8], buf[p + 10..end]);
    HeadIsThere(buf, p, r);
    SliceIsAt(buf, p + 10, end);
    AtSplit(buf, pos, EncodeName(name), RecordHead(r));
    AtSplit(buf, pos, EncodeName(name) + RecordHead(r), r.rdata);
  }

  lemma ConsRecords(r: Record, later: seq<Record>)
    requires WfRecord(r) && forall s :: s in later ==> WfRecord(s)
    ensures EncodeRecords([r] + later) == EncodeRecord(r) + EncodeRecords(later)
  {
    hide EncodeRecord;
    assert ([r] + later)[1..] == later;
  }

  lemma NoRecords(buf: seq<byte>, pos: nat)
    requires pos <= |buf|
    ensures EncodeRecords([]) == [] && At(buf, pos, [])
  {
  }

  lemma FoundRecord(buf: seq<byte>, pos: nat, n: nat) returns (r: Record)
    requires FindA(buf, pos, n).Ok?
    ensures n > 0 && WfRecord(r) && At(buf, pos, EncodeRecord(r)) && pos + |EncodeRecord(r)| <= |buf|
    ensures FindA(buf, pos, n) == if IsA(r) then Ok(r.rdata) else FindA(buf, pos + |EncodeRecord(r)|, n - 1)
  {
    hide At, EncodeRecord, WfRecord, SkipName;
    r := RecordIsThere(buf, pos);
    FindAStep(buf, pos, r, n);
    AtFits(buf, pos, EncodeRecord(r));
  }

  lemma {:induction false} FoundAIsThere(buf: seq<byte>, pos: nat, n: nat) returns (before: seq<Record>, a: Record)
    requires FindA(buf, pos, n).Ok? && pos <= |buf|
    ensures (forall r :: r in before ==> WfRecord(r) && !IsA(r)) && |before| < n
    ensures WfRecord(a) && IsA(a) && FindA(buf, pos, n) == Ok(a.rdata)
    ensures At(buf, pos, EncodeRecords(before)) && At(buf, pos + |EncodeRecords(before)|, EncodeRecord(a))
    decreases n
  {
    hide At, EncodeRecord, EncodeRecords, WfRecord, IsA, FindA;
    var r := FoundRecord(buf, pos, n);
    if IsA(r) {
      NoRecords(buf, pos);
      return [], r;
    }
    var next := pos + |EncodeRecord(r)|;
    var later, hit := FoundAIsThere(buf, next, n - 1);
    ConsRecords(r, later);
    AtSplit(buf, pos, EncodeRecord(r), EncodeRecords(later));
    assert pos + |EncodeRecords([r] + later)| == next + |EncodeRecords(later)|;
    return [r] + later, hit;
  }

  lemma DecodedIsAnswer(id: u16, buf: seq<byte>, ip: seq<byte>) returns (qs: seq<Question>, before: seq<Record>, a: Record)
    requires DecodeAResponse(id, buf) == Ok(ip)
    ensures Answers(buf, id, ip, qs, before, a)
  {
    hide At, EncodeRecords, EncodeRecord, EncodeQuestions, WfRecord, WfQuestion, SkipQuestions, FindA;
    qs := SkippedAreQuestions(buf, HEADER_LEN, U16At(buf, 4));
    AtFits(buf, HEADER_LEN, EncodeQuestions(qs));
    before, a := FoundAIsThere(buf, HEADER_LEN + |EncodeQuestions(qs)|, U16At(buf, 6));
  }

  lemma AnswerIsDecoded(id: u16, buf: seq<byte>, ip: seq<byte>, qs: seq<Question>, before: seq<Record>, a: Record)
    requires Answers(buf, id, ip, qs, before, a)
    ensures DecodeAResponse(id, buf) == Ok(ip)
  {
    hide At, EncodeRecords, EncodeRecord, EncodeQuestions, WfRecord, WfQuestion, SkipQuestions, FindA;
    QuestionsAreSkipped(buf, HEADER_LEN, qs);
    FindAHits(buf, HEADER_LEN + |EncodeQuestions(qs)|, before, a, U16At(buf, 6));
  }

  /** The decoder yields an address for exactly those byte strings that are responses carrying
      it in their first A record. */
  lemma DecodesExactly(id: u16, buf: seq<byte>, ip: seq<byte>)
    ensures DecodeAResponse(id, buf) == Ok(ip) <==> exists qs, before, a :: Answers(buf, id, ip, qs, before, a)
  {
    hide Answers, DecodeAResponse;
    if DecodeAResponse(id, buf) == Ok(ip) {
      var qs, before, a := DecodedIsAnswer(id, buf, ip);
    }
    if qs, before, a :| Answers(buf, id, ip, qs, before, a) {
      AnswerIsDecoded(id, buf, ip, qs, before, a);
    }
  }

  /** What is refused on the header alone, in the order it is looked at: fewer than 12 bytes, another
      id, an error code, no answers. */
  lemma RefusedHeaders(id: u16, buf: seq<byte>)
    ensures DecodeAResponse(id, buf) == Err(TooShort) <==> |buf| < 12
    ensures |buf| >= 12 && (buf[0] != id / 256 || buf[1] != id % 256) ==> DecodeAResponse(id, buf) == Err(IdMismatch)
    ensures |buf| >= 12 && buf[0] == id / 256 && buf[1] == id % 256 && buf[3] % 16 != 0 ==>
              DecodeAResponse(id, buf) == Err(Rcode(buf[3] % 16))
    ensures |buf| >= 12 && buf[0] == id / 256 && buf[1] == id % 256 && buf[3] % 16 == 0 && buf[6] == buf[7] == 0 ==>
              DecodeAResponse(id, buf) == Err(NoAnswers)
  {
    if |buf| >= 12 {
      SearchErrors(buf, 12, U16At(buf, 4), U16At(buf, 6));
    }
  }

  /** The search itself never ends with those errors. */
  lemma SearchErrors(buf: seq<byte>, pos: nat, qd: nat, an: nat)
    ensures SkipQuestions(buf, pos, qd).Err? ==> SkipQuestions(buf, pos, qd).error != TooShort
    ensures SkipQuestions(buf, pos, qd).Ok? && FindA(buf, SkipQuestions(buf, pos, qd).value, an).Err? ==>
              FindA(buf, SkipQuestions(buf, pos, qd).value, an).error != TooShort
  {
    QuestionErrors(buf, pos, qd);
    if SkipQuestions(buf, pos, qd).Ok? {
      AnswerErrors(buf, SkipQuestions(buf, pos, qd).value, an);
    }
  }

  lemma {:induction false} NameErrors(buf: seq<byte>, pos: nat)
    ensures SkipName(buf, pos).Err? ==> SkipName(buf, pos).error in {NameTruncated, PointerTruncated}
    decreases |buf| - pos
  {
    if pos < |buf| && 0 < buf[pos] < 192 {
      NameErrors(buf, pos + 1 + buf[pos]);
    }
  }

  lemma {:induction false} QuestionErrors(buf: seq<byte>, pos: nat, n: nat)
    ensures SkipQuestions(buf, pos, n).Err? ==>
              SkipQuestions(buf, pos, n).error in {NameTruncated, PointerTruncated, QuestionTruncated}
    decreases n
  {
    NameErrors(buf, pos);
    if n > 0 && SkipName(buf, pos).Ok? {
      QuestionErrors(buf, SkipName(buf, pos).value + 4, n - 1);
    }
  }

  lemma {:induction false} AnswerErrors(buf: seq<byte>, pos: nat, n: nat)
    ensures FindA(buf, pos, n).Err? ==>
              FindA(buf, pos, n).error in {NameTruncated, PointerTruncated, AnswerTruncated, RdataTruncated, NoARecord}
    decreases n
  {
    hide U16At;
    NameErrors(buf, pos);
    if n > 0 && SkipName(buf, pos).Ok? {
      var p := SkipName(buf, pos).value;
      if p + 10 <= |buf| {
        AnswerErrors(buf, p + 10 + U16At(buf, p + 8), n - 1);
      }
    }
  }

  /** A response for "a": one question, an alias record, and the address 93.184.216.34. */
  function SampleResponse(): seq<byte> {
    [0x12, 0x34, 0x81, 0x80, 0, 1, 0, 2, 0, 0, 0, 0]
    + [1, 0x61, 0, 0, 1, 0, 1]
    + [0xC0, 12, 0, 5, 0, 1, 0, 0, 0, 60, 0, 2, 0xC0, 12]
    + [0xC0, 12, 0, 1, 0, 1, 0, 0, 0, 60, 0, 4, 93, 184, 216, 34]
  }

  lemma SampleDecodes()
    ensures DecodeAResponse(0x1234, SampleResponse()) == Ok([93, 184, 216, 34])
    ensures DecodeAResponse(0x1235, SampleResponse()) == Err(IdMismatch)
  {
    hide SampleResponse, SkipName, SkipQuestions, FindA;
    SampleHeader();
    SampleQuestion();
    SampleAnswers();
  }

  lemma SampleHeader()
    ensures var buf := SampleResponse();
            && |buf| == 49 && U16At(buf, 0) == 0x1234 && U16At(buf, 2) % 16 == 0 && U16At(buf, 4) == 1 && U16At(buf, 6) == 2
  {
  }

  lemma SampleQuestion()
    ensures SkipQuestions(SampleResponse(), 12, 1) == Ok(19)
  {
    hide FindA;
    var buf := SampleResponse();
    assert SkipName(buf, 14) == Ok(15);
    assert SkipName(buf, 12) == Ok(15);
    assert SkipQuestions(buf, 19, 0) == Ok(19);
  }

  lemma SampleAnswers()
    ensures FindA(SampleResponse(), 19, 2) == Ok([93, 184, 216, 34])
  {
    hide SkipQuestions;
    var buf := SampleResponse();
    PointerIsSkipped(buf, 33);
    PointerIsSkipped(buf, 19);
    assert buf[45..49] == [93, 184, 216, 34];
    hide SkipName;
    assert U16At(buf, 35) == 1 && U16At(buf, 43) == 4 && FindA(buf, 33, 1) == Ok(buf[45..49]);
    assert U16At(buf, 21) == 5 && U16At(buf, 29) == 2 && FindA(buf, 19, 2) == FindA(buf, 33, 1);
  }

  lemma PointerIsSkipped(buf: seq<byte>, pos: nat)
    requires pos + 1 < |buf| && buf[pos] >= 0xC0
    ensures SkipName(buf, pos) == Ok(pos + 2)
  {
  }

  // ----- Reserved labels -----

  /** Section 4.1.4 of RFC 1035 knows labels of up to 63 bytes. */
  ghost predicate Conforms(n: Name) { forall l :: l in n.labels ==> |l| <= 63 }

  /** The decoder goes further: any answer behind a question with a label of 64 to 191 bytes, whose
      length byte has one of the reserved forms 01 and 10, is returned like any other. */
  lemma ReservedLabelIsAccepted(id: u16, l: seq<byte>, typeClass: seq<byte>, a: Record)
    requires 63 < |l| < 192 && |typeClass| == 4 && WfRecord(a) && IsA(a)
    ensures var q := Question(Name([l], Root), typeClass);
            && WfQuestion(q) && !Conforms(q.name)
            && DecodeAResponse(id, EncodeHeader(id, 0, 1, 1, 0, 0) + EncodeQuestions([q]) + EncodeRecords([a])) == Ok(a.rdata)
  {
    hide EncodeQuestions, EncodeRecords, EncodeHeader, DecodeAResponse;
    var q := Question(Name([l], Root), typeClass);
    SerializedResponseDecodes(id, 0, [q], [a], 0, 0, []);
    var buf := EncodeHeader(id, 0, 1, 1, 0, 0) + EncodeQuestions([q]) + EncodeRecords([a]);
    assert buf + [] == buf;
  }
}
