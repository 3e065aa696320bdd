/** The DNS client: writing the question for a host name, and finding the
    address in the response (RFC 1035). */
module Dns {
  import opened Bytes
  import opened W5100
  import opened Udp

  const TYPE_A: nat := 1
  const CLASS_IN: nat := 1
  const DNS_HEADER_SIZE: nat := 12
  const DNS_PORT: nat := 53
  const SUCCESS: int := 1
  const INVALID_SERVER: int := -2
  const TRUNCATED: int := -3
  const INVALID_RESPONSE: int := -4

  function Be16(s: seq<byte>, at: nat): nat
    requires at + 2 <= |s|
  {
    0x100 * (s[at] as int) + (s[at + 1] as int)
  }

  function PutBe16(v: nat): (r: seq<byte>)
    ensures |r| == 2 && Be16(r, 0) == v % TWO16
  {
    [v / 0x100 % 0x100, v % 0x100]
  }

  // ---- host names ----

  /** Where the part that starts at `i` ends: the next dot or the end. */
  function PartEnd(name: seq<byte>, i: nat): (e: nat)
    requires i <= |name|
    ensures i <= e <= |name| && DOT !in name[i..e]
    ensures e < |name| ==> name[e] == DOT
    decreases |name| - i
  {
    if i == |name| || name[i] == DOT then i else
      assert name[i..PartEnd(name, i + 1)] == [name[i]] + name[i + 1..PartEnd(name, i + 1)];
      PartEnd(name, i + 1)
  }

  /** The parts between the dots, from position `i` on. */
  function Parts(name: seq<byte>, i: nat): (r: seq<seq<byte>>)
    requires i <= |name|
    ensures r != []
    decreases |name| - i
  {
    var e := PartEnd(name, i);
    if e == |name| then [name[i..e]] else [name[i..e]] + Parts(name, e + 1)
  }

  function Joined(parts: seq<seq<byte>>): seq<byte>
    requires parts != []
  {
    if |parts| == 1 then parts[0] else parts[0] + [DOT] + Joined(parts[1..])
  }

  /** The parts are those between the dots: joined by dots they give the name
      back, and none has a dot in it. */
  lemma {:induction false} PartsOfName(name: seq<byte>, i: nat)
    requires i <= |name|
    ensures Joined(Parts(name, i)) == name[i..]
    ensures forall p | p in Parts(name, i) :: DOT !in p
    decreases |name| - i
  {
    var e := PartEnd(name, i);
    if e < |name| {
      PartsOfName(name, e + 1);
      assert Parts(name, i)[1..] == Parts(name, e + 1);
      assert name[i..] == name[i..e] + [DOT] + name[e + 1..];
    }
  }

  function NonEmpty(parts: seq<seq<byte>>): (r: seq<seq<byte>>)
    ensures forall p | p in r :: p in parts && p != []
  {
    if parts == [] then [] else (if parts[0] == [] then [] else [parts[0]]) + NonEmpty(parts[1..])
  }

  /** The labels of a host name. */
  function Labels(name: seq<byte>): seq<seq<byte>> {
    NonEmpty(Parts(name, 0))
  }

  /** A label fits the length octet, and `max` is the longest allowed. */
  predicate Proper(labels: seq<seq<byte>>, max: nat) {
    forall l | l in labels :: 1 <= |l| <= max
  }

  /** Section 3.1 of RFC 1035: each label is a length octet and that many
      octets. */
  function LabelBytes(labels: seq<seq<byte>>): seq<byte>
    requires Proper(labels, 255)
  {
    if labels == [] then [] else [|labels[0]|] + labels[0] + LabelBytes(labels[1..])
  }

  /** A name is its labels and the zero octet of the root. */
  function NameBytes(labels: seq<seq<byte>>): seq<byte>
    requires Proper(labels, 255)
  {
    LabelBytes(labels) + [0]
  }

  datatype Decoded = Decoded(labels: seq<seq<byte>>, rest: seq<byte>) | Malformed

  /** Decode a name as a receiver does. */
  function Decode(s: seq<byte>): Decoded {
    if s == [] then Malformed
    else if s[0] == 0 then Decoded([], s[1..])
    else if |s| < 1 + s[0] as int then Malformed
    else
      match Decode(s[1 + s[0] as int..])
      case Malformed => Malformed
      case Decoded(labels, rest) => Decoded([s[1..1 + s[0] as int]] + labels, rest)
  }

  /** Decoding gives back the labels, and ends exactly behind the name. */
  lemma {:induction false} DecodeEncoded(labels: seq<seq<byte>>, rest: seq<byte>)
    requires Proper(labels, 255)
    ensures Decode(NameBytes(labels) + rest) == Decoded(labels, rest)
  {
    hide Decode, NameBytes, LabelBytes, Proper;
    DecodeRoot(rest);
    if labels != [] {
      TailProper(labels);
      var l, t := labels[0], NameBytes(labels[1..]) + rest;
      DecodeEncoded(labels[1..], rest);
      NameFirst(labels, rest);
      DecodeFirst(l, t);
      assert labels == [l] + labels[1..];
    }
  }

  lemma TailProper(labels: seq<seq<byte>>)
    requires labels != [] && Proper(labels, 255)
    ensures Proper(labels[1..], 255) && 1 <= |labels[0]| <= 255
  {
  }

  lemma DecodeRoot(rest: seq<byte>)
    ensures Proper([], 255) && Decode(NameBytes([]) + rest) == Decoded([], rest)
  {
    assert NameBytes([]) + rest == [0] + rest;
    assert ([0] + rest)[1..] == rest;
  }

  lemma NameFirst(labels: seq<seq<byte>>, rest: seq<byte>)
    requires labels != [] && Proper(labels, 255)
    ensures NameBytes(labels) + rest == [|labels[0]|] + (labels[0] + (NameBytes(labels[1..]) + rest))
  {
    Regroup([|labels[0]|] + labels[0], LabelBytes(labels[1..]), [0]);
    Regroup([|labels[0]|] + labels[0], NameBytes(labels[1..]), rest);
    Regroup([|labels[0]|], labels[0], NameBytes(labels[1..]) + rest);
  }

  lemma DecodeFirst(l: seq<byte>, t: seq<byte>)
    requires 1 <= |l| <= 255
    ensures Decode([|l|] + (l + t)) ==
            match Decode(t)
            case Malformed => Malformed
            case Decoded(labels, rest) => Decoded([l] + labels, rest)
  {
    var s := [|l|] + (l + t);
    assert s[1..1 + |l|] == l && s[1 + |l|..] == t;
  }

  lemma Regroup(a: seq<byte>, b: seq<byte>, c: seq<byte>)
    ensures a + (b + c) == (a + b) + c
  {
  }

  // ---- the request ----

  /** Section 4.1.1 of RFC 1035: a standard query with recursion desired and one
      question. */
  function QueryHeader(id: nat): (r: seq<byte>)
    ensures |r| == 12
  {
    PutBe16(id) + PutBe16(0x100) + PutBe16(1) + [0, 0, 0, 0, 0, 0]
  }

  function Request(id: nat, name: seq<byte>): seq<byte>
    requires Proper(Labels(name), 255)
  {
    QueryHeader(id) + NameBytes(Labels(name)) + PutBe16(TYPE_A) + PutBe16(CLASS_IN)
  }

  lemma ShortIsProper(labels: seq<seq<byte>>)
    requires Proper(labels, 63)
    ensures Proper(labels, 255)
  {
  }

  lemma RequestParts(h: seq<byte>, n: seq<byte>, a: seq<byte>, b: seq<byte>)
    requires |h| == 12
    ensures (h + n + a + b)[12..] == n + (a + b) && (h + n + a + b)[..12] == h
  {
  }

  lemma RequestId(id: nat, h: seq<byte>, s: seq<byte>)
    requires h == QueryHeader(id) && |s| >= 12 && s[..12] == h
    ensures Be16(s, 0) == id % TWO16
  {
    assert s[0] == s[..12][0] && s[1] == s[..12][1];
    assert h[0] == PutBe16(id)[0] && h[1] == PutBe16(id)[1];
  }

  /** What a server makes of the question: exactly the labels of the name, and
      behind them type A and class IN. */
  lemma RequestDecodes(id: nat, name: seq<byte>)
    requires Proper(Labels(name), 63)
    ensures Decode(Request(id, name)[12..]) == Decoded(Labels(name), PutBe16(TYPE_A) + PutBe16(CLASS_IN))
    ensures Be16(Request(id, name), 0) == id % TWO16
    ensures Request(id, name)[12 + |NameBytes(Labels(name))|..] == [0, 1, 0, 1]
    ensures NetworkNumber(Request(id, name)[..2]) == id % TWO16
    ensures NetworkNumber(Request(id, name)[2..4]) ==
              HeaderFlags(false, 0, false, false, true, false, 0, 0).Word()
    ensures Request(id, name)[4..12] == [0, 1, 0, 0, 0, 0, 0, 0]
  {
    hide PutBe16, LabelBytes, Labels, Decode, Proper, NameBytes, NetworkNumber;
    var tail := PutBe16(TYPE_A) + PutBe16(CLASS_IN);
    ShortIsProper(Labels(name));
    RequestBytes(id, name);
    DecodeEncoded(Labels(name), tail);
    RequestParts(QueryHeader(id), NameBytes(Labels(name)), PutBe16(TYPE_A), PutBe16(CLASS_IN));
    RequestId(id, QueryHeader(id), Request(id, name));
  }

  lemma RequestBytes(id: nat, name: seq<byte>)
    requires Proper(Labels(name), 255)
    ensures var s := Request(id, name);
            && |s| == 12 + |NameBytes(Labels(name))| + 4
            && s[12 + |NameBytes(Labels(name))|..] == [0, 1, 0, 1]
            && NetworkNumber(s[..2]) == id % TWO16
            && NetworkNumber(s[2..4]) == 0x100
            && s[4..12] == [0, 1, 0, 0, 0, 0, 0, 0]
  {
    hide NameBytes, Labels, LabelBytes, NetworkNumber;
    var s, n := Request(id, name), NameBytes(Labels(name));
    assert s == QueryHeader(id) + n + (PutBe16(TYPE_A) + PutBe16(CLASS_IN));
    assert s[..12] == QueryHeader(id);
    assert s[..2] == s[..12][..2] == [id / 0x100 % 0x100, id % 0x100];
    assert s[2..4] == s[..12][2..4] == [1, 0];
    assert s[4..12] == s[..12][4..12];
    NumberOfTwo(id / 0x100 % 0x100, id % 0x100);
    NumberOfTwo(1, 0);
  }

  /** Write a piece that fits what the chip reports free. */
  method Put(u: EthernetUDP, piece: seq<byte>)
    requires u.Valid() && |piece| <= u.sock.txFree
    modifies u`offset, u`packet, u.sock.mem, u.sock`txNext
    ensures u.Valid() && u.packet == old(u.packet) + piece
  {
    hide EthernetUDP.RxValid, EthernetUDP.TxValid;
    FreeIsSmall(u);
    var n := u.Write(piece);
    assert piece[..n] == piece;
  }

  lemma FreeIsSmall(u: EthernetUDP)
    requires u.Valid()
    ensures u.sock.txFree < TWO16
  {
  }

  /** The labels from position `i` on; none behind the end. */
  function LabelsFrom(name: seq<byte>, i: nat): seq<seq<byte>> {
    if i <= |name| then NonEmpty(Parts(name, i)) else []
  }

  lemma NextLabel(name: seq<byte>, i: nat, e: nat)
    requires i <= |name| && e == PartEnd(name, i)
    ensures LabelsFrom(name, i) == (if e > i then [name[i..e]] else []) + LabelsFrom(name, e + 1)
  {
    assert NonEmpty([]) == [];
    var parts := Parts(name, i);
    assert parts[0] == name[i..e];
    assert parts[1..] == if e < |name| then Parts(name, e + 1) else [];
    assert NonEmpty(parts) == (if parts[0] == [] then [] else [parts[0]]) + NonEmpty(parts[1..]);
  }

  lemma {:induction false} LabelBytesAppend(a: seq<seq<byte>>, b: seq<seq<byte>>)
    requires Proper(a, 255) && Proper(b, 255)
    ensures Proper(a + b, 255) && LabelBytes(a + b) == LabelBytes(a) + LabelBytes(b)
  {
    if a == [] {
      assert a + b == b;
    } else {
      LabelBytesAppend(a[1..], b);
      assert (a + b)[0] == a[0] && (a + b)[1..] == a[1..] + b;
      Regroup([|a[0]|] + a[0], LabelBytes(a[1..]), LabelBytes(b));
    }
  }

  lemma OneLabelBytes(l: seq<byte>, rest: seq<seq<byte>>)
    requires 1 <= |l| <= 255 && Proper(rest, 255)
    ensures Proper([l], 255) && LabelBytes([l]) == [|l|] + l
    ensures Proper([l] + rest, 255) && |LabelBytes([l] + rest)| >= |l| + 1
  {
    assert ([l] + rest)[1..] == rest && [l][1..] == [];
    assert LabelBytes([l]) == [|l|] + l + [];
  }

  /** One of the labels: it fits, and its bytes come next. */
  lemma LabelInName(labels: seq<seq<byte>>, done: seq<seq<byte>>, l: seq<byte>, rest: seq<seq<byte>>)
    requires Proper(labels, 63) && labels == done + ([l] + rest)
    ensures 1 <= |l| <= 63 && Proper(done + [l], 255) && Proper(done, 255) && Proper(labels, 255)
    ensures LabelBytes(done + [l]) == LabelBytes(done) + [|l|] + l
    ensures |l| + 1 <= |LabelBytes(labels)|
  {
    assert l in labels && forall m | m in done :: m in labels;
    assert forall m | m in rest :: m in labels;
    OneLabelBytes(l, rest);
    LabelBytesAppend(done, [l]);
    LabelBytesAppend(done, [l] + rest);
    Regroup(LabelBytes(done), [|l|], l);
  }

  /** Write the question for a host name whose labels have at most 63 bytes,
      provided the chip has room. */
  method BuildRequest(u: EthernetUDP, id: nat, name: seq<byte>)
    requires u.Valid() && u.packet == [] && id < TWO16
    requires Proper(Labels(name), 63) && |Request(id, name)| <= u.sock.txFree
    modifies u`offset, u`packet, u.sock.mem, u.sock`txNext
    ensures u.Valid() && u.packet == Request(id, name)
  {
    hide EthernetUDP.Valid, Labels, LabelBytes, LabelsFrom, PartEnd, PutBe16, Proper, QueryHeader;
    ShortIsProper(Labels(name));
    RequestSize(id, name);
    Put(u, PutBe16(id));
    Put(u, PutBe16(0x100));
    Put(u, PutBe16(1));
    Put(u, [0, 0]);
    Put(u, [0, 0]);
    Put(u, [0, 0]);
    HeaderPieces(id, u.packet);
    BuildName(u, id, name);
    Put(u, [0]);
    Put(u, PutBe16(TYPE_A));
    Put(u, PutBe16(CLASS_IN));
    assert u.packet == Request(id, name);
  }

  lemma RequestSize(id: nat, name: seq<byte>)
    requires Proper(Labels(name), 255)
    ensures |Request(id, name)| == 17 + |LabelBytes(Labels(name))|
  {
  }

  lemma HeaderPieces(id: nat, packet: seq<byte>)
    requires packet == [] + PutBe16(id) + PutBe16(0x100) + PutBe16(1) + [0, 0] + [0, 0] + [0, 0]
    ensures packet == QueryHeader(id)
  {
  }

  /** The end of the part that starts at `start`. */
  method FindEnd(name: seq<byte>, start: nat) returns (end: nat)
    requires start <= |name|
    ensures end == PartEnd(name, start)
  {
    hide PartEnd;
    end := start;
    while end < |name| && name[end] != DOT
      invariant start <= end <= |name| && PartEnd(name, end) == PartEnd(name, start)
    {
      PartGoesOn(name, end);
      end := end + 1;
    }
    PartStops(name, end);
  }

  /** The labels of the name. */
  method BuildName(u: EthernetUDP, ghost id: nat, name: seq<byte>)
    requires u.Valid() && Proper(Labels(name), 63) && Proper(Labels(name), 255)
    requires |LabelBytes(Labels(name))| <= u.sock.txFree
    modifies u`offset, u`packet, u.sock.mem, u.sock`txNext
    ensures u.Valid() && u.packet == old(u.packet) + LabelBytes(Labels(name))
  {
    hide EthernetUDP.Valid, LabelBytes, PartEnd, Proper, Labels, LabelsFrom;
    ghost var labels, was := Labels(name), u.packet;
    var start, end := 0, 0;
    ghost var done := [];
    NoLabels(name);
    while end < |name|
      invariant 0 <= end <= |name| && 0 <= start <= |name| + 1 && (end < |name| ==> start <= |name|)
      invariant end == |name| > 0 ==> start == |name| + 1
      invariant u.Valid() && Proper(done, 255) && labels == done + LabelsFrom(name, start)
      invariant u.packet == was + LabelBytes(done)
      decreases |name| + 1 - start
    {
      end := FindEnd(name, start);
      NextLabel(name, start, end);
      if end - start > 0 {
        ghost var l := name[start..end];
        OneLabel(labels, done, l, LabelsFrom(name, end + 1), was);
        PutLabel(u, name[start..end]);
        done := done + [l];
      }
      start := end + 1;
    }
    EmptyName(name);
    assert labels == done;
  }

  /** Write one label with its length octet. */
  method PutLabel(u: EthernetUDP, l: seq<byte>)
    requires u.Valid() && 1 <= |l| <= 63 && |l| + 1 <= u.sock.txFree
    modifies u`offset, u`packet, u.sock.mem, u.sock`txNext
    ensures u.Valid() && u.packet == old(u.packet) + ([|l|] + l)
  {
    hide EthernetUDP.Valid;
    Put(u, [|l| % 0x100]);
    Put(u, l);
    assert old(u.packet) + [|l|] + l == old(u.packet) + ([|l|] + l);
  }

  lemma OneLabel(labels: seq<seq<byte>>, done: seq<seq<byte>>, l: seq<byte>, rest: seq<seq<byte>>, was: seq<byte>)
    requires Proper(labels, 63) && Proper(labels, 255) && Proper(done, 255) && labels == done + ([l] + rest)
    ensures 1 <= |l| <= 63 && |l| + 1 <= |LabelBytes(labels)| && Proper(done + [l], 255)
    ensures was + LabelBytes(done) + ([|l|] + l) == was + LabelBytes(done + [l])
    ensures labels == (done + [l]) + rest
  {
    hide LabelBytes, Proper;
    LabelInName(labels, done, l, rest);
    Regroup(was, LabelBytes(done), [|l|] + l);
    Regroup(LabelBytes(done), [|l|], l);
  }

  lemma NoLabels(name: seq<byte>)
    ensures Proper([], 255) && LabelBytes([]) == [] && Labels(name) == [] + LabelsFrom(name, 0)
  {
  }

  lemma EmptyName(name: seq<byte>)
    ensures name == [] ==> LabelsFrom(name, 0) == []
    ensures LabelsFrom(name, |name| + 1) == []
  {
    if name == [] {
      assert Parts(name, 0) == [[]] && NonEmpty([[]]) == [] + NonEmpty([[]][1..]);
    }
  }

  lemma PartGoesOn(name: seq<byte>, i: nat)
    requires i < |name| && name[i] != DOT
    ensures PartEnd(name, i + 1) == PartEnd(name, i)
  {
  }

  lemma PartStops(name: seq<byte>, i: nat)
    requires i <= |name| && (i == |name| || name[i] == DOT)
    ensures PartEnd(name, i) == i
  {
  }

  // ---- the response ----

  /** The question of a request is the one that `ProcessResponse` skips when a
      server repeats it. */
  lemma QuestionRepeated(id: nat, name: seq<byte>)
    requires Proper(Labels(name), 255)
    ensures Request(id, name)[12..] == Question(Labels(name), PutBe16(TYPE_A) + PutBe16(CLASS_IN)).Bytes()
  {
    var tail := PutBe16(TYPE_A) + PutBe16(CLASS_IN);
    assert Request(id, name) == QueryHeader(id) + (NameBytes(Labels(name)) + tail);
  }

  datatype Question = Question(labels: seq<seq<byte>>, kind: seq<byte>) {
    predicate Ok() { Proper(labels, 255) && |kind| == 4 }

    function Bytes(): seq<byte>
      requires Ok()
    {
      NameBytes(labels) + kind
    }
  }

  /** Section 4.1.4 of RFC 1035: a name ends with the root, or with a pointer to
      the rest of it elsewhere in the message. */
  datatype NameEnd = Root | Pointer(hi: byte, lo: byte)

  /** Section 4.1.3 of RFC 1035. */
  datatype Record = Record(labels: seq<seq<byte>>, end: NameEnd, rtype: nat, rclass: nat, ttl: seq<byte>,
                           rdata: seq<byte>) {
    predicate Ok() {
      && Proper(labels, 63)
      && (end.Pointer? ==> end.hi >= 0xC0)
      && rtype < TWO16
      && rclass < TWO16
      && |ttl| == 4
      && |rdata| < TWO16
    }

    function Bytes(): seq<byte>
      requires Ok()
    {
      ShortIsProper(labels);
      LabelBytes(labels) + (match end case Root => [0] case Pointer(hi, lo) => [hi, lo]) + Fields()
    }

    function Fields(): seq<byte>
      requires Ok()
    {
      PutBe16(rtype) + PutBe16(rclass) + ttl + PutBe16(|rdata|) + rdata
    }

    predicate IsAddress() { rtype == TYPE_A && rclass == CLASS_IN }
  }

  function QuestionBytes(qs: seq<Question>): seq<byte>
    requires forall q | q in qs :: q.Ok()
  {
    if qs == [] then [] else qs[0].Bytes() + QuestionBytes(qs[1..])
  }

  function RecordBytes(rs: seq<Record>): seq<byte>
    requires forall r | r in rs :: r.Ok()
  {
    if rs == [] then [] else rs[0].Bytes() + RecordBytes(rs[1..])
  }

  /** What is still to be read of the current datagram. */
  ghost function Rest(u: EthernetUDP): seq<byte>
    requires u.Valid()
    reads u, u.sock, u.sock.mem
  {
    u.payload[|u.delivered|..]
  }

  lemma RestMoves(payload: seq<byte>, d: nat, n: nat)
    requires d + n <= |payload|
    ensures payload[d..][..n] == payload[d..d + n] && payload[d..][n..] == payload[d + n..]
    ensures |payload[..d + n]| == d + n
  {
  }

  method NextByte(u: EthernetUDP) returns (b: byte)
    requires u.Valid() && Rest(u) != []
    modifies u`remaining, u`delivered, u.sock`rxRd, u.sock`rxSize
    ensures u.Valid() && b == old(Rest(u))[0] && Rest(u) == old(Rest(u))[1..]
  {
    hide EthernetUDP.RxValid, EthernetUDP.TxValid;
    u.RestKnown();
    RestMoves(u.payload, |u.delivered|, 1);
    var x := u.ReadByte();
    b := x;
  }

  method SkipBytes(u: EthernetUDP, n: nat)
    requires u.Valid() && n <= |Rest(u)|
    modifies u`remaining, u`delivered, u.sock`rxRd, u.sock`rxSize
    ensures u.Valid() && Rest(u) == old(Rest(u))[n..]
  {
    hide EthernetUDP.Valid, Rest;
    var i := 0;
    while i < n
      invariant 0 <= i <= n && u.Valid() && Rest(u) == old(Rest(u))[i..]
    {
      var _ := NextByte(u);
      i := i + 1;
    }
  }

  method ReadBytes(u: EthernetUDP, n: nat) returns (r: seq<byte>)
    requires u.Valid() && 0 < n <= |Rest(u)|
    modifies u`remaining, u`delivered, u.sock`rxRd, u.sock`rxSize
    ensures u.Valid() && r == old(Rest(u))[..n] && Rest(u) == old(Rest(u))[n..]
  {
    hide EthernetUDP.RxValid, EthernetUDP.TxValid, Overwrite;
    u.RestKnown();
    RestMoves(u.payload, |u.delivered|, n);
    var buf := new byte[n];
    ghost var was := buf[..];
    var got := u.ReadBuffer(buf, n);
    WholeBuffer(was, u.payload[|old(u.delivered)|..|old(u.delivered)| + n]);
    r := buf[..];
  }

  /** The next label of a name, or its end. */
  lemma NameStep(labels: seq<seq<byte>>, rest: seq<byte>)
    requires Proper(labels, 255)
    ensures labels == [] ==> LabelBytes(labels) + rest == rest
    ensures labels != [] ==>
              var s := LabelBytes(labels) + rest;
              && |s| > |labels[0]| >= 1 && s[0] as int == |labels[0]|
              && s[1..][|labels[0]|..] == LabelBytes(labels[1..]) + rest
              && Proper(labels[1..], 255)
  {
    if labels != [] {
      Regroup([|labels[0]|] + labels[0], LabelBytes(labels[1..]), rest);
      Regroup([|labels[0]|], labels[0], LabelBytes(labels[1..]) + rest);
    }
  }

  /** Skip an uncompressed name. */
  method SkipName(u: EthernetUDP, ghost labels: seq<seq<byte>>, ghost rest: seq<byte>)
    requires u.Valid() && Proper(labels, 255) && Rest(u) == LabelBytes(labels) + ([0] + rest)
    modifies u`remaining, u`delivered, u.sock`rxRd, u.sock`rxSize
    ensures u.Valid() && Rest(u) == rest
  {
    hide EthernetUDP.Valid, Rest, LabelBytes, Proper;
    ghost var ls := labels;
    NameStep(ls, [0] + rest);
    var len := NextByte(u);
    while len != 0
      invariant u.Valid() && Proper(ls, 255)
      invariant if len == 0 then Rest(u) == rest
                else ls != [] && len as int == |ls[0]| <= |Rest(u)|
                     && Proper(ls[1..], 255) && Rest(u)[|ls[0]|..] == LabelBytes(ls[1..]) + ([0] + rest)
      decreases |ls|, len
    {
      SkipBytes(u, len as nat);
      ls := ls[1..];
      NameStep(ls, [0] + rest);
      len := NextByte(u);
    }
  }

  function EndBytes(end: NameEnd): seq<byte> {
    match end case Root => [0] case Pointer(hi, lo) => [hi, lo]
  }

  /** Skip a record's name, which may end in a pointer. */
  method SkipRecordName(u: EthernetUDP, ghost labels: seq<seq<byte>>, ghost end: NameEnd, ghost rest: seq<byte>)
    requires u.Valid() && Proper(labels, 63) && Proper(labels, 255) && (end.Pointer? ==> end.hi >= 0xC0)
    requires Rest(u) == LabelBytes(labels) + (EndBytes(end) + rest)
    modifies u`remaining, u`delivered, u.sock`rxRd, u.sock`rxSize
    ensures u.Valid() && Rest(u) == rest
  {
    hide EthernetUDP.Valid, Rest, LabelBytes, Proper, EndBytes;
    ghost var ls, tail := labels, EndBytes(end) + rest;
    var more := true;
    while more
      invariant u.Valid() && Proper(ls, 255) && Proper(ls, 63)
      invariant Rest(u) == if more then LabelBytes(ls) + tail else rest
      decreases |ls|, more
    {
      NameStep(ls, tail);
      EndStep(end, rest);
      ShortLabels(ls);
      var len := NextByte(u);
      if len / 0x40 == 0 {
        if len > 0 {
          SkipBytes(u, len as nat);
          ls := ls[1..];
        } else {
          more := false;
        }
      } else {
        var _ := NextByte(u);
        more := false;
      }
    }
  }

  lemma EndStep(end: NameEnd, rest: seq<byte>)
    ensures |EndBytes(end) + rest| >= 1
    ensures end.Root? ==> (EndBytes(end) + rest)[0] == 0 && (EndBytes(end) + rest)[1..] == rest
    ensures end.Pointer? ==>
              var s := EndBytes(end) + rest;
              s[0] == end.hi && |s[1..]| >= 1 && s[1..][1..] == rest
  {
  }

  lemma ShortLabels(labels: seq<seq<byte>>)
    requires Proper(labels, 63)
    ensures labels != [] ==> 1 <= |labels[0]| <= 63 && Proper(labels[1..], 63)
  {
  }

  /** The fields of a record behind its name. */
  lemma FieldsStep(r: Record, rest: seq<byte>)
    requires r.Ok()
    ensures var s := r.Fields() + rest;
            && |s| >= 2 && Be16(s[..2], 0) == r.rtype
            && |s[2..]| >= 2 && Be16(s[2..][..2], 0) == r.rclass
            && |s[2..][2..]| >= 4
            && |s[2..][2..][4..]| >= 2 && Be16(s[2..][2..][4..][..2], 0) == |r.rdata|
            && s[2..][2..][4..][2..] == r.rdata + rest
  {
    hide PutBe16, Be16;
    var s := r.Fields() + rest;
    var a, b, c := PutBe16(r.rtype), PutBe16(r.rclass), PutBe16(|r.rdata|);
    FiveParts(a, b, r.ttl, c, r.rdata, rest);
    FrontTwo(a, b + (r.ttl + (c + (r.rdata + rest))));
    FrontTwo(b, r.ttl + (c + (r.rdata + rest)));
    assert (r.ttl + (c + (r.rdata + rest)))[4..] == c + (r.rdata + rest);
    FrontTwo(c, r.rdata + rest);
  }

  lemma FiveParts(a: seq<byte>, b: seq<byte>, t: seq<byte>, c: seq<byte>, d: seq<byte>, rest: seq<byte>)
    ensures a + b + t + c + d + rest == a + (b + (t + (c + (d + rest))))
  {
  }

  lemma FrontTwo(a: seq<byte>, b: seq<byte>)
    requires |a| == 2
    ensures (a + b)[..2] == a && (a + b)[2..] == b && |a + b| >= 2
  {
  }

  lemma RecordSplit(r: Record, rest: seq<byte>)
    requires r.Ok()
    ensures Proper(r.labels, 63) && Proper(r.labels, 255)
    ensures r.Bytes() + rest == LabelBytes(r.labels) + (EndBytes(r.end) + (r.Fields() + rest))
  {
    hide LabelBytes, Record.Fields, Proper;
    ShortIsProper(r.labels);
    Regroup(LabelBytes(r.labels), EndBytes(r.end), r.Fields());
    Regroup(LabelBytes(r.labels), EndBytes(r.end) + r.Fields(), rest);
    Regroup(EndBytes(r.end), r.Fields(), rest);
  }

  datatype Answer = Address(ip: seq<byte>) | WeirdSize | NoAddress

  /** The first address record counts, and only that one. */
  function FirstAnswer(rs: seq<Record>): Answer {
    if rs == [] then NoAddress
    else if rs[0].IsAddress() then (if |rs[0].rdata| == 4 then Address(rs[0].rdata) else WeirdSize)
    else FirstAnswer(rs[1..])
  }

  /** What the answer is, said outright. */
  lemma {:induction false} FirstAnswerIs(rs: seq<Record>)
    ensures FirstAnswer(rs).NoAddress? <==> forall i | 0 <= i < |rs| :: !(rs[i].rtype == 1 && rs[i].rclass == 1)
    ensures forall i | 0 <= i < |rs| && rs[i].rtype == 1 && rs[i].rclass == 1
                       && (forall j | 0 <= j < i :: !(rs[j].rtype == 1 && rs[j].rclass == 1)) ::
              FirstAnswer(rs) == if |rs[i].rdata| == 4 then Address(rs[i].rdata) else WeirdSize
  {
    if rs != [] && !rs[0].IsAddress() {
      FirstAnswerIs(rs[1..]);
      forall i | 0 <= i < |rs| && rs[i].IsAddress() && (forall j | 0 <= j < i :: !rs[j].IsAddress())
        ensures FirstAnswer(rs) == if |rs[i].rdata| == 4 then Address(rs[i].rdata) else WeirdSize
      {
        assert rs[1..][i - 1] == rs[i];
        assert forall j | 0 <= j < i - 1 :: rs[1..][j] == rs[j + 1];
      }
      assert forall i | 1 <= i < |rs| :: rs[1..][i - 1] == rs[i];
    }
  }

  function Code(a: Answer): int {
    match a case Address(_) => SUCCESS case WeirdSize => -9 case NoAddress => -10
  }

  method ReadWord(u: EthernetUDP) returns (v: nat)
    requires u.Valid() && |Rest(u)| >= 2
    modifies u`remaining, u`delivered, u.sock`rxRd, u.sock`rxSize
    ensures u.Valid() && v == Be16(old(Rest(u))[..2], 0) && Rest(u) == old(Rest(u))[2..]
  {
    hide EthernetUDP.Valid, Rest;
    var r := ReadBytes(u, 2);
    v := Be16(r, 0);
  }

  /** Read a record up to its data. */
  method ReadRecord(u: EthernetUDP, ghost r: Record, ghost rest: seq<byte>)
    returns (rtype: nat, rclass: nat, length: nat)
    requires u.Valid() && r.Ok() && Rest(u) == r.Bytes() + rest
    modifies u`remaining, u`delivered, u.sock`rxRd, u.sock`rxSize
    ensures u.Valid() && rtype == r.rtype && rclass == r.rclass && length == |r.rdata| && Rest(u) == r.rdata + rest
  {
    hide EthernetUDP.Valid, Rest, Record.Bytes, Record.Fields, LabelBytes, EndBytes, Proper, Be16;
    RecordSplit(r, rest);
    FieldsStep(r, rest);
    SkipRecordName(u, r.labels, r.end, r.Fields() + rest);
    rtype := ReadWord(u);
    rclass := ReadWord(u);
    SkipBytes(u, 4);
    length := ReadWord(u);
  }

  /** Go through the answers up to the first address record. */
  method ReadAnswers(u: EthernetUDP, count: nat, ghost rs: seq<Record>, ghost tail: seq<byte>)
    returns (code: int, ip: seq<byte>)
    requires u.Valid() && count == |rs| && (forall r | r in rs :: r.Ok()) && Rest(u) == RecordBytes(rs) + tail
    modifies u`remaining, u`delivered, u.sock`rxRd, u.sock`rxSize
    ensures u.Valid() && code == Code(FirstAnswer(rs))
    ensures FirstAnswer(rs).Address? ==> ip == FirstAnswer(rs).ip
  {
    hide EthernetUDP.Valid, Rest, RecordBytes, FirstAnswer, Record.Bytes, Record.Ok;
    ghost var left := rs;
    var i := 0;
    ip := [];
    while i < count
      invariant 0 <= i <= count && |left| == count - i && u.Valid() && (forall r | r in left :: r.Ok())
      invariant Rest(u) == RecordBytes(left) + tail && FirstAnswer(left) == FirstAnswer(rs)
    {
      ghost var r, rest := left[0], RecordBytes(left[1..]) + tail;
      FirstRecord(left, tail);
      var rtype, rclass, length := ReadRecord(u, r, rest);
      DataThenRest(r.rdata, rest);
      if rtype == TYPE_A && rclass == CLASS_IN {
        if length != 4 {
          return -9, [];
        }
        ip := ReadBytes(u, 4);
        return SUCCESS, ip;
      }
      SkipBytes(u, length);
      left := left[1..];
      i := i + 1;
    }
    NoRecords(left);
    return -10, [];
  }

  lemma FirstRecord(rs: seq<Record>, tail: seq<byte>)
    requires rs != [] && forall r | r in rs :: r.Ok()
    ensures RecordBytes(rs) + tail == rs[0].Bytes() + (RecordBytes(rs[1..]) + tail)
    ensures FirstAnswer(rs) ==
              if rs[0].IsAddress() then (if |rs[0].rdata| == 4 then Address(rs[0].rdata) else WeirdSize)
                               else FirstAnswer(rs[1..])
  {
    Regroup(rs[0].Bytes(), RecordBytes(rs[1..]), tail);
  }

  lemma DataThenRest(d: seq<byte>, rest: seq<byte>)
    ensures (d + rest)[..|d|] == d && (d + rest)[|d|..] == rest && |d + rest| >= |d|
  {
  }

  lemma NoRecords(rs: seq<Record>)
    ensures rs == [] ==> FirstAnswer(rs) == NoAddress
  {
  }

  /** Skip the questions: afterwards reading goes on exactly behind them. */
  method SkipQuestions(u: EthernetUDP, count: nat, ghost qs: seq<Question>, ghost rest: seq<byte>)
    requires u.Valid() && count == |qs| && (forall q | q in qs :: q.Ok()) && Rest(u) == QuestionBytes(qs) + rest
    modifies u`remaining, u`delivered, u.sock`rxRd, u.sock`rxSize
    ensures u.Valid() && Rest(u) == rest
  {
    hide EthernetUDP.Valid, Rest, QuestionBytes, LabelBytes, Proper;
    ghost var left := qs;
    var i := 0;
    NoQuestions(rest);
    while i < count
      invariant 0 <= i <= count && |left| == count - i && u.Valid() && (forall q | q in left :: q.Ok())
      invariant Rest(u) == QuestionBytes(left) + rest
    {
      ghost var q, after := left[0], QuestionBytes(left[1..]) + rest;
      assert q in left;
      FirstQuestion(left, rest);
      SkipName(u, q.labels, q.kind + after);
      DataThenRest(q.kind, after);
      SkipBytes(u, 4);
      left := left[1..];
      i := i + 1;
    }
  }

  lemma NoQuestions(rest: seq<byte>)
    ensures QuestionBytes([]) + rest == rest
  {
  }

  lemma FirstQuestion(qs: seq<Question>, rest: seq<byte>)
    requires qs != [] && qs[0].Ok() && forall q | q in qs :: q.Ok()
    ensures Proper(qs[0].labels, 255) && |qs[0].kind| == 4
    ensures QuestionBytes(qs) + rest ==
              LabelBytes(qs[0].labels) + ([0] + (qs[0].kind + (QuestionBytes(qs[1..]) + rest)))
  {
    hide LabelBytes;
    var q, after := qs[0], QuestionBytes(qs[1..]) + rest;
    Regroup(q.Bytes(), QuestionBytes(qs[1..]), rest);
    Regroup(LabelBytes(q.labels), [0], q.kind);
    Regroup(LabelBytes(q.labels), [0] + q.kind, after);
    Regroup([0], q.kind, after);
  }

  /** A response as its server means it. */
  datatype Response = Response(id: nat, flags: nat, questions: seq<Question>, answers: seq<Record>, more: seq<byte>) {
    predicate Ok() {
      && id < TWO16
      && flags < TWO16
      && |questions| < TWO16
      && |answers| < TWO16
      && (forall q | q in questions :: q.Ok())
      && (forall r | r in answers :: r.Ok())
    }

    /** `more` are the counts of the other sections, and `tail` these sections. */
    function Bytes(tail: seq<byte>): seq<byte>
      requires Ok() && |more| == 4
    {
      PutBe16(id) + PutBe16(flags) + PutBe16(|questions|) + PutBe16(|answers|) + more
      + (QuestionBytes(questions) + (RecordBytes(answers) + tail))
    }
  }

  predicate IsResponse(flags: nat) { flags / 0x8000 % 2 == 1 }

  predicate HasError(flags: nat) { flags / 0x200 % 2 == 1 || flags % 0x10 != 0 }

  /** The fields of the second word of the header, section 4.1.1 of RFC 1035: query
      or response, opcode, authoritative, truncated, recursion desired and
      available, three reserved bits and the response code. */
  datatype HeaderFlags = HeaderFlags(qr: bool, opcode: nat, aa: bool, tc: bool, rd: bool, ra: bool, z: nat, rcode: nat)
  {
    predicate Ok() { opcode < 16 && z < 8 && rcode < 16 }

    /** Their bits in this order, the first one highest. */
    function Word(): nat {
      0x8000 * Bit(qr) + 0x800 * opcode
      + 0x400 * Bit(aa) + 0x200 * Bit(tc) + 0x100 * Bit(rd) + 0x80 * Bit(ra)
      + 0x10 * z + rcode
    }
  }

  function Bit(b: bool): nat { if b then 1 else 0 }

  /** What the library makes of the word. */
  lemma FlagsWord(h: HeaderFlags)
    requires h.Ok()
    ensures h.Word() < TWO16
    ensures IsResponse(h.Word()) == h.qr
    ensures HasError(h.Word()) == (h.tc || h.rcode != 0)
  {
    var high := 0x40 * Bit(h.qr) + 4 * h.opcode + 2 * Bit(h.aa) + Bit(h.tc);
    assert h.Word() / 0x200 == high;
    assert high % 2 == Bit(h.tc);
    assert h.Word() / 0x8000 == Bit(h.qr);
    assert h.Word() % 0x10 == h.rcode;
  }

  /** What the header of a datagram says. */
  predicate GoesOn(payload: seq<byte>, id: nat) {
    && |payload| >= DNS_HEADER_SIZE
    && Be16(payload, 0) == id
    && IsResponse(Be16(payload, 2))
    && !HasError(Be16(payload, 2))
    && Be16(payload, 6) != 0
  }

  /** What becomes of a datagram that is no usable answer. */
  function Rejection(payload: seq<byte>, id: nat): int
    requires !GoesOn(payload, id)
  {
    if |payload| < DNS_HEADER_SIZE then TRUNCATED
    else if Be16(payload, 0) != id || !IsResponse(Be16(payload, 2)) then INVALID_RESPONSE
    else if HasError(Be16(payload, 2)) then -5
    else -6
  }

  /** Act on a datagram just parsed. Every datagram that is not from the server,
      too short, for another request, an error or without answers is turned
      down; from a well-formed response the first address record is taken. */
  method ProcessResponse(u: EthernetUDP, server: seq<byte>, id: nat, ghost msg: Response, ghost tail: seq<byte>)
    returns (code: int, ip: seq<byte>)
    requires u.Valid() && u.delivered == []
    requires GoesOn(u.payload, id) ==> msg.Ok() && |msg.more| == 4 && u.payload == msg.Bytes(tail)
    modifies u`remaining, u`delivered, u.sock`rxRd, u.sock`rxSize
    ensures u.Valid()
    ensures u.remoteIP != server || u.remotePort != 53 ==> code == -2
    ensures u.remoteIP == server && u.remotePort == 53 && |u.payload| < 12 ==> code == -3
    ensures u.remoteIP == server && u.remotePort == 53 && |u.payload| >= 12 && NetworkNumber(u.payload[..2]) != id ==>
              code == -4
    ensures u.remoteIP == server && u.remotePort == DNS_PORT && !GoesOn(u.payload, id) ==>
              code == Rejection(u.payload, id)
    ensures u.remoteIP == server && u.remotePort == DNS_PORT && GoesOn(u.payload, id) ==>
              code == Code(FirstAnswer(msg.answers))
              && (FirstAnswer(msg.answers).Address? ==> ip == FirstAnswer(msg.answers).ip)
    ensures u.remoteIP == server && u.remotePort == DNS_PORT && |u.payload| >= 12 ==>
              forall h: HeaderFlags | h.Ok() && Matches(u.payload, id, h) :: Decided(u.payload, h, code)
  {
    hide EthernetUDP.Valid, EthernetUDP.RxValid, Response.Bytes, Rest, Be16, FirstAnswer, RecordBytes, QuestionBytes,
         Matches, Decided, HeaderFlags.Ok, NetworkNumber;
    if |u.payload| >= 12 {
      IdWord(u.payload);
    }
    if u.remoteIP != server || u.remotePort != DNS_PORT {
      return INVALID_SERVER, [];
    }
    NothingRead(u);
    if u.remaining < DNS_HEADER_SIZE {
      return TRUNCATED, [];
    }
    var header := ReadBytes(u, DNS_HEADER_SIZE);
    HeaderWords(u.payload, header);
    var flags := Be16(header, 2);
    if id != Be16(header, 0) || !IsResponse(flags) {
      Decides(u.payload, id, [], INVALID_RESPONSE);
      return INVALID_RESPONSE, [];
    }
    if HasError(flags) {
      Decides(u.payload, id, [], -5);
      return -5, [];
    }
    var answerCount := Be16(header, 6);
    if answerCount == 0 {
      Decides(u.payload, id, [], -6);
      return -6, [];
    }
    ResponseParts(msg, tail);
    SkipQuestions(u, Be16(header, 4), msg.questions, RecordBytes(msg.answers) + tail);
    code, ip := ReadAnswers(u, answerCount, msg.answers, tail);
    Decides(u.payload, id, msg.answers, code);
  }

  /** The datagram begins with the request's number and these flags. */
  predicate Matches(payload: seq<byte>, id: nat, h: HeaderFlags)
    requires |payload| >= 12
  {
    NetworkNumber(payload[..2]) == id && NetworkNumber(payload[2..4]) == h.Word()
  }

  /** A datagram whose first words match is turned down or not as its flags and
      its number of answers say. */
  lemma MatchDecides(payload: seq<byte>, id: nat, h: HeaderFlags)
    requires |payload| >= 12 && h.Ok() && Matches(payload, id, h)
    ensures !h.qr ==> !GoesOn(payload, id) && Rejection(payload, id) == -4
    ensures h.qr && (h.tc || h.rcode != 0) ==> !GoesOn(payload, id) && Rejection(payload, id) == -5
    ensures h.qr && !h.tc && h.rcode == 0 ==> (GoesOn(payload, id) <==> !(payload[6] == payload[7] == 0))
    ensures h.qr && !h.tc && h.rcode == 0 && !GoesOn(payload, id) ==> Rejection(payload, id) == -6
  {
    hide NetworkNumber, HeaderFlags.Word, HasError, IsResponse;
    FlagsWord(h);
    NumberOfTwo(payload[0], payload[1]);
    NumberOfTwo(payload[2], payload[3]);
    assert payload[..2] == [payload[0], payload[1]] && payload[2..4] == [payload[2], payload[3]];
  }

  /** What is no response is turned down with -4; a response that is truncated or
      reports an error with -5, whatever its other flags; and one without answers with -6. */
  predicate Decided(payload: seq<byte>, h: HeaderFlags, code: int)
    requires |payload| >= 12
  {
    && (!h.qr ==> code == -4)
    && (h.qr ==> (code == -5 <==> h.tc || h.rcode != 0))
    && (h.qr && !h.tc && h.rcode == 0 ==> (code == -6 <==> payload[6] == payload[7] == 0))
  }

  /** The code of an unusable datagram, or that of its answers, is the one the
      flags decide. */
  lemma Decides(payload: seq<byte>, id: nat, rs: seq<Record>, code: int)
    requires |payload| >= 12
    requires code == if GoesOn(payload, id) then Code(FirstAnswer(rs)) else Rejection(payload, id)
    ensures forall h: HeaderFlags | h.Ok() && Matches(payload, id, h) :: Decided(payload, h, code)
  {
    hide GoesOn, Rejection, Matches, Code;
    CodesApart(rs);
    forall h: HeaderFlags | h.Ok() && Matches(payload, id, h)
      ensures Decided(payload, h, code)
    {
      MatchDecides(payload, id, h);
    }
  }

  lemma IdWord(payload: seq<byte>)
    requires |payload| >= 12
    ensures NetworkNumber(payload[..2]) == Be16(payload, 0)
  {
    NumberOfTwo(payload[0], payload[1]);
    assert payload[..2] == [payload[0], payload[1]];
  }

  lemma CodesApart(rs: seq<Record>)
    ensures Code(FirstAnswer(rs)) == 1 || Code(FirstAnswer(rs)) == -9 || Code(FirstAnswer(rs)) == -10
  {
  }

  lemma NothingRead(u: EthernetUDP)
    requires u.Valid() && u.delivered == []
    ensures Rest(u) == u.payload && u.remaining == |u.payload|
  {
  }

  lemma HeaderWords(payload: seq<byte>, header: seq<byte>)
    requires |payload| >= 12 && header == payload[..12]
    ensures forall i | 0 <= i <= 10 :: Be16(header, i) == Be16(payload, i)
  {
  }

  lemma ResponseParts(msg: Response, tail: seq<byte>)
    requires msg.Ok() && |msg.more| == 4
    ensures var s := msg.Bytes(tail);
            && |s| >= 12 && s[12..] == QuestionBytes(msg.questions) + (RecordBytes(msg.answers) + tail)
            && Be16(s, 0) == msg.id && Be16(s, 2) == msg.flags
            && Be16(s, 4) == |msg.questions| && Be16(s, 6) == |msg.answers|
  {
    hide PutBe16, QuestionBytes, RecordBytes;
    var body := QuestionBytes(msg.questions) + (RecordBytes(msg.answers) + tail);
    var a, b, c, d := PutBe16(msg.id), PutBe16(msg.flags), PutBe16(|msg.questions|), PutBe16(|msg.answers|);
    var s := msg.Bytes(tail);
    assert s == a + b + c + d + msg.more + body;
    HeaderPlaces(a, b, c, d, msg.more, body);
  }

  lemma HeaderPlaces(a: seq<byte>, b: seq<byte>, c: seq<byte>, d: seq<byte>, more: seq<byte>, body: seq<byte>)
    requires |a| == |b| == |c| == |d| == 2 && |more| == 4
    ensures var s := a + b + c + d + more + body;
            && |s| >= 12 && s[12..] == body
            && Be16(s, 0) == Be16(a, 0) && Be16(s, 2) == Be16(b, 0)
            && Be16(s, 4) == Be16(c, 0) && Be16(s, 6) == Be16(d, 0)
  {
  }
}
