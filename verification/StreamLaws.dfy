/** Ascending 32-bit sequence numbers against the modular test for gaps, and what `Data` and `UUID` of a
    message say about the stream it was cut from. */
module StreamLaws {
  import opened Bytes
  import opened Words
  import opened Packets
  import opened FullPayload
  import opened FullPayloadLaws
  import opened Messages
  import opened MessageLaws

  // ----- a message without gaps is one stretch of the stream --------------------------------------

  /** Each packet begins where the one before it ends, in plain integers. */
  predicate Contiguous(ps: seq<Pkt>) {
    forall i :: 0 <= i < |ps| - 1 ==> ps[i + 1].seqNo == ps[i].seqNo + |ps[i].payload|
  }

  predicate Short(ps: seq<Pkt>) {
    forall i :: 0 <= i < |ps| ==> |ps[i].payload| < 0x1_0000_0000
  }

  /** `MissingChunk` adds modulo 2^32, but on ascending packets it finds no gap exactly when plain
      addition finds none: a message it accepts does not wrap. */
  lemma {:induction false} NoGapMeansContiguous(ps: seq<Pkt>)
    requires ps != [] && Sorted(ps) && Short(ps)
    ensures !MissingChunk(ps) <==> Contiguous(ps)
  {
    if |ps| > 1 {
      var tail := ps[1..];
      var next := (ps[0].seqNo + |ps[0].payload|) % 0x1_0000_0000;
      assert tail[0] == ps[1];
      NoGapMeansContiguous(tail);
      if ps[1].seqNo == ps[0].seqNo + |ps[0].payload| {
        assert next == tail[0].seqNo;
        ContiguousTail(ps);
      } else {
        assert ps[0].seqNo < ps[1].seqNo;
        assert GapFrom(tail, next);
        assert !Contiguous(ps);
      }
    } else {
      assert !GapFrom(ps[1..], (ps[0].seqNo + |ps[0].payload|) % 0x1_0000_0000);
    }
  }

  lemma ContiguousTail(ps: seq<Pkt>)
    requires |ps| > 1 && ps[1].seqNo == ps[0].seqNo + |ps[0].payload|
    ensures Contiguous(ps) <==> Contiguous(ps[1..])
  {
    var tail := ps[1..];
    assert forall i :: 0 <= i < |tail| ==> tail[i] == ps[i + 1];
    if Contiguous(tail) {
      forall i | 0 <= i < |ps| - 1
        ensures ps[i + 1].seqNo == ps[i].seqNo + |ps[i].payload|
      {
        if i > 0 {
          assert tail[i].seqNo == tail[i - 1].seqNo + |tail[i - 1].payload|;
        }
      }
    }
  }

  lemma PayloadsTail(ps: seq<Pkt>)
    requires ps != []
    ensures Payloads(ps)[0] == ps[0].payload && Payloads(ps)[1..] == Payloads(ps[1..])
  {}

  lemma {:induction false} ConcatLength(ps: seq<Pkt>)
    ensures |Concat(Payloads(ps))| == SumLength(ps)
  {
    if ps != [] {
      PayloadsTail(ps);
      ConcatLength(ps[1..]);
    }
  }

  /** In a contiguous message every payload stands at its Seq minus the first Seq, and the total length
      is the end of the last packet minus the first Seq. */
  lemma {:induction false} DataOffsets(ps: seq<Pkt>, i: nat)
    requires Contiguous(ps) && i < |ps|
    ensures var data := Concat(Payloads(ps));
            var at := ps[i].seqNo - ps[0].seqNo;
            && 0 <= at <= at + |ps[i].payload| <= |data|
            && data[at..at + |ps[i].payload|] == ps[i].payload
            && |data| == SumLength(ps) == ps[|ps| - 1].seqNo + |ps[|ps| - 1].payload| - ps[0].seqNo
  {
    hide Payloads, SumLength;
    PayloadsTail(ps);
    ConcatLength(ps);
    var first, rest := ps[0].payload, Concat(Payloads(ps[1..]));
    if |ps| == 1 {
      ConcatLength(ps[1..]);
      NothingLeft(ps[1..]);
      assert first + rest == first;
    } else {
      ContiguousTail(ps);
      if i > 0 {
        DataOffsets(ps[1..], i - 1);
        SliceBehind(first, rest, ps[i].seqNo - ps[1].seqNo, |ps[i].payload|);
      } else {
        DataOffsets(ps[1..], 0);
        assert (first + rest)[..|first|] == first;
      }
    }
  }

  lemma NothingLeft(ps: seq<Pkt>)
    requires ps == []
    ensures SumLength(ps) == 0
  {}

  lemma SliceBehind(a: seq<byte>, b: seq<byte>, at: nat, n: nat)
    requires at + n <= |b|
    ensures (a + b)[|a| + at..|a| + at + n] == b[at..at + n]
  {}

  // ----- streams that wrap --------------------------------------------------------------------------

  function Offset(segs: seq<Pkt>, i: nat): nat
    requires i <= |segs|
  {
    SumLength(segs[..i])
  }

  /** The segments of a stream whose first byte has number `isn`: numbered modulo 2^32. */
  predicate Stream(segs: seq<Pkt>, isn: uint32) {
    && segs != [] && SumLength(segs) < 0x1_0000_0000
    && forall i :: 0 <= i < |segs| ==>
         segs[i].payload != [] && segs[i].seqNo == (isn + Offset(segs, i)) % 0x1_0000_0000
  }

  /** No segment begins past the wrap. */
  predicate NoWrap(segs: seq<Pkt>, isn: uint32)
    requires segs != []
  {
    isn + Offset(segs, |segs| - 1) < 0x1_0000_0000
  }

  lemma {:induction false} OffsetStep(segs: seq<Pkt>, i: nat)
    requires i < |segs|
    ensures Offset(segs, i + 1) == Offset(segs, i) + |segs[i].payload|
  {
    assert segs[..i + 1] == segs[..i] + [segs[i]] + [];
    SumsInserted(segs[..i], segs[i], []);
    assert segs[..i] + [] == segs[..i];
  }

  lemma {:induction false} OffsetsGrow(segs: seq<Pkt>, i: nat, j: nat)
    requires i <= j <= |segs| && forall k :: 0 <= k < |segs| ==> segs[k].payload != []
    ensures Offset(segs, i) + (j - i) <= Offset(segs, j)
    decreases j
  {
    if i < j {
      OffsetStep(segs, j - 1);
      OffsetsGrow(segs, i, j - 1);
    }
  }

  lemma OffsetsBound(segs: seq<Pkt>, isn: uint32, i: nat)
    requires Stream(segs, isn) && i < |segs|
    ensures Offset(segs, i) + |segs[i].payload| <= SumLength(segs)
  {
    OffsetStep(segs, i);
    OffsetsGrow(segs, i + 1, |segs|);
    assert segs[..|segs|] == segs;
  }

  lemma UnwrappedSorted(segs: seq<Pkt>, isn: uint32)
    requires Stream(segs, isn) && NoWrap(segs, isn)
    ensures Sorted(segs) && Contiguous(segs)
    ensures forall i :: 0 <= i < |segs| ==> segs[i].seqNo == isn + Offset(segs, i)
  {
    hide Offset;
    forall i | 0 <= i < |segs|
      ensures segs[i].seqNo == isn + Offset(segs, i)
    {
      OffsetsGrow(segs, i, |segs| - 1);
    }
    forall i | 0 <= i < |segs| - 1
      ensures segs[i + 1].seqNo == segs[i].seqNo + |segs[i].payload|
    {
      OffsetStep(segs, i);
    }
    forall i, j | 0 <= i < j < |segs|
      ensures segs[i].seqNo < segs[j].seqNo
    {
      OffsetsGrow(segs, i, j);
    }
  }

  lemma StreamShort(segs: seq<Pkt>, isn: uint32)
    requires Stream(segs, isn)
    ensures Short(segs) && SeqNames(segs)
  {
    hide Offset;
    forall i | 0 <= i < |segs|
      ensures |segs[i].payload| < 0x1_0000_0000
    {
      OffsetsBound(segs, isn, i);
    }
    forall p, q | p in segs && q in segs && p.seqNo == q.seqNo
      ensures p == q
    {
      var i :| 0 <= i < |segs| && segs[i] == p;
      var j :| 0 <= j < |segs| && segs[j] == q;
      OffsetsBound(segs, isn, i);
      OffsetsBound(segs, isn, j);
      SameOffset(segs, isn, i, j);
    }
  }

  lemma SameOffset(segs: seq<Pkt>, isn: uint32, i: nat, j: nat)
    requires Stream(segs, isn) && i < |segs| && j < |segs| && segs[i].seqNo == segs[j].seqNo
    requires Offset(segs, i) < 0x1_0000_0000 && Offset(segs, j) < 0x1_0000_0000
    ensures i == j
  {
    hide Offset;
    if i < j {
      OffsetsGrow(segs, i, j);
    } else if j < i {
      OffsetsGrow(segs, j, i);
    }
  }

  /** All segments of a stream have arrived, in some order: `MissingChunk` sees no gap exactly when no
      segment begins past the 32-bit wrap. */
  lemma WrapLooksLikeGap(segs: seq<Pkt>, isn: uint32, ps: seq<Pkt>)
    requires Stream(segs, isn)
    requires Sorted(ps) && forall p :: p in ps <==> p in segs
    ensures ps != [] && (!MissingChunk(ps) <==> NoWrap(segs, isn))
  {
    hide Offset;
    assert segs[0] in ps;
    StreamShort(segs, isn);
    assert Short(ps) by {
      forall i | 0 <= i < |ps|
        ensures |ps[i].payload| < 0x1_0000_0000
      {
        assert ps[i] in segs;
      }
    }
    NoGapMeansContiguous(ps);
    if NoWrap(segs, isn) {
      UnwrappedSorted(segs, isn);
      SortedUnique(ps, segs);
    } else if Contiguous(ps) {
      BeforeFirst(segs, isn, ps);
      assert false;
    }
  }

  /** Past the wrap some packet sorts below the first one, and none of those can end where it begins. */
  lemma BeforeFirst(segs: seq<Pkt>, isn: uint32, ps: seq<Pkt>)
    requires Stream(segs, isn) && !NoWrap(segs, isn)
    requires Sorted(ps) && forall p :: p in ps <==> p in segs
    ensures !Contiguous(ps)
  {
    hide Offset, Sorted, SumLength;
    assert Offset(segs, 0) == 0 by { OffsetZero(segs); }
    var last := segs[|segs| - 1];
    OffsetsBound(segs, isn, |segs| - 1);
    assert last.seqNo < segs[0].seqNo;
    var i := PositionOf(ps, segs[0]);
    var l := PositionOf(ps, last);
    LessFirst(ps, l, i);
    var before := ps[i - 1];
    assert before in ps;
    LessFirst(ps, i - 1, i);
    var k := PositionOf(segs, before);
    OffsetsBound(segs, isn, k);
    assert before.seqNo + |before.payload| != segs[0].seqNo;
  }

  lemma LessFirst(ps: seq<Pkt>, l: nat, i: nat)
    requires Sorted(ps) && l < |ps| && i < |ps|
    ensures ps[l].seqNo < ps[i].seqNo <==> l < i
  {}

  lemma PositionOf(ps: seq<Pkt>, p: Pkt) returns (i: nat)
    requires p in ps
    ensures i < |ps| && ps[i] == p
  {
    i :| 0 <= i < |ps| && ps[i] == p;
  }

  lemma OffsetZero(segs: seq<Pkt>)
    ensures Offset(segs, 0) == 0
  {}

  // ----- copySlice -----------------------------------------------------------------------------------

  lemma {:induction false} FillCopies(buf: seq<byte>, skip: nat, from: seq<seq<byte>>)
    requires skip + Total(from) <= |buf|
    ensures Fill(buf, skip, from) == (buf[..skip] + Concat(from) + buf[skip + Total(from)..], skip + Total(from))
    decreases |from|
  {
    if from != [] {
      var piece := from[0];
      var next := Written(buf, skip, piece);
      FillCopies(next, skip + |piece|, from[1..]);
      assert next[..skip + |piece|] == buf[..skip] + piece;
      assert next[skip + Total(from)..] == buf[skip + Total(from)..];
      assert (buf[..skip] + piece) + Concat(from[1..]) == buf[..skip] + Concat(from);
    } else {
      assert Concat(from) == [] && Total(from) == 0;
      assert buf[..skip] + [] + buf[skip + 0..] == buf;
    }
  }

  lemma {:induction false} FillLength(buf: seq<byte>, skip: nat, from: seq<seq<byte>>)
    requires skip <= |buf|
    ensures |Fill(buf, skip, from).0| == |buf|
    decreases |from|
  {
    if from != [] {
      var n := if |from[0]| <= |buf| - skip then |from[0]| else |buf| - skip;
      FillLength(Written(buf, skip, from[0]), skip + n, from[1..]);
    }
  }

  /** `copySlice` appends the pieces exactly when the slice has no spare capacity, or nothing is to be
      appended; otherwise it truncates. */
  lemma CopySliceAppends(to: seq<byte>, cap: nat, from: seq<seq<byte>>)
    requires |to| <= cap
    ensures CopySlice(to, cap, |to|, from).0 == to + Concat(from) <==> cap == |to| || Total(from) == 0
  {
    hide Fill;
    var total := Total(from) + |to|;
    var buf := if cap < total then to + Zeros(total - cap) else to;
    FillLength(buf, |to|, from);
    TotalIsConcat(from);
    if |buf| == total {
      FillCopies(buf, |to|, from);
      assert buf[..|to|] == to && buf[total..] == [];
    }
  }

  /** The raw data of a message are its payloads in order. */
  lemma RawDataIsConcat(m: Msg)
    requires m.packets != [] && m.packets[0].spare == 0
    ensures RawData(m) == Concat(Payloads(m.packets))
  {
    hide CopySlice;
    PayloadsTail(m.packets);
    CopySliceAppends(m.packets[0].payload, |m.packets[0].payload|, Payloads(m.packets)[1..]);
  }

  /** The raw data of a message without gaps are the stream from its first Seq to the end of its last
      packet, every payload at its Seq minus the first; unless it asks for a 100-continue, the parser
      sends them as they are. */
  lemma GaplessData(m: Msg, i: nat)
    requires i < |m.packets| && m.packets[0].spare == 0
    requires Sorted(m.packets) && Short(m.packets) && !MissingChunk(m.packets)
    ensures var ps, data := m.packets, RawData(m);
            var at := ps[i].seqNo - ps[0].seqNo;
            && 0 <= at <= at + |ps[i].payload| <= |data|
            && data[at..at + |ps[i].payload|] == ps[i].payload
            && |data| == ps[|ps| - 1].seqNo + |ps[|ps| - 1].payload| - ps[0].seqNo
    ensures !m.framing.continue100 ==> Data(m) == RawData(m)
  {
    hide Sorted, Short, MissingChunk, Contiguous, RawData, Concat, Payloads, SumLength;
    NoGapMeansContiguous(m.packets);
    RawDataIsConcat(m);
    DataOffsets(m.packets, i);
  }

  // ----- UUIDs -----------------------------------------------------------------------------------------

  lemma StreamIdFields(client: uint16, server: uint16, ip: uint32)
    ensures StreamId(client, server, ip) == client * 0x1_0000_0000_0000 + server * 0x1_0000_0000 + ip
  {
    hide BitOr, Pow2;
    Pow2Words();
    var c: nat, s: nat := client, server;
    BitOrParts(c * 0x1_0000, 0, s, 0, 32);
    BitOrParts(c, 0, 0, s, 16);
    BitOrZero(c);
    BitOrZero(s);
    BitOrZero(0);
    BitOrParts(c * 0x1_0000 + s, 0, 0, ip, 32);
    BitOrZero(c * 0x1_0000 + s);
    BitOrZero(ip);
  }

  lemma BigEndianInjective(x: nat, y: nat, k: nat)
    requires x < Pow2(8 * k) && y < Pow2(8 * k) && BigEndian(x, k) == BigEndian(y, k)
    ensures x == y
  {
    hide BigEndian, Pow2;
    BigEndianRoundTrip(x, k);
    BigEndianRoundTrip(y, k);
  }

  /** A request and a response share a UUID exactly when their ports are swapped, the client address is
      the same and the response starts at the Seq the request acknowledges. */
  lemma UuidPairs(request: Msg, response: Msg)
    requires request.packets != [] && response.packets != []
    requires request.direction == DirIncoming && response.direction != DirIncoming
    ensures UUID(request) == UUID(response) <==>
            var p, q := request.packets[0], response.packets[0];
            && p.srcPort == q.dstPort && p.dstPort == q.srcPort
            && Ip2Int(p.srcIP) == Ip2Int(q.dstIP)
            && p.ack == q.seqNo
  {
    hide BigEndian, Hex, StreamId, Ip2Int;
    var p, q := request.packets[0], response.packets[0];
    var a := StreamId(p.srcPort, p.dstPort, Ip2Int(p.srcIP));
    var b := StreamId(q.dstPort, q.srcPort, Ip2Int(q.dstIP));
    SameStream(p.srcPort, p.dstPort, Ip2Int(p.srcIP), q.dstPort, q.srcPort, Ip2Int(q.dstIP));
    StreamIdFields(p.srcPort, p.dstPort, Ip2Int(p.srcIP));
    StreamIdFields(q.dstPort, q.srcPort, Ip2Int(q.dstIP));
    SameText(a, p.ack, b, q.seqNo);
  }

  /** Between IPv4 hosts the client address is the source of the request and the destination of the
      response. */
  lemma UuidPairsIpv4(request: Msg, response: Msg)
    requires request.packets != [] && response.packets != []
    requires request.direction == DirIncoming && response.direction != DirIncoming
    requires |request.packets[0].srcIP| == 4 && |response.packets[0].dstIP| == 4
    ensures UUID(request) == UUID(response) <==>
            var p, q := request.packets[0], response.packets[0];
            p.srcPort == q.dstPort && p.dstPort == q.srcPort && p.srcIP == q.dstIP && p.ack == q.seqNo
  {
    hide UUID, Ip2Int;
    UuidPairs(request, response);
    SameIpv4(request.packets[0].srcIP, response.packets[0].dstIP);
  }

  /** The bytes a UUID writes in hexadecimal: two of the client's port, two of the server's, four of the
      client's address, and four of the Ack of a request or of the Seq of a response. */
  lemma UuidBytes(m: Msg)
    requires m.packets != []
    ensures var p := m.packets[0];
            && (m.direction == DirIncoming && |p.srcIP| == 4 ==>
                  UUID(m) == Hex([p.srcPort / 256, p.srcPort % 256, p.dstPort / 256, p.dstPort % 256] + p.srcIP
                                 + Word(p.ack)))
            && (m.direction != DirIncoming && |p.dstIP| == 4 ==>
                  UUID(m) == Hex([p.dstPort / 256, p.dstPort % 256, p.srcPort / 256, p.srcPort % 256] + p.dstIP
                                 + Word(p.seqNo)))
  {
    hide Hex, StreamId, BigEndian, Ip2Int;
    var p := m.packets[0];
    BytesOfWord32(p.ack);
    BytesOfWord32(p.seqNo);
    if |p.srcIP| == 4 {
      StreamBytes(p.srcPort, p.dstPort, p.srcIP);
    }
    if |p.dstIP| == 4 {
      StreamBytes(p.dstPort, p.srcPort, p.dstIP);
    }
  }

  /** A 32-bit number as four bytes, the highest first. */
  function Word(x: uint32): seq<byte> {
    [x / 256 / 256 / 256, x / 256 / 256 % 256, x / 256 % 256, x % 256]
  }

  lemma StreamBytes(client: uint16, server: uint16, ip: seq<byte>)
    requires |ip| == 4
    ensures BigEndian(StreamId(client, server, Ip2Int(ip)), 8)
         == [client / 256, client % 256, server / 256, server % 256] + ip
  {
    hide StreamId, BigEndian, Ip2Int;
    assert ip == [ip[0], ip[1], ip[2], ip[3]];
    Ipv4Word(ip[0], ip[1], ip[2], ip[3]);
    var w := Ip2Int(ip);
    StreamIdFields(client, server, w);
    var hi: nat := client * 0x1_0000 + server;
    HighLow(hi, w);
    BytesOfWord32(hi);
    BytesOfWord32(w);
    WordParts(ip[0], ip[1], ip[2], ip[3]);
    LowByte(client, 256, server);
  }

  lemma HighLow(hi: uint32, low: uint32)
    ensures BigEndian(hi * 0x1_0000_0000 + low, 8) == BigEndian(hi, 4) + BigEndian(low, 4)
  {
    hide BigEndian;
    var l1, l2, l3 := low / 256, low / 256 / 256, low / 256 / 256 / 256;
    LowByte(hi, 0x100_0000, low);
    LowByte(hi, 0x1_0000, l1);
    LowByte(hi, 0x100, l2);
    LowByte(hi, 1, l3);
    var x: nat := hi * 0x1_0000_0000 + low;
    BytesPush(x, 7);
    BytesPush(x / 256, 6);
    BytesPush(x / 256 / 256, 5);
    BytesPush(x / 256 / 256 / 256, 4);
    BytesOfWord32(low);
  }

  lemma WordParts(a: byte, b: byte, c: byte, d: byte)
    ensures var x: nat := a * 0x100_0000 + b * 0x1_0000 + c * 0x100 + d;
            x / 256 / 256 / 256 == a && x / 256 / 256 % 256 == b && x / 256 % 256 == c && x % 256 == d
  {
    LowByte(a * 0x1_0000 + b * 0x100 + c, 1, d);
    LowByte(a * 0x100 + b, 1, c);
    LowByte(a, 1, b);
  }

  lemma SameStream(c: uint16, s: uint16, ip: uint32, c': uint16, s': uint16, ip': uint32)
    ensures StreamId(c, s, ip) == StreamId(c', s', ip') <==> c == c' && s == s' && ip == ip'
  {
    hide StreamId;
    StreamIdFields(c, s, ip);
    StreamIdFields(c', s', ip');
  }

  lemma SameText(a: uint64, x: uint32, b: uint64, y: uint32)
    ensures Hex(BigEndian(a, 8) + BigEndian(x, 4)) == Hex(BigEndian(b, 8) + BigEndian(y, 4)) <==> a == b && x == y
  {
    hide BigEndian, Hex;
    var s, t := BigEndian(a, 8) + BigEndian(x, 4), BigEndian(b, 8) + BigEndian(y, 4);
    if Hex(s) == Hex(t) {
      HexInjective(s, t);
      assert s[..8] == BigEndian(a, 8) && t[..8] == BigEndian(b, 8);
      assert s[8..] == BigEndian(x, 4) && t[8..] == BigEndian(y, 4);
      Pow2Bytes();
      BigEndianInjective(a, b, 8);
      BigEndianInjective(x, y, 4);
    }
  }
}
