/** tcp_message.go: a message as a value, how packets join it, and when it has gaps. */
module Messages {
  import opened Bytes
  import opened Words
  import opened Packets
  import opened FullPayload
  import opened HeaderEdits

  datatype Msg = Msg(
    packets: seq<Pkt>,
    framing: Framing,
    length: nat,
    lost: nat,
    start: nat,
    end: nat,
    direction: Dir,
    timedOut: bool)

  // ----- adding a packet --------------------------------------------------------------------

  predicate HasSeq(ps: seq<Pkt>, s: uint32) {
    exists i :: 0 <= i < |ps| && ps[i].seqNo == s
  }

  function FirstAbove(ps: seq<Pkt>, s: uint32, i: nat): (r: nat)
    requires i <= |ps|
    ensures i <= r <= |ps|
    ensures forall j :: i <= j < r ==> ps[j].seqNo <= s
    ensures r < |ps| ==> s < ps[r].seqNo
    decreases |ps| - i
  {
    if i == |ps| || s < ps[i].seqNo then i else FirstAbove(ps, s, i + 1)
  }

  /** Where a packet goes: behind the last, before the first, or before the first one above it. */
  function Place(ps: seq<Pkt>, s: uint32): (r: nat)
    ensures r <= |ps|
  {
    if |ps| == 0 || s > ps[|ps| - 1].seqNo then |ps|
    else if s < ps[0].seqNo then 0
    else FirstAbove(ps, s, 0)
  }

  function Inserted(ps: seq<Pkt>, p: Pkt): seq<Pkt> {
    var k := Place(ps, p.seqNo); ps[..k] + [p] + ps[k..]
  }

  function Later(end: nat, time: nat): nat {
    if time > end || end == 0 then time else end
  }

  /** `Message.add`; a packet whose Seq is there already changes nothing. */
  function Add(m: Msg, p: Pkt): Msg {
    if HasSeq(m.packets, p.seqNo) then m
    else m.(packets := Inserted(m.packets, p), length := m.length + |p.payload|, lost := m.lost + p.lost,
            end := Later(m.end, p.time))
  }

  // ----- gaps --------------------------------------------------------------------------------

  /** The loop of `MissingChunk`, with its 32-bit wrap-around. */
  predicate GapFrom(ps: seq<Pkt>, next: uint32) {
    ps != [] && (ps[0].seqNo != next || GapFrom(ps[1..], (next + |ps[0].payload|) % 0x1_0000_0000))
  }

  predicate MissingChunk(ps: seq<Pkt>)
    requires ps != []
  {
    GapFrom(ps, ps[0].seqNo)
  }

  function Payloads(ps: seq<Pkt>): (r: seq<seq<byte>>)
    ensures |r| == |ps|
  {
    seq(|ps|, i requires 0 <= i < |ps| => ps[i].payload)
  }

  // ----- data --------------------------------------------------------------------------------

  function Written(buf: seq<byte>, skip: nat, piece: seq<byte>): (r: seq<byte>)
    requires skip <= |buf|
    ensures |r| == |buf|
  {
    var n := if |piece| <= |buf| - skip then |piece| else |buf| - skip;
    buf[..skip] + piece[..n] + buf[skip + n..]
  }

  /** The copying loop of `copySlice`. */
  function Fill(buf: seq<byte>, skip: nat, from: seq<seq<byte>>): (seq<byte>, nat)
    requires skip <= |buf|
    decreases |from|
  {
    if from == [] then (buf, skip)
    else
      var n := if |from[0]| <= |buf| - skip then |from[0]| else |buf| - skip;
      Fill(Written(buf, skip, from[0]), skip + n, from[1..])
  }

  function Zeros(n: nat): seq<byte> {
    seq(n, _ => 0)
  }

  /** `copySlice`: the buffer is compared by capacity and extended from its length. */
  function CopySlice(to: seq<byte>, cap: nat, skip: nat, from: seq<seq<byte>>): (seq<byte>, nat)
    requires skip <= |to| <= cap
  {
    var total := Total(from) + skip;
    Fill(if cap < total then to + Zeros(total - cap) else to, skip, from)
  }

  function RawData(m: Msg): seq<byte>
    requires m.packets != []
  {
    var first := m.packets[0];
    CopySlice(first.payload, |first.payload| + first.spare, |first.payload|, Payloads(m.packets)[1..]).0
  }

  /** `Message.Data`: the payloads in order, without the Expect line of a 100-continue request. */
  function Data(m: Msg): seq<byte>
    requires m.packets != []
  {
    if m.framing.continue100 then DeleteHeader(RawData(m), EXPECT) else RawData(m)
  }

  // ----- UUID --------------------------------------------------------------------------------

  /** `Message.UUID`: client port, server port, client address, and the Ack of a request or the Seq of
      its response. */
  function UUID(m: Msg): seq<byte>
    requires m.packets != []
  {
    var p := m.packets[0];
    if m.direction == DirIncoming then
      Hex(BigEndian(StreamId(p.srcPort, p.dstPort, Ip2Int(p.srcIP)), 8) + BigEndian(p.ack, 4))
    else
      Hex(BigEndian(StreamId(p.dstPort, p.srcPort, Ip2Int(p.dstIP)), 8) + BigEndian(p.seqNo, 4))
  }

  function StreamId(client: uint16, server: uint16, ip: uint32): nat {
    BitOr(BitOr(client * 0x1_0000_0000_0000, server * 0x1_0000_0000), ip)
  }
}
