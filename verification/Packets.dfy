/** tcp_packet.go: the fields of a captured TCP packet and the identity of the message it belongs to. */
module Packets {
  import opened Bytes
  import opened Words

  datatype Dir = DirUnknown | DirIncoming | DirOutcoming

  /** A packet's value. `spare` is the capacity of the payload slice beyond its length. */
  datatype Pkt = Pkt(
    direction: Dir,
    version: byte,
    srcIP: seq<byte>, dstIP: seq<byte>,
    srcPort: uint16, dstPort: uint16,
    ack: uint32, seqNo: uint32,
    ackFlag: bool, syn: bool, fin: bool, rst: bool,
    lost: uint32,
    time: nat,
    payload: seq<byte>, spare: nat)

  /** Addresses are empty, 4 or 16 bytes long, as `parse` leaves them. */
  function Ip2Int(ip: seq<byte>): uint32 {
    if |ip| < 4 then 0
    else
      var w := if |ip| == 16 then ip[12..16] else ip[..4];
      FromBigEndianBound(w);
      Pow2Bytes();
      FromBigEndian(w)
  }

  function AddressSum(p: Pkt): nat {
    Ip2Int(p.srcIP) + Ip2Int(p.dstIP) + p.ack
  }

  /** The source's `srcPort << 48 | dstPort << 32 | (src + dst + ack)`, where the sum may reach into
      the destination port. */
  function MessageId(p: Pkt): nat {
    BitOr(BitOr(p.srcPort * 0x1_0000_0000_0000, p.dstPort * 0x1_0000_0000), AddressSum(p))
  }

  // ----- addresses ----------------------------------------------------------------------

  /** An IPv4 address is read as its four bytes, the first one highest. */
  lemma Ipv4Word(a: byte, b: byte, c: byte, d: byte)
    ensures Ip2Int([a, b, c, d]) == a * 0x100_0000 + b * 0x1_0000 + c * 0x100 + d
  {
    var ip: seq<byte> := [a, b, c, d];
    assert ip[..4] == ip;
    Word32Bytes(a, b, c, d);
  }

  /** Of an IPv6 address only the last four bytes count, and of a missing one nothing. */
  lemma Ipv6Word(ip: seq<byte>)
    requires |ip| == 16
    ensures var a: nat, b: nat, c: nat, d: nat := ip[12], ip[13], ip[14], ip[15];
            Ip2Int(ip) == a * 0x100_0000 + b * 0x1_0000 + c * 0x100 + d
    ensures Ip2Int([]) == 0
  {
    assert ip[12..16] == [ip[12], ip[13], ip[14], ip[15]];
    Word32Bytes(ip[12], ip[13], ip[14], ip[15]);
  }

  lemma SameIpv4(a: seq<byte>, b: seq<byte>)
    requires |a| == 4 && |b| == 4
    ensures Ip2Int(a) == Ip2Int(b) <==> a == b
  {
    hide Ip2Int;
    if Ip2Int(a) == Ip2Int(b) {
      var a0: nat, a1: nat, a2: nat, b0: nat, b1: nat, b2: nat := a[0], a[1], a[2], b[0], b[1], b[2];
      assert a == [a[0], a[1], a[2], a[3]] && b == [b[0], b[1], b[2], b[3]];
      Ipv4Word(a[0], a[1], a[2], a[3]);
      Ipv4Word(b[0], b[1], b[2], b[3]);
      SameDigit((a0 * 0x100 + a1) * 0x100 + a2, (b0 * 0x100 + b1) * 0x100 + b2, a[3], b[3]);
      SameDigit(a0 * 0x100 + a1, b0 * 0x100 + b1, a[2], b[2]);
      SameDigit(a0, b0, a[1], b[1]);
    }
  }

  lemma SameDigit(high: nat, other: nat, low: byte, last: byte)
    requires high * 0x100 + low == other * 0x100 + last
    ensures high == other && low == last
  {}

  /** Two IPv4 sources that send from the same port to the same server, with the same Ack, have different
      IDs: their packets are never joined. */
  lemma SourcesApart(p: Pkt, q: Pkt)
    requires |p.srcIP| == |q.srcIP| == 4 && p.dstIP == q.dstIP
    requires p.srcPort == q.srcPort && p.dstPort == q.dstPort && p.ack == q.ack
    ensures MessageId(p) == MessageId(q) <==> p.srcIP == q.srcIP
  {
    hide MessageId, BitOr, Ip2Int;
    SameIpv4(p.srcIP, q.srcIP);
    MessageIdFields(p);
    MessageIdFields(q);
    SumsApart(Ip2Int(p.srcIP), Ip2Int(q.srcIP), Ip2Int(p.dstIP) + p.ack);
    if MessageId(p) == MessageId(q) {
      EqualIds(p, q);
    }
  }

  lemma SumsApart(a: uint32, b: uint32, rest: nat)
    ensures (a + rest) % 0x1_0000_0000 == (b + rest) % 0x1_0000_0000 <==> a == b
  {}

  // ----- identity -----------------------------------------------------------------------

  /** The three fields of an ID: source port, destination port with the carry OR-ed in, low word. */
  lemma MessageIdFields(p: Pkt)
    ensures var carry := AddressSum(p) / 0x1_0000_0000;
            && carry < 3
            && BitOr(p.dstPort, carry) < 0x1_0000
            && MessageId(p) == p.srcPort * 0x1_0000_0000_0000 + BitOr(p.dstPort, carry) * 0x1_0000_0000
                               + AddressSum(p) % 0x1_0000_0000
  {
    hide BitOr, Pow2, Ip2Int;
    Pow2Words();
    var src: nat, dst: nat, sum := p.srcPort, p.dstPort, AddressSum(p);
    var carry, low := sum / 0x1_0000_0000, sum % 0x1_0000_0000;
    // src << 48 | dst << 32
    BitOrParts(src * 0x1_0000, 0, dst, 0, 32);
    BitOrParts(src, 0, 0, dst, 16);
    BitOrZero(src);
    BitOrZero(dst);
    BitOrZero(0);
    // ... | sum
    BitOrParts(src * 0x1_0000 + dst, 0, carry, low, 32);
    BitOrParts(src, dst, 0, carry, 16);
    BitOrZero(low);
  }

  /** Every ID fits 64 bits. */
  lemma MessageIdFits(p: Pkt)
    ensures MessageId(p) < 0x1_0000_0000_0000_0000
  {
    hide MessageId, BitOr;
    MessageIdFields(p);
  }

  lemma DirectionNotInId(p: Pkt, d: Dir)
    ensures MessageId(p.(direction := d)) == MessageId(p)
  {
    hide BitOr, Ip2Int;
  }

  predicate SameEndpoints(p: Pkt, q: Pkt) {
    && p.srcPort == q.srcPort && p.dstPort == q.dstPort
    && Ip2Int(p.srcIP) == Ip2Int(q.srcIP) && Ip2Int(p.dstIP) == Ip2Int(q.dstIP)
  }

  /** On one connection and direction, packets share an ID exactly when they share the Ack. */
  lemma SameConnectionSameId(p: Pkt, q: Pkt)
    requires SameEndpoints(p, q)
    ensures MessageId(p) == MessageId(q) <==> p.ack == q.ack
  {
    hide MessageId, BitOr, Ip2Int;
    MessageIdFields(p);
    MessageIdFields(q);
  }

  /** What equal IDs say in general: the carry can blur only the low two bits of the destination port. */
  lemma EqualIds(p: Pkt, q: Pkt)
    requires MessageId(p) == MessageId(q)
    ensures p.srcPort == q.srcPort
    ensures p.dstPort / 4 == q.dstPort / 4
    ensures AddressSum(p) % 0x1_0000_0000 == AddressSum(q) % 0x1_0000_0000
  {
    hide MessageId, BitOr, AddressSum;
    MessageIdFields(p);
    MessageIdFields(q);
    var cp, cq := AddressSum(p) / 0x1_0000_0000, AddressSum(q) / 0x1_0000_0000;
    OrKeepsHigh(p.dstPort, cp);
    OrKeepsHigh(q.dstPort, cq);
  }

  lemma OrKeepsHigh(port: nat, carry: nat)
    requires carry < 4
    ensures BitOr(port, carry) / 4 == port / 4
  {
    hide BitOr, Pow2;
    Pow2Words();
    BitOrParts(port / 4, port % 4, 0, carry, 2);
    BitOrZero(port / 4);
  }

  // ----- the packet object ------------------------------------------------------------------

  class Packet {
    var Direction: Dir
    var messageID: nat
    var Version: byte
    var SrcIP: seq<byte>
    var DstIP: seq<byte>
    var SrcPort: uint16
    var DstPort: uint16
    var Ack: uint32
    var Seq: uint32
    var ACK: bool
    var SYN: bool
    var FIN: bool
    var RST: bool
    var Lost: uint32
    var Timestamp: nat
    var Payload: seq<byte>
    var Spare: nat

    ghost function View(): Pkt
      reads this
    {
      Pkt(Direction, Version, SrcIP, DstIP, SrcPort, DstPort, Ack, Seq, ACK, SYN, FIN, RST, Lost, Timestamp,
          Payload, Spare)
    }

    /** The cache is empty or holds the ID of the current fields. */
    ghost predicate Valid()
      reads this
    {
      messageID == 0 || messageID == MessageId(View())
    }

    constructor ()
      ensures Valid()
      ensures View() == Pkt(DirUnknown, 0, [], [], 0, 0, 0, 0, false, false, false, false, 0, 0, [], 0)
    {
      Direction, messageID, Version := DirUnknown, 0, 0;
      SrcIP, DstIP, SrcPort, DstPort, Ack, Seq := [], [], 0, 0, 0, 0;
      ACK, SYN, FIN, RST, Lost, Timestamp, Payload, Spare := false, false, false, false, 0, 0, [], 0;
    }

    /** The cached ID is always the ID recomputed from the fields. */
    method MessageID() returns (id: nat)
      requires Valid()
      modifies this`messageID
      ensures Valid() && id == MessageId(View())
    {
      hide BitOr, Ip2Int;
      if messageID == 0 {
        messageID := BitOr(BitOr(SrcPort * 0x1_0000_0000_0000, DstPort * 0x1_0000_0000),
                           Ip2Int(SrcIP) + Ip2Int(DstIP) + Ack);
      }
      id := messageID;
    }

    method Mark(d: Dir)
      requires Valid()
      modifies this`Direction
      ensures Valid() && View() == old(View()).(direction := d)
    {
      hide BitOr, Ip2Int;
      Direction := d;
    }

    /** The body of `Fix100Continue`'s loop: forget the cached ID and move the Ack. */
    method ShiftAck()
      modifies this`messageID, this`Ack
      ensures Valid() && View() == Shifted(old(View()))
    {
      messageID := 0;
      Ack := (Ack + CONTINUE_LENGTH) % 0x1_0000_0000;
    }
  }

  /** The length of the interim response `HTTP/1.1 100 Continue` with its empty line. */
  const CONTINUE_LENGTH := 25

  lemma InterimLength()
    ensures CONTINUE_LENGTH == |Ascii("HTTP/1.1 100 Continue\r\n\r\n")|
  {}

  function Shifted(p: Pkt): Pkt {
    p.(ack := (p.ack + CONTINUE_LENGTH) % 0x1_0000_0000)
  }
}
