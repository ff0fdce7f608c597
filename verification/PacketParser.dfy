/** tcp_packet.go: `Packet.parse`, from link-layer bytes to TCP payload. */
module PacketParser {
  import opened Bytes
  import opened Words
  import opened Packets

  datatype Layer = Link | IPv4 | IPv4Opts | IPv4IHL | IPv6 | IPv6Opts | IP | TCP | TCPOffset | TCPOpts

  datatype ParseError =
    | ErrHdrLength(layer: Layer)
    | ErrHdrMissing(layer: Layer)
    | ErrHdrExpected(layer: Layer)
    | ErrHdrInvalid(layer: Layer)
    | EmptyPacket

  /** `Endless` is the outcome of an extension header that claims no length at all. */
  datatype Result<+T> = Ok(value: T) | Err(error: ParseError) | Endless

  predicate IPv6ExtensionHdr(b: byte) {
    b == 0 || b == 43 || b == 44
  }

  /** The extension's length; the length byte plus one is computed in a byte. */
  function ExtLen(ldata: seq<byte>, at: nat, proto: byte): nat
    requires at + 1 < |ldata|
  {
    var n: int := ldata[at + 1];
    if proto != 44 then (n + 1) % 0x100 * 8 else 8
  }

  /** The chain of extension headers from `total` on: its end and the protocol behind it. */
  function Chain(ldata: seq<byte>, total: nat, proto: byte): Result<(nat, byte)>
    requires total <= |ldata|
    decreases |ldata| - total, if proto == 44 then 0 else 1
  {
    if !IPv6ExtensionHdr(proto) then Ok((total, proto))
    else if |ldata| - total < 8 then Err(ErrHdrExpected(IPv6Opts))
    else
      var extLen := ExtLen(ldata, total, proto);
      var next := ldata[total];
      if |ldata| - total < extLen then Err(ErrHdrLength(IPv6Opts))
      else if extLen == 0 && IPv6ExtensionHdr(next) && next != 44 then Endless
      else if extLen == 0 && !IPv6ExtensionHdr(next) then Ok((total, next))
      else Chain(ldata, total + extLen, next)
  }

  /** The network layer: its length and the protocol it carries. */
  function NetLayer(ldata: seq<byte>): Result<(nat, byte)>
    requires ldata != []
  {
    if ldata[0] / 16 == 4 then
      if |ldata| < 20 then Err(ErrHdrLength(IPv4))
      else
        var ihl := ldata[0] % 16 * 4;
        if ihl < 20 then Err(ErrHdrInvalid(IPv4IHL))
        else if |ldata| < ihl then Err(ErrHdrLength(IPv4Opts))
        else Ok((ihl, ldata[9]))
    else if ldata[0] / 16 == 6 then
      if |ldata| < 40 then Err(ErrHdrLength(IPv6)) else Chain(ldata, 40, ldata[6])
    else Err(ErrHdrExpected(IP))
  }

  /** A header never reaches beyond the data. */
  lemma {:induction false} ChainInside(ldata: seq<byte>, total: nat, proto: byte)
    requires total <= |ldata|
    ensures Chain(ldata, total, proto).Ok? ==>
              total <= Chain(ldata, total, proto).value.0 <= |ldata|
    decreases |ldata| - total, if proto == 44 then 0 else 1
  {
    if IPv6ExtensionHdr(proto) && |ldata| - total >= 8 {
      var extLen := ExtLen(ldata, total, proto);
      var next := ldata[total];
      if extLen <= |ldata| - total && !(extLen == 0 && next != 44) {
        ChainInside(ldata, total + extLen, next);
      }
    }
  }

  lemma NetLayerInside(ldata: seq<byte>)
    requires ldata != []
    ensures NetLayer(ldata).Ok? ==> 20 <= NetLayer(ldata).value.0 <= |ldata|
    ensures NetLayer(ldata).Ok? && ldata[0] / 16 != 4 ==> 40 <= NetLayer(ldata).value.0
  {
    if ldata[0] / 16 == 6 && |ldata| >= 40 {
      ChainInside(ldata, 40, ldata[6]);
    }
  }

  function Word16(s: seq<byte>, at: nat): uint16
    requires at + 2 <= |s|
  {
    FromBigEndianBound(s[at..at + 2]);
    Pow2Bytes();
    FromBigEndian(s[at..at + 2])
  }

  function Word32(s: seq<byte>, at: nat): uint32
    requires at + 4 <= |s|
  {
    FromBigEndianBound(s[at..at + 4]);
    Pow2Bytes();
    FromBigEndian(s[at..at + 4])
  }

  /** `ndata[13] & mask != 0` for a mask of one bit. */
  predicate Flag(ndata: seq<byte>, mask: nat)
    requires |ndata| >= 20 && mask > 0
  {
    ndata[13] / mask % 2 == 1
  }

  predicate AllZero(s: seq<byte>) {
    forall i :: 0 <= i < |s| ==> s[i] == 0
  }

  /** The transport layer `ndata` of a packet whose network layer is `net`. */
  function TransLayer(net: seq<byte>, ndata: seq<byte>, time: nat, lost: uint32, spare: nat, allowEmpty: bool)
    : Result<Pkt>
    requires |net| >= 20 && (net[0] / 16 != 4 ==> |net| >= 40)
  {
    if |ndata| < 20 then Err(ErrHdrLength(TCP))
    else
      var dOf := ndata[12] / 16 * 4;
      if dOf < 20 then Err(ErrHdrInvalid(TCPOffset))
      else if |ndata| < dOf then Err(ErrHdrLength(TCPOpts))
      else if !allowEmpty && AllZero(ndata[dOf..]) then Err(EmptyPacket)
      else
        var v4 := net[0] / 16 == 4;
        Ok(Pkt(DirUnknown,
               if v4 then 4 else 6,
               if v4 then net[12..16] else net[8..24],
               if v4 then net[16..20] else net[24..40],
               Word16(ndata, 0), Word16(ndata, 2), Word32(ndata, 8), Word32(ndata, 4),
               Flag(ndata, 16), Flag(ndata, 2), Flag(ndata, 1), Flag(ndata, 4),
               lost, time, ndata[dOf..], spare))
  }

  /** `ParsePacket` on `data` captured with `captured` of `length` bytes at `time`. */
  function Parse(data: seq<byte>, linkLen: nat, time: nat, length: int, captured: int, spare: nat, allowEmpty: bool)
    : Result<Pkt>
  {
    if |data| < linkLen then Err(ErrHdrLength(Link))
    else if |data| <= linkLen then Err(ErrHdrMissing(IP))
    else
      var ldata := data[linkLen..];
      match NetLayer(ldata)
      case Err(e) => Err(e)
      case Endless => Endless
      case Ok((netLen, proto)) =>
        NetLayerInside(ldata);
        if proto != 6 then Err(ErrHdrExpected(TCP))
        else if |data| <= netLen then Err(ErrHdrMissing(TCP))
        else
          TransLayer(ldata[..netLen], ldata[netLen..], time, (length - captured) % 0x1_0000_0000, spare, allowEmpty)
  }

  // ----- the loops ------------------------------------------------------------------------

  /** The loop over extension headers; it returns on every chain but an endless one. */
  method SkipExtensions(ldata: seq<byte>) returns (r: Result<(nat, byte)>)
    requires |ldata| >= 40 && Chain(ldata, 40, ldata[6]) != Endless
    ensures r == Chain(ldata, 40, ldata[6])
  {
    var proto, totalLen := ldata[6], 40;
    while IPv6ExtensionHdr(proto)
      invariant 40 <= totalLen <= |ldata|
      invariant Chain(ldata, totalLen, proto) == Chain(ldata, 40, ldata[6])
      decreases |ldata| - totalLen, if IPv6ExtensionHdr(proto) then 1 else 0, if proto == 44 then 0 else 1
    {
      var hdr := |ldata| - totalLen;
      if hdr < 8 {
        return Err(ErrHdrExpected(IPv6Opts));
      }
      var extLen := 8;
      if proto != 44 {
        var n: int := ldata[totalLen + 1];
        extLen := (n + 1) % 0x100 * 8;
      }
      if hdr < extLen {
        return Err(ErrHdrLength(IPv6Opts));
      }
      proto := ldata[totalLen];
      totalLen := totalLen + extLen;
    }
    r := Ok((totalLen, proto));
  }

  method IsEmpty(payload: seq<byte>) returns (empty: bool)
    ensures empty == AllZero(payload)
  {
    empty := true;
    for i := 0 to |payload|
      invariant empty && forall j :: 0 <= j < i ==> payload[j] == 0
    {
      if payload[i] != 0 {
        return false;
      }
    }
  }

  /** `ParsePacket`: fills a new packet, or reports why not. */
  method ParsePacket(data: seq<byte>, linkLen: nat, time: nat, length: int, captured: int, spare: nat, allowEmpty: bool)
    returns (pckt: Packet?, err: Result<()>)
    requires Parse(data, linkLen, time, length, captured, spare, allowEmpty) != Endless
    ensures match Parse(data, linkLen, time, length, captured, spare, allowEmpty)
            case Ok(p) => pckt != null && fresh(pckt) && pckt.Valid() && pckt.View() == p && err == Ok(())
            case Err(e) => pckt == null && err == Err(e)
            case Endless => true
  {
    hide Chain, AllZero, FromBigEndian;
    if |data| < linkLen {
      return null, Err(ErrHdrLength(Link));
    }
    if |data| <= linkLen {
      return null, Err(ErrHdrMissing(IP));
    }
    var ldata := data[linkLen..];
    NetLayerInside(ldata);
    var net := ReadNetLayer(ldata);
    if net.Err? {
      return null, Err(net.error);
    }
    var (netLen, proto) := net.value;
    if proto != 6 {
      return null, Err(ErrHdrExpected(TCP));
    }
    if |data| <= netLen {
      return null, Err(ErrHdrMissing(TCP));
    }
    pckt, err := ReadTransLayer(ldata[..netLen], ldata[netLen..], time, (length - captured) % 0x1_0000_0000, spare,
                                allowEmpty);
  }

  method ReadNetLayer(ldata: seq<byte>) returns (r: Result<(nat, byte)>)
    requires ldata != [] && NetLayer(ldata) != Endless
    ensures r == NetLayer(ldata)
  {
    hide Chain;
    if ldata[0] / 16 == 4 {
      if |ldata| < 20 {
        return Err(ErrHdrLength(IPv4));
      }
      var ihl := ldata[0] % 16 * 4;
      if ihl < 20 {
        return Err(ErrHdrInvalid(IPv4IHL));
      }
      if |ldata| < ihl {
        return Err(ErrHdrLength(IPv4Opts));
      }
      return Ok((ihl, ldata[9]));
    } else if ldata[0] / 16 == 6 {
      if |ldata| < 40 {
        return Err(ErrHdrLength(IPv6));
      }
      r := SkipExtensions(ldata);
    } else {
      return Err(ErrHdrExpected(IP));
    }
  }

  method ReadTransLayer(net: seq<byte>, ndata: seq<byte>, time: nat, lost: uint32, spare: nat, allowEmpty: bool)
    returns (pckt: Packet?, err: Result<()>)
    requires |net| >= 20 && (net[0] / 16 != 4 ==> |net| >= 40)
    ensures match TransLayer(net, ndata, time, lost, spare, allowEmpty)
            case Ok(p) => pckt != null && fresh(pckt) && pckt.Valid() && pckt.View() == p && err == Ok(())
            case Err(e) => pckt == null && err == Err(e)
            case Endless => true
  {
    hide AllZero, Word16, Word32, MessageId, Flag;
    if |ndata| < 20 {
      return null, Err(ErrHdrLength(TCP));
    }
    var dOf := ndata[12] / 16 * 4;
    if dOf < 20 {
      return null, Err(ErrHdrInvalid(TCPOffset));
    }
    if |ndata| < dOf {
      return null, Err(ErrHdrLength(TCPOpts));
    }
    var empty := IsEmpty(ndata[dOf..]);
    if !allowEmpty && empty {
      return null, Err(EmptyPacket);
    }
    pckt := new Packet();
    err := Ok(());
    pckt.Timestamp, pckt.Lost, pckt.Spare := time, lost, spare;
    FillNetwork(pckt, net);
    FillTransport(pckt, ndata, dOf);
  }

  method FillNetwork(pckt: Packet, net: seq<byte>)
    requires |net| >= 20 && (net[0] / 16 != 4 ==> |net| >= 40)
    modifies pckt
    ensures var v4 := net[0] / 16 == 4;
            pckt.View() == old(pckt.View()).(version := if v4 then 4 else 6,
                                             srcIP := if v4 then net[12..16] else net[8..24],
                                             dstIP := if v4 then net[16..20] else net[24..40])
  {
    if net[0] / 16 == 4 {
      pckt.Version, pckt.SrcIP, pckt.DstIP := 4, net[12..16], net[16..20];
    } else {
      pckt.Version, pckt.SrcIP, pckt.DstIP := 6, net[8..24], net[24..40];
    }
  }

  method FillTransport(pckt: Packet, ndata: seq<byte>, dOf: nat)
    requires 20 <= dOf <= |ndata|
    modifies pckt
    ensures pckt.Valid()
    ensures pckt.View() == old(pckt.View()).(
                             srcPort := Word16(ndata, 0), dstPort := Word16(ndata, 2),
                             seqNo := Word32(ndata, 4), ack := Word32(ndata, 8),
                             fin := Flag(ndata, 1), syn := Flag(ndata, 2),
                             rst := Flag(ndata, 4), ackFlag := Flag(ndata, 16),
                             payload := ndata[dOf..])
  {
    hide Word16, Word32, MessageId, Flag;
    pckt.SrcPort, pckt.DstPort := Word16(ndata, 0), Word16(ndata, 2);
    pckt.Seq, pckt.Ack := Word32(ndata, 4), Word32(ndata, 8);
    pckt.FIN, pckt.SYN, pckt.RST, pckt.ACK := Flag(ndata, 1), Flag(ndata, 2), Flag(ndata, 4), Flag(ndata, 16);
    pckt.Payload := ndata[dOf..];
    pckt.messageID := 0;
  }
}
