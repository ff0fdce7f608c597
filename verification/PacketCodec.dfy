/** A writer of IPv4 and IPv6 TCP packets in their wire format, and the proof that
    `Packet.parse` reads back every field of every packet it writes. */
module PacketCodec {
  import opened Bytes
  import opened Words
  import opened Packets
  import opened PacketParser

  /** An IPv6 extension header: `second` is its length byte, or reserved in a fragment header. */
  datatype Ext = Ext(kind: byte, second: byte, body: seq<byte>)

  predicate GoodExt(e: Ext) {
    if e.kind == 44 then |e.body| == 6
    else (e.kind == 0 || e.kind == 43) && e.second < 255 && |e.body| == (e.second as int) * 8 + 6
  }

  /** The parts of the network layer `parse` does not interpret are carried as they are. */
  datatype Network =
    | V4(mid: seq<byte>, checksum: seq<byte>, src: seq<byte>, dst: seq<byte>, options: seq<byte>)
    | V6(class_: byte, flow: seq<byte>, hops: byte, src: seq<byte>, dst: seq<byte>, exts: seq<Ext>)

  predicate GoodNetwork(n: Network) {
    match n
    case V4(mid, checksum, src, dst, options) =>
      |mid| == 8 && |checksum| == 2 && |src| == 4 && |dst| == 4 && |options| % 4 == 0 && |options| <= 40
    case V6(class_, flow, hops, src, dst, exts) =>
      class_ < 16 && |flow| == 5 && |src| == 16 && |dst| == 16 && forall i :: 0 <= i < |exts| ==> GoodExt(exts[i])
  }

  datatype Transport = Transport(
    srcPort: uint16, dstPort: uint16, seqNo: uint32, ack: uint32,
    reserved: byte, flags: byte, tail: seq<byte>, options: seq<byte>, payload: seq<byte>)

  predicate GoodTransport(t: Transport) {
    t.reserved < 16 && |t.tail| == 6 && |t.options| % 4 == 0 && |t.options| <= 40
  }

  function FirstKind(exts: seq<Ext>): byte {
    if exts == [] then 6 else exts[0].kind
  }

  function WriteExts(exts: seq<Ext>): seq<byte> {
    if exts == [] then []
    else [FirstKind(exts[1..]), exts[0].second] + exts[0].body + WriteExts(exts[1..])
  }

  function WriteNetwork(n: Network): seq<byte>
    requires GoodNetwork(n)
  {
    match n
    case V4(mid, checksum, src, dst, options) =>
      [64 + 5 + |options| / 4] + mid + [6] + checksum + src + dst + options
    case V6(class_, flow, hops, src, dst, exts) =>
      [96 + class_] + flow + [FirstKind(exts), hops] + src + dst + WriteExts(exts)
  }

  function WriteTransport(t: Transport): seq<byte>
    requires GoodTransport(t)
  {
    BigEndian(t.srcPort, 2) + BigEndian(t.dstPort, 2) + BigEndian(t.seqNo, 4) + BigEndian(t.ack, 4)
    + [(5 + |t.options| / 4) * 16 + t.reserved, t.flags] + t.tail + t.options + t.payload
  }

  /** The packet these layers describe. */
  function Described(n: Network, t: Transport, time: nat, lost: uint32, spare: nat): Pkt {
    Pkt(DirUnknown, if n.V4? then 4 else 6, n.src, n.dst, t.srcPort, t.dstPort, t.ack, t.seqNo,
        t.flags / 16 % 2 == 1, t.flags / 2 % 2 == 1, t.flags / 1 % 2 == 1, t.flags / 4 % 2 == 1,
        lost, time, t.payload, spare)
  }

  // ----- the extension chain ----------------------------------------------------------------

  lemma {:induction false} ChainReads(head: seq<byte>, exts: seq<Ext>, rest: seq<byte>)
    requires forall i :: 0 <= i < |exts| ==> GoodExt(exts[i])
    ensures Chain(head + WriteExts(exts) + rest, |head|, FirstKind(exts)) == Ok((|head| + |WriteExts(exts)|, 6))
    decreases |exts|
  {
    hide *;
    ExtsStep(exts);
    if exts == [] {
      ChainEnds(head + WriteExts(exts) + rest, |head|);
    } else {
      var e := exts[0];
      var ext := [FirstKind(exts[1..]), e.second] + e.body;
      var later := WriteExts(exts[1..]);
      assert head + (ext + later) + rest == head + ext + later + rest;
      ChainReads(head + ext, exts[1..], rest);
      ChainStep(head, ext, later + rest, e);
      assert head + ext + (later + rest) == head + ext + later + rest;
    }
  }

  lemma ExtsStep(exts: seq<Ext>)
    ensures exts == [] ==> WriteExts(exts) == [] && FirstKind(exts) == 6
    ensures exts != [] ==>
              && FirstKind(exts) == exts[0].kind
              && WriteExts(exts) == [FirstKind(exts[1..]), exts[0].second] + exts[0].body + WriteExts(exts[1..])
  {}

  lemma ChainEnds(ldata: seq<byte>, at: nat)
    requires at <= |ldata|
    ensures Chain(ldata, at, 6) == Ok((at, 6))
  {}

  /** One extension header is skipped. */
  lemma ChainStep(head: seq<byte>, ext: seq<byte>, rest: seq<byte>, e: Ext)
    requires GoodExt(e) && |ext| == |e.body| + 2 && ext[1] == e.second
    ensures var ldata := head + ext + rest;
            Chain(ldata, |head|, e.kind) == Chain(ldata, |head| + |ext|, ext[0])
  {
    hide Chain;
    var ldata := head + ext + rest;
    assert ldata[|head|] == ext[0] && ldata[|head| + 1] == ext[1];
    assert ExtLen(ldata, |head|, e.kind) == |ext|;
    ChainBy(ldata, |head|, e.kind);
  }

  lemma ChainBy(ldata: seq<byte>, at: nat, kind: byte)
    requires at <= |ldata| && IPv6ExtensionHdr(kind) && |ldata| - at >= 8
    requires 8 <= ExtLen(ldata, at, kind) <= |ldata| - at
    ensures Chain(ldata, at, kind) == Chain(ldata, at + ExtLen(ldata, at, kind), ldata[at])
  {
    hide ExtLen;
  }

  lemma NetworkReads(n: Network, rest: seq<byte>)
    requires GoodNetwork(n)
    ensures var net := WriteNetwork(n);
            && NetLayer(net + rest) == Ok((|net|, 6))
            && |net| >= (if n.V4? then 20 else 40)
            && net[0] / 16 == (if n.V4? then 4 else 6)
            && (if n.V4? then net[12..16] == n.src && net[16..20] == n.dst
                else net[8..24] == n.src && net[24..40] == n.dst)
  {
    hide Chain, WriteNetwork, NetLayer, GoodNetwork;
    if n.V4? {
      V4Reads(n, rest);
    } else {
      V6Reads(n, rest);
    }
  }

  lemma V4Reads(n: Network, rest: seq<byte>)
    requires GoodNetwork(n) && n.V4?
    ensures var net := WriteNetwork(n);
            && NetLayer(net + rest) == Ok((|net|, 6)) && |net| >= 20 && net[0] / 16 == 4
            && net[12..16] == n.src && net[16..20] == n.dst
  {
    hide Chain, WriteNetwork;
    var net := WriteNetwork(n);
    V4Fields(n);
    V4Length(|n.options|);
    assert (net + rest)[0] == net[0] && (net + rest)[9] == net[9];
  }

  lemma V4Length(options: nat)
    requires options % 4 == 0 && options <= 40
    ensures (64 + 5 + options / 4) / 16 == 4 && (64 + 5 + options / 4) % 16 * 4 == 20 + options
  {}

  lemma V6Reads(n: Network, rest: seq<byte>)
    requires GoodNetwork(n) && n.V6?
    ensures var net := WriteNetwork(n);
            && NetLayer(net + rest) == Ok((|net|, 6)) && |net| >= 40 && net[0] / 16 == 6
            && net[8..24] == n.src && net[24..40] == n.dst
  {
    hide Chain, WriteNetwork, WriteExts, FirstKind;
    var net := WriteNetwork(n);
    V6Fields(n);
    ChainReads(net[..40], n.exts, rest);
    assert net + rest == net[..40] + WriteExts(n.exts) + rest;
    assert (net + rest)[0] == net[0] && (net + rest)[6] == net[6];
  }

  lemma V6Fields(n: Network)
    requires GoodNetwork(n) && n.V6?
    ensures var net := WriteNetwork(n);
            && |net| >= 40 && net == net[..40] + WriteExts(n.exts)
            && net[0] == 96 + n.class_ && net[6] == FirstKind(n.exts)
            && net[8..24] == n.src && net[24..40] == n.dst
  {
    hide WriteExts, FirstKind;
    var head := [96 + n.class_] + n.flow + [FirstKind(n.exts), n.hops] + n.src + n.dst;
    var net := WriteNetwork(n);
    assert net == head + WriteExts(n.exts);
    assert net[..40] == head && net[40..] == WriteExts(n.exts);
    assert net[8..24] == head[8..24] == n.src;
    assert net[24..40] == head[24..40] == n.dst;
  }

  lemma V4Fields(n: Network)
    requires GoodNetwork(n) && n.V4?
    ensures var net := WriteNetwork(n);
            && |net| == 20 + |n.options| && net[0] == 64 + 5 + |n.options| / 4 && net[9] == 6
            && net[12..16] == n.src && net[16..20] == n.dst
  {}

  // ----- the transport layer ----------------------------------------------------------------

  lemma TransportFields(t: Transport)
    requires GoodTransport(t)
    ensures var w := WriteTransport(t);
            && |w| == 20 + |t.options| + |t.payload|
            && w[0..2] == BigEndian(t.srcPort, 2) && w[2..4] == BigEndian(t.dstPort, 2)
            && w[4..8] == BigEndian(t.seqNo, 4) && w[8..12] == BigEndian(t.ack, 4)
            && w[12] == (5 + |t.options| / 4) * 16 + t.reserved && w[13] == t.flags
            && w[20 + |t.options|..] == t.payload
  {
    hide BigEndian;
  }

  lemma TransportReads(net: seq<byte>, t: Transport, time: nat, lost: uint32, spare: nat, allowEmpty: bool)
    requires |net| >= 20 && (net[0] / 16 != 4 ==> |net| >= 40)
    requires GoodTransport(t) && (allowEmpty || !AllZero(t.payload))
    ensures var v4 := net[0] / 16 == 4;
            TransLayer(net, WriteTransport(t), time, lost, spare, allowEmpty)
            == Ok(Pkt(DirUnknown, if v4 then 4 else 6, if v4 then net[12..16] else net[8..24],
                      if v4 then net[16..20] else net[24..40],
                      t.srcPort, t.dstPort, t.ack, t.seqNo,
                      t.flags / 16 % 2 == 1, t.flags / 2 % 2 == 1, t.flags / 1 % 2 == 1, t.flags / 4 % 2 == 1,
                      lost, time, t.payload, spare))
  {
    hide WriteTransport, AllZero, Word16, Word32, GoodTransport;
    TransportFields(t);
    OffsetReads(t);
    var w := WriteTransport(t);
    PortReads(w, 0, t.srcPort);
    PortReads(w, 2, t.dstPort);
    WordReads(w, 4, t.seqNo);
    WordReads(w, 8, t.ack);
  }

  lemma TransportDrops(net: seq<byte>, t: Transport, time: nat, lost: uint32, spare: nat)
    requires |net| >= 20 && (net[0] / 16 != 4 ==> |net| >= 40)
    requires GoodTransport(t) && AllZero(t.payload)
    ensures TransLayer(net, WriteTransport(t), time, lost, spare, false) == Err(EmptyPacket)
  {
    hide WriteTransport, AllZero, Word16, Word32;
    TransportFields(t);
    OffsetReads(t);
  }

  lemma OffsetReads(t: Transport)
    requires GoodTransport(t)
    ensures ((5 + |t.options| / 4) * 16 + t.reserved) / 16 * 4 == 20 + |t.options|
  {}

  lemma PortReads(w: seq<byte>, at: nat, x: uint16)
    requires at + 2 <= |w| && w[at..at + 2] == BigEndian(x, 2)
    ensures Word16(w, at) == x
  {
    hide BigEndian, FromBigEndian;
    Pow2Bytes();
    BigEndianRoundTrip(x, 2);
  }

  lemma WordReads(w: seq<byte>, at: nat, x: uint32)
    requires at + 4 <= |w| && w[at..at + 4] == BigEndian(x, 4)
    ensures Word32(w, at) == x
  {
    hide BigEndian, FromBigEndian;
    Pow2Bytes();
    BigEndianRoundTrip(x, 4);
  }

  // ----- round trip -------------------------------------------------------------------------

  /** Parsing what was written gives back every field, for IPv4 with options and for IPv6 with any chain
      of supported extension headers whose length bytes are below 255. */
  lemma ParseReadsWritten(link: seq<byte>, n: Network, t: Transport, time: nat, length: int, captured: int,
                          spare: nat, allowEmpty: bool)
    requires GoodNetwork(n) && GoodTransport(t) && (allowEmpty || !AllZero(t.payload))
    ensures Parse(link + WriteNetwork(n) + WriteTransport(t), |link|, time, length, captured, spare, allowEmpty)
         == Ok(Described(n, t, time, (length - captured) % 0x1_0000_0000, spare))
  {
    hide WriteNetwork, WriteTransport, NetLayer, TransLayer, AllZero, Parse;
    var net, trans := WriteNetwork(n), WriteTransport(t);
    NetworkReads(n, trans);
    TransportFields(t);
    ParseSplits(link, net, trans, time, length, captured, spare, allowEmpty);
    TransportReads(net, t, time, (length - captured) % 0x1_0000_0000, spare, allowEmpty);
  }

  lemma ParseSplits(link: seq<byte>, net: seq<byte>, trans: seq<byte>, time: nat, length: int, captured: int,
                    spare: nat, allowEmpty: bool)
    requires trans != [] && NetLayer(net + trans) == Ok((|net|, 6))
    requires |net| >= 20 && (net[0] / 16 != 4 ==> |net| >= 40)
    ensures Parse(link + net + trans, |link|, time, length, captured, spare, allowEmpty)
         == TransLayer(net, trans, time, (length - captured) % 0x1_0000_0000, spare, allowEmpty)
  {
    hide NetLayer, TransLayer;
    assert (link + net + trans)[|link|..] == net + trans;
    assert (net + trans)[..|net|] == net && (net + trans)[|net|..] == trans;
  }

  /** A packet whose payload is nothing but zero bytes, or nothing at all, is taken for padding and
      dropped unless empty packets are allowed. */
  lemma ParseDropsZeros(link: seq<byte>, n: Network, t: Transport, time: nat, length: int, captured: int, spare: nat)
    requires GoodNetwork(n) && GoodTransport(t) && AllZero(t.payload)
    ensures Parse(link + WriteNetwork(n) + WriteTransport(t), |link|, time, length, captured, spare, false)
         == Err(EmptyPacket)
  {
    hide WriteNetwork, WriteTransport, NetLayer, TransLayer, AllZero, Parse;
    var net, trans := WriteNetwork(n), WriteTransport(t);
    NetworkReads(n, trans);
    TransportFields(t);
    ParseSplits(link, net, trans, time, length, captured, spare, false);
    TransportDrops(net, t, time, (length - captured) % 0x1_0000_0000, spare);
  }

  // ----- when the extension loop returns ----------------------------------------------------

  /** One turn of the loop: from the header at `a.0` of kind `a.1` to what follows it. */
  predicate Turn(ldata: seq<byte>, a: (nat, byte), b: (nat, byte)) {
    && IPv6ExtensionHdr(a.1) && a.0 + 8 <= |ldata|
    && ExtLen(ldata, a.0, a.1) <= |ldata| - a.0
    && b == (a.0 + ExtLen(ldata, a.0, a.1), ldata[a.0])
  }

  /** A header whose length byte plus one wraps to zero and that names a header of such a kind next. */
  predicate Stall(ldata: seq<byte>, a: (nat, byte)) {
    && (a.1 == 0 || a.1 == 43) && a.0 + 8 <= |ldata|
    && ldata[a.0 + 1] == 255 && (ldata[a.0] == 0 || ldata[a.0] == 43)
  }

  predicate Turns(ldata: seq<byte>, path: seq<(nat, byte)>) {
    path != [] && forall i :: 0 <= i < |path| - 1 ==> Turn(ldata, path[i], path[i + 1])
  }

  /** From a stall every turn leads to a stall at the same place. */
  lemma StallRepeats(ldata: seq<byte>, a: (nat, byte), b: (nat, byte))
    requires Stall(ldata, a)
    ensures Turn(ldata, a, b) <==> b == (a.0, ldata[a.0])
    ensures Turn(ldata, a, b) ==> Stall(ldata, b)
  {}

  /** The loop fails to return exactly on the inputs that lead to a stall. */
  lemma EndlessIffStall(ldata: seq<byte>, total: nat, proto: byte)
    requires total <= |ldata|
    ensures Chain(ldata, total, proto) == Endless
       <==> exists path :: Turns(ldata, path) && path[0] == (total, proto) && Stall(ldata, path[|path| - 1])
  {
    if Chain(ldata, total, proto) == Endless {
      var path := PathToStall(ldata, total, proto);
    }
    forall path | Turns(ldata, path) && path[0] == (total, proto) && Stall(ldata, path[|path| - 1])
      ensures Chain(ldata, total, proto) == Endless
    {
      StallIsEndless(ldata, path);
    }
  }

  /** Such an input: an IPv6 header and one options header with length byte 255, all else zero. */
  const ENDLESS_FRAME: seq<byte> := seq(48, i => if i == 0 then 96 else if i == 41 then 255 else 0)

  lemma FrameIsEndless(time: nat, length: int, captured: int, spare: nat, allowEmpty: bool)
    ensures Parse(ENDLESS_FRAME, 0, time, length, captured, spare, allowEmpty) == Endless
  {
    hide TransLayer;
    assert ENDLESS_FRAME[0..] == ENDLESS_FRAME;
  }

  lemma {:induction false} PathToStall(ldata: seq<byte>, total: nat, proto: byte) returns (path: seq<(nat, byte)>)
    requires total <= |ldata| && Chain(ldata, total, proto) == Endless
    ensures Turns(ldata, path) && path[0] == (total, proto) && Stall(ldata, path[|path| - 1])
    decreases |ldata| - total, if proto == 44 then 0 else 1
  {
    var here := (total, proto);
    if Stall(ldata, here) {
      path := [here];
    } else {
      var rest := PathToStall(ldata, total + ExtLen(ldata, total, proto), ldata[total]);
      path := [here] + rest;
      assert Turn(ldata, here, rest[0]);
      assert forall i :: 0 < i < |path| ==> path[i] == rest[i - 1];
    }
  }

  lemma {:induction false} StallIsEndless(ldata: seq<byte>, path: seq<(nat, byte)>)
    requires Turns(ldata, path) && path[0].0 <= |ldata| && Stall(ldata, path[|path| - 1])
    ensures Chain(ldata, path[0].0, path[0].1) == Endless
  {
    if |path| > 1 && !Stall(ldata, path[0]) {
      assert Turn(ldata, path[0], path[1]);
      StallIsEndless(ldata, path[1..]);
    }
  }

  /** The extension header at `a` counts its length in a byte below 255, or not at all. */
  predicate ShortHeader(ldata: seq<byte>, a: (nat, byte)) {
    (a.1 == 0 || a.1 == 43) && a.0 + 8 <= |ldata| ==> ldata[a.0 + 1] < 255
  }

  /** The loop returns if the length byte of every header it comes to is below 255; no other byte of the
      packet matters. */
  lemma ShortHeadersEnd(ldata: seq<byte>, total: nat, proto: byte)
    requires total <= |ldata|
    requires forall path :: Turns(ldata, path) && path[0] == (total, proto) ==> ShortHeader(ldata, path[|path| - 1])
    ensures Chain(ldata, total, proto) != Endless
  {
    if Chain(ldata, total, proto) == Endless {
      var path := PathToStall(ldata, total, proto);
    }
  }
}
