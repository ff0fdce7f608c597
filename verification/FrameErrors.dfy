/** What parsing says of frames that are cut short or damaged: the error of the layer in which they end. */
module FrameErrors {
  import opened Bytes
  import opened Packets
  import opened PacketParser
  import opened PacketCodec

  /** The first `k` bytes of a frame, parsed. */
  function Cut(link: seq<byte>, n: Network, t: Transport, k: nat, time: nat, length: int, captured: int, spare: nat)
    : Result<Pkt>
    requires GoodNetwork(n) && GoodTransport(t)
    requires k <= |link| + |WriteNetwork(n)| + |WriteTransport(t)|
  {
    Parse((link + WriteNetwork(n) + WriteTransport(t))[..k], |link|, time, length, captured, spare, false)
  }

  // ----- inside the link layer or right behind it ---------------------------------------------------

  lemma CutInLink(link: seq<byte>, n: Network, t: Transport, k: nat, time: nat, length: int, captured: int, spare: nat)
    requires GoodNetwork(n) && GoodTransport(t)
    requires k <= |link| <= |link| + |WriteNetwork(n)| + |WriteTransport(t)|
    ensures Cut(link, n, t, k, time, length, captured, spare)
         == Err(if k < |link| then ErrHdrLength(Link) else ErrHdrMissing(IP))
  {
    hide WriteNetwork, WriteTransport, NetLayer, TransLayer;
  }

  // ----- inside the network layer -------------------------------------------------------------------

  /** Only the network layer matters to it. */
  lemma NetFails(link: seq<byte>, ldata: seq<byte>, e: ParseError, time: nat, length: int, captured: int, spare: nat)
    requires ldata != [] && NetLayer(ldata) == Err(e)
    ensures Parse(link + ldata, |link|, time, length, captured, spare, false) == Err(e)
  {
    hide NetLayer, TransLayer;
    assert (link + ldata)[|link|..] == ldata;
  }

  lemma CutBehindLink(link: seq<byte>, rest: seq<byte>, k: nat)
    requires |link| <= k <= |link| + |rest|
    ensures (link + rest)[..k] == link + rest[..k - |link|]
  {}

  /** A frame that ends inside its network layer. */
  lemma CutInNetwork(link: seq<byte>, n: Network, t: Transport, k: nat, time: nat, length: int, captured: int,
                     spare: nat)
    requires GoodNetwork(n) && GoodTransport(t) && |link| < k < |link| + |WriteNetwork(n)|
    ensures var i := k - |link|;
            Cut(link, n, t, k, time, length, captured, spare)
            == Err(if n.V4? then (if i < 20 then ErrHdrLength(IPv4) else ErrHdrLength(IPv4Opts))
                   else if i < 40 then ErrHdrLength(IPv6)
                   else if ExtRoom(n.exts, i - 40) < 8 then ErrHdrExpected(IPv6Opts)
                   else ErrHdrLength(IPv6Opts))
  {
    hide *;
    var net, trans, i := WriteNetwork(n), WriteTransport(t), k - |link|;
    CutIs(link, n, t, k, time, length, captured, spare);
    CutBehindLink(link, net + trans, k);
    assert link + (net + trans) == link + net + trans;
    assert (net + trans)[..i] == net[..i];
    if n.V4? {
      V4Cut(n, i);
      NetFails(link, net[..i], if i < 20 then ErrHdrLength(IPv4) else ErrHdrLength(IPv4Opts),
               time, length, captured, spare);
    } else {
      V6Cut(n, i);
      NetFails(link, net[..i],
               if i < 40 then ErrHdrLength(IPv6)
               else if ExtRoom(n.exts, i - 40) < 8 then ErrHdrExpected(IPv6Opts) else ErrHdrLength(IPv6Opts),
               time, length, captured, spare);
    }
  }

  lemma CutIs(link: seq<byte>, n: Network, t: Transport, k: nat, time: nat, length: int, captured: int, spare: nat)
    requires GoodNetwork(n) && GoodTransport(t)
    requires k <= |link| + |WriteNetwork(n)| + |WriteTransport(t)|
    ensures Cut(link, n, t, k, time, length, captured, spare)
         == Parse((link + WriteNetwork(n) + WriteTransport(t))[..k], |link|, time, length, captured, spare, false)
  {
    hide Parse, WriteNetwork, WriteTransport, GoodNetwork, GoodTransport;
  }

  lemma V4Cut(n: Network, i: nat)
    requires GoodNetwork(n) && n.V4? && 0 < i < |WriteNetwork(n)|
    ensures NetLayer(WriteNetwork(n)[..i]) == Err(if i < 20 then ErrHdrLength(IPv4) else ErrHdrLength(IPv4Opts))
  {
    hide WriteNetwork, Chain;
    var net := WriteNetwork(n);
    V4Fields(n);
    V4Length(|n.options|);
    assert net[..i][0] == net[0];
  }

  /** How many bytes of the extension headers are left behind the last whole one, of the first `i`. */
  function ExtRoom(exts: seq<Ext>, i: nat): nat {
    if exts == [] || i < |exts[0].body| + 2 then i else ExtRoom(exts[1..], i - |exts[0].body| - 2)
  }

  lemma V6Cut(n: Network, i: nat)
    requires GoodNetwork(n) && n.V6? && 0 < i < |WriteNetwork(n)|
    ensures NetLayer(WriteNetwork(n)[..i])
         == Err(if i < 40 then ErrHdrLength(IPv6)
                else if ExtRoom(n.exts, i - 40) < 8 then ErrHdrExpected(IPv6Opts) else ErrHdrLength(IPv6Opts))
  {
    hide WriteNetwork, Chain, WriteExts, FirstKind, ExtRoom;
    var net := WriteNetwork(n);
    V6Fields(n);
    assert net[..i][0] == net[0];
    if i >= 40 {
      assert net[..i] == net[..40] + WriteExts(n.exts)[..i - 40];
      assert net[..i][6] == net[6];
      ChainCut(net[..40], n.exts, i - 40);
    }
  }

  /** The chain of extension headers, cut inside one of them. */
  lemma {:induction false} ChainCut(head: seq<byte>, exts: seq<Ext>, i: nat)
    requires (forall j :: 0 <= j < |exts| ==> GoodExt(exts[j])) && i < |WriteExts(exts)|
    ensures Chain(head + WriteExts(exts)[..i], |head|, FirstKind(exts))
         == Err(if ExtRoom(exts, i) < 8 then ErrHdrExpected(IPv6Opts) else ErrHdrLength(IPv6Opts))
    decreases |exts|
  {
    hide *;
    ExtsStep(exts);
    ExtKind(exts);
    var e, later := exts[0], WriteExts(exts[1..]);
    var ext := [FirstKind(exts[1..]), e.second] + e.body;
    RoomStep(exts, i);
    if i < |ext| {
      assert WriteExts(exts)[..i] == ext[..i];
      BrokenExt(head, ext, e, i);
    } else {
      var rest := later[..i - |ext|];
      assert WriteExts(exts)[..i] == ext + rest;
      ChainStep(head, ext, rest, e);
      assert head + ext + rest == head + (ext + rest);
      ChainCut(head + ext, exts[1..], i - |ext|);
    }
  }

  lemma ExtKind(exts: seq<Ext>)
    requires (forall j :: 0 <= j < |exts| ==> GoodExt(exts[j])) && exts != []
    ensures GoodExt(exts[0]) && FirstKind(exts) == exts[0].kind
    ensures forall j :: 0 <= j < |exts[1..]| ==> GoodExt(exts[1..][j])
  {
    hide GoodExt;
  }

  lemma RoomStep(exts: seq<Ext>, i: nat)
    requires exts != []
    ensures ExtRoom(exts, i) == if i < |exts[0].body| + 2 then i else ExtRoom(exts[1..], i - |exts[0].body| - 2)
  {}

  lemma BrokenExt(head: seq<byte>, ext: seq<byte>, e: Ext, i: nat)
    requires GoodExt(e) && |ext| == |e.body| + 2 && ext[1] == e.second && i < |ext|
    ensures Chain(head + ext[..i], |head|, e.kind)
         == Err(if i < 8 then ErrHdrExpected(IPv6Opts) else ErrHdrLength(IPv6Opts))
  {
    hide Chain;
    var ldata := head + ext[..i];
    if i >= 8 {
      assert ldata[|head| + 1] == ext[1];
      assert ExtLen(ldata, |head|, e.kind) == |ext|;
    }
    ChainBroken(ldata, |head|, e.kind);
  }

  lemma ChainBroken(ldata: seq<byte>, at: nat, kind: byte)
    requires at <= |ldata| && IPv6ExtensionHdr(kind)
    ensures |ldata| - at < 8 ==> Chain(ldata, at, kind) == Err(ErrHdrExpected(IPv6Opts))
    ensures 8 <= |ldata| - at < ExtLen(ldata, at, kind) ==> Chain(ldata, at, kind) == Err(ErrHdrLength(IPv6Opts))
  {
    hide ExtLen;
  }

  // ----- inside the transport layer -----------------------------------------------------------------

  /** A frame that ends inside its TCP header; without a link layer and without any byte of the TCP header
      the layer counts as missing. */
  lemma CutInTransport(link: seq<byte>, n: Network, t: Transport, j: nat, time: nat, length: int, captured: int,
                       spare: nat)
    requires GoodNetwork(n) && GoodTransport(t) && j < 20 + |t.options|
    requires |link| + |WriteNetwork(n)| + j <= |link| + |WriteNetwork(n)| + |WriteTransport(t)|
    ensures Cut(link, n, t, |link| + |WriteNetwork(n)| + j, time, length, captured, spare)
         == Err(if link == [] && j == 0 then ErrHdrMissing(TCP)
                else if j < 20 then ErrHdrLength(TCP) else ErrHdrLength(TCPOpts))
  {
    hide *;
    var net, trans := WriteNetwork(n), WriteTransport(t);
    var part := trans[..j];
    CutIs(link, n, t, |link| + |net| + j, time, length, captured, spare);
    assert (link + net + trans)[..|link| + |net| + j] == link + net + part;
    NetworkReads(n, part);
    PartFails(t, j, net, time, (length - captured) % 0x1_0000_0000, spare);
    BehindNet(link, net, part, time, length, captured, spare);
  }

  /** With the network layer read, what is left is the transport layer. */
  lemma BehindNet(link: seq<byte>, net: seq<byte>, part: seq<byte>, time: nat, length: int, captured: int, spare: nat)
    requires |net| >= 20 && (net[0] / 16 != 4 ==> |net| >= 40) && NetLayer(net + part) == Ok((|net|, 6))
    ensures Parse(link + net + part, |link|, time, length, captured, spare, false)
         == if link == [] && part == [] then Err(ErrHdrMissing(TCP))
            else TransLayer(net, part, time, (length - captured) % 0x1_0000_0000, spare, false)
  {
    hide NetLayer, TransLayer;
    assert (link + net + part)[|link|..] == net + part;
    assert (net + part)[..|net|] == net && (net + part)[|net|..] == part;
  }

  lemma PartFails(t: Transport, j: nat, net: seq<byte>, time: nat, lost: uint32, spare: nat)
    requires GoodTransport(t) && j < 20 + |t.options| && j <= |WriteTransport(t)|
    requires |net| >= 20 && (net[0] / 16 != 4 ==> |net| >= 40)
    ensures TransLayer(net, WriteTransport(t)[..j], time, lost, spare, false)
         == Err(if j < 20 then ErrHdrLength(TCP) else ErrHdrLength(TCPOpts))
  {
    hide WriteTransport, Word16, Word32, AllZero;
    TransportFields(t);
    OffsetReads(t);
    if j >= 20 {
      assert WriteTransport(t)[..j][12] == WriteTransport(t)[12];
    }
  }

  // ----- damaged fields -------------------------------------------------------------------------------

  /** Another version, a header length below five words, or a protocol that is not TCP. */
  lemma DamagedIpv4(link: seq<byte>, n: Network, rest: seq<byte>, b: byte, time: nat, length: int, captured: int,
                    spare: nat)
    requires GoodNetwork(n) && n.V4?
    ensures |WriteNetwork(n)| >= 20
    ensures var net := WriteNetwork(n);
            && (b / 16 != 4 && b / 16 != 6 ==>
                  Parse(link + (net[0 := b] + rest), |link|, time, length, captured, spare, false)
                  == Err(ErrHdrExpected(IP)))
            && (b / 16 == 4 && b % 16 < 5 ==>
                  Parse(link + (net[0 := b] + rest), |link|, time, length, captured, spare, false)
                  == Err(ErrHdrInvalid(IPv4IHL)))
            && (b != 6 ==>
                  Parse(link + (net[9 := b] + rest), |link|, time, length, captured, spare, false)
                  == Err(ErrHdrExpected(TCP)))
  {
    hide WriteNetwork, Parse;
    var net := WriteNetwork(n);
    V4Fields(n);
    V4Length(|n.options|);
    var one, nine := net[0 := b] + rest, net[9 := b] + rest;
    assert one[0] == b && nine[0] == net[0] && nine[9] == b;
    if b / 16 != 4 && b / 16 != 6 {
      NetFails(link, one, ErrHdrExpected(IP), time, length, captured, spare);
    }
    if b / 16 == 4 && b % 16 < 5 {
      NetFails(link, one, ErrHdrInvalid(IPv4IHL), time, length, captured, spare);
    }
    if b != 6 {
      OtherProtocol(link, nine, |net|, b, time, length, captured, spare);
    }
  }

  lemma OtherProtocol(link: seq<byte>, ldata: seq<byte>, len: nat, b: byte, time: nat, length: int, captured: int,
                      spare: nat)
    requires ldata != [] && NetLayer(ldata) == Ok((len, b)) && b != 6
    ensures Parse(link + ldata, |link|, time, length, captured, spare, false) == Err(ErrHdrExpected(TCP))
  {
    hide NetLayer, TransLayer;
    assert (link + ldata)[|link|..] == ldata;
  }

  /** A TCP header length below five words. */
  lemma DamagedTcp(link: seq<byte>, n: Network, t: Transport, b: byte, time: nat, length: int, captured: int,
                   spare: nat)
    requires GoodNetwork(n) && GoodTransport(t) && b / 16 < 5
    ensures |WriteTransport(t)| >= 20
    ensures Parse(link + WriteNetwork(n) + WriteTransport(t)[12 := b], |link|, time, length, captured, spare, false)
         == Err(ErrHdrInvalid(TCPOffset))
  {
    hide *;
    TransportFields(t);
    var net, part := WriteNetwork(n), WriteTransport(t)[12 := b];
    NetworkReads(n, part);
    BehindNet(link, net, part, time, length, captured, spare);
    BadOffset(net, part, time, (length - captured) % 0x1_0000_0000, spare);
  }

  lemma BadOffset(net: seq<byte>, part: seq<byte>, time: nat, lost: uint32, spare: nat)
    requires |net| >= 20 && (net[0] / 16 != 4 ==> |net| >= 40) && |part| >= 20 && part[12] / 16 < 5
    ensures TransLayer(net, part, time, lost, spare, false) == Err(ErrHdrInvalid(TCPOffset))
  {
    hide Word16, Word32, AllZero;
  }
}
