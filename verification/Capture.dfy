/** input_http.go: from a reassembled message to a record, and from there through emitter, file output
    and replay back to the bytes the client sent. */
module Capture {
  import opened Bytes
  import opened Decimal
  import opened Words
  import opened Titles
  import opened Packets
  import opened Messages
  import opened RecordLog
  import opened LogLaws
  import Replay
  import ReplayLaws
  import opened MessageLaws
  import StreamLaws
  import Emitter
  import EmitterLaws
  import Parser
  import ShiftLaws
  import opened PacketCodec
  import Reassembly
  import PacketParser
  import opened ParserLoop

  const RESPONSE_PAYLOAD: byte := 50

  /** Nanoseconds from Go's zero time to the Unix epoch. */
  const EPOCH: int := 62_135_596_800_000_000_000

  function UnixNano(time: nat): int64 {
    Wrap64(time - EPOCH)
  }

  /** What `PluginReader` hands to the emitter for a message. */
  function CaptureOf(m: Msg): Captured
    requires m.packets != []
  {
    Captured(if m.direction == DirIncoming then REQUEST_PAYLOAD else RESPONSE_PAYLOAD,
             UUID(m), UnixNano(m.start), Wrap64(UnixNano(m.end) - UnixNano(m.start)), Data(m))
  }

  predicate HavePackets(ms: seq<Msg>) {
    forall i :: 0 <= i < |ms| ==> ms[i].packets != []
  }

  function CapturesOf(ms: seq<Msg>): (r: seq<Captured>)
    requires HavePackets(ms)
    ensures |r| == |ms|
    ensures forall i :: 0 <= i < |ms| ==> r[i] == CaptureOf(ms[i])
  {
    if ms == [] then [] else CapturesOf(ms[..|ms| - 1]) + [CaptureOf(ms[|ms| - 1])]
  }

  // ----- records of captured messages -------------------------------------------------------

  lemma {:induction false} HexBytes(s: seq<byte>)
    ensures SPACE !in Hex(s) && LF !in Hex(s)
  {
    if s != [] {
      HexBytes(s[1..]);
    }
  }

  /** Every captured message makes a well-formed record. */
  lemma CaptureClean(m: Msg)
    requires m.packets != []
    ensures CaptureOf(m).Clean()
  {
    hide Hex, BigEndian, StreamId, Ip2Int, Data, UnixNano, Wrap64;
    var p := m.packets[0];
    HexBytes(BigEndian(StreamId(p.srcPort, p.dstPort, Ip2Int(p.srcIP)), 8) + BigEndian(p.ack, 4));
    HexBytes(BigEndian(StreamId(p.dstPort, p.srcPort, Ip2Int(p.dstIP)), 8) + BigEndian(p.seqNo, 4));
  }

  /** What a run of the parser sends can be recorded, and the requests among it are read back in order,
      exactly when the marker stands on no line of them. */
  lemma RunRecorded(cfg: Parser.Config, evs: seq<Parser.Event>)
    requires ShiftLaws.Unmerged(cfg, Parser.INIT, evs)
    ensures var sent := Parser.Run(cfg, Parser.INIT, evs).emitted;
            && HavePackets(sent)
            && var cs := CapturesOf(sent);
            ReadBack(Log(Requests(Recs(cs)))) == Reading(AllExpected(OnlyRequests(cs)), true)
            <==> forall m :: m in OnlyRequests(cs) ==> !HoldsMarker(m.Rec().Content() + [LF])
  {
    hide *;
    ShiftLaws.RunSound(cfg, evs);
    var sent := Parser.Run(cfg, Parser.INIT, evs).emitted;
    SoundSent(Parser.Run(cfg, Parser.INIT, evs));
    AllClean(sent);
    LogRoundTrip(CapturesOf(sent));
  }

  lemma SoundSent(st: Parser.State)
    requires ShiftLaws.SoundState(st)
    ensures HavePackets(st.emitted)
  {
    hide ShiftLaws.Sound, MissingChunk;
  }

  lemma AllClean(ms: seq<Msg>)
    requires HavePackets(ms)
    ensures forall c :: c in CapturesOf(ms) ==> c.Clean()
  {
    hide CaptureOf;
    forall i | 0 <= i < |ms|
      ensures CapturesOf(ms)[i].Clean()
    {
      CaptureClean(ms[i]);
    }
  }

  // ----- through the emitter ------------------------------------------------------------------

  /** The input returns the records of `ms`; no output fails. */
  predicate Feeds(src: seq<Emitter.Arrival>, ms: seq<Captured>) {
    |src| == |ms| && forall i :: 0 <= i < |src| ==> src[i].msg == Some(ms[i].Rec()) && src[i].failing == {}
  }

  /** The emitter passes a record on as it is. */
  predicate Fits(c: Emitter.Settings, m: Captured) {
    m.Clean() && 0 < |m.data| <= c.bufferSize
  }

  lemma Passes(c: Emitter.Settings, s: Emitter.State, a: Emitter.Arrival, m: Captured)
    requires !c.hasModifier && Fits(c, m) && a.msg == Some(m.Rec()) && a.failing == {} && !s.failed
    ensures EmitterLaws.Act(c, s, a) == Emitter.Deliver(m.Rec()) && !Emitter.Step(c, s, a).failed
  {
    hide PayloadMeta, PayloadHeader, Emitter.CleanUp, Emitter.GiveTo;
    HeaderReadsBack(m.payloadType, m.uuid, m.timing, m.latency, []);
    assert m.Rec().meta + [] == m.Rec().meta;
    Emitter.StepBy(c, s, a);
    EmitterLaws.GiveToReaches(s.received, m.Rec(), a.failing, |s.received|);
    EmitterLaws.CleanUpDelivers(s.(received := Emitter.GiveTo(s.received, m.Rec(), a.failing, |s.received|).0), a);
  }

  lemma {:induction false} AllPass(c: Emitter.Settings, s: Emitter.State, src: seq<Emitter.Arrival>, ms: seq<Captured>)
    requires !c.hasModifier && Feeds(src, ms) && (forall m :: m in ms ==> Fits(c, m)) && !s.failed
    ensures !Emitter.Run(c, s, src).failed && EmitterLaws.Delivered(c, s, src) == Recs(ms)
  {
    hide *;
    FeedsPrefix(src, ms);
    if src == [] {
      NothingPasses(c, s);
    } else {
      var n := |src| - 1;
      AllPass(c, s, src[..n], ms[..n]);
      Passes(c, Emitter.Run(c, s, src[..n]), src[n], ms[n]);
      LastPasses(c, s, src, ms[n].Rec());
      RecsAppend(ms[..n], ms[n]);
      assert ms == ms[..n] + [ms[n]];
    }
  }

  lemma FeedsPrefix(src: seq<Emitter.Arrival>, ms: seq<Captured>)
    requires Feeds(src, ms)
    ensures |src| == |ms|
    ensures src != [] ==>
              var n := |src| - 1;
              Feeds(src[..n], ms[..n]) && src[n].msg == Some(ms[n].Rec()) && src[n].failing == {}
  {
    hide PayloadHeader;
  }

  lemma NothingPasses(c: Emitter.Settings, s: Emitter.State)
    ensures Emitter.Run(c, s, []) == s && EmitterLaws.Delivered(c, s, []) == [] == Recs([])
  {}

  lemma LastPasses(c: Emitter.Settings, s: Emitter.State, src: seq<Emitter.Arrival>, m: Record)
    requires src != []
    requires EmitterLaws.Act(c, Emitter.Run(c, s, src[..|src| - 1]), src[|src| - 1]) == Emitter.Deliver(m)
    ensures var n := |src| - 1;
            && Emitter.Run(c, s, src) == Emitter.Step(c, Emitter.Run(c, s, src[..n]), src[n])
            && EmitterLaws.Delivered(c, s, src) == EmitterLaws.Delivered(c, s, src[..n]) + [m]
  {
    hide Emitter.Step, EmitterLaws.Act;
  }

  lemma {:induction false} RecsAppend(ms: seq<Captured>, m: Captured)
    ensures Recs(ms + [m]) == Recs(ms) + [m.Rec()]
  {
    if ms == [] {
      assert ms + [m] == [m];
      assert [m][1..] == [];
    } else {
      assert (ms + [m])[1..] == ms[1..] + [m];
      RecsAppend(ms[1..], m);
    }
  }

  /** Without a modifier, and with data that fit the buffer, each output receives the records as they
      were captured, and a log written by one of them is replayed as the requests among them, unless
      the marker stands on a line of one. */
  lemma CapturedIsReplayed(c: Emitter.Settings, outputs: nat, start: int, src: seq<Emitter.Arrival>,
                           ms: seq<Captured>, w: nat)
    requires !c.hasModifier && Feeds(src, ms) && (forall m :: m in ms ==> Fits(c, m)) && w < outputs
    ensures var s := Emitter.Run(c, Emitter.Start(outputs, start), src);
            && |s.received| == outputs
            && s.received[w] == Recs(ms)
            && (ReadBack(Log(Requests(s.received[w]))) == Reading(AllExpected(OnlyRequests(ms)), true)
                <==> forall m :: m in OnlyRequests(ms) ==> !HoldsMarker(m.Rec().Content() + [LF]))
  {
    hide *;
    NotFailed(outputs, start);
    AllPass(c, Emitter.Start(outputs, start), src, ms);
    EmitterLaws.SameForAll(c, outputs, start, src);
    FitClean(c, ms);
    LogRoundTrip(ms);
  }

  lemma NotFailed(outputs: nat, start: int)
    ensures !Emitter.Start(outputs, start).failed
  {}

  lemma FitClean(c: Emitter.Settings, ms: seq<Captured>)
    requires forall m :: m in ms ==> Fits(c, m)
    ensures forall m :: m in ms ==> m.Clean()
  {}

  // ----- one message, from packets to its record ------------------------------------------------------

  /** Capture times that a 64-bit timestamp can tell from the Unix epoch. */
  predicate Recent(time: nat) {
    -0x8000_0000_0000_0000 <= time - EPOCH < 0x8000_0000_0000_0000
  }

  /** The epoch is 719162 days after Go's zero time. */
  lemma EpochDays()
    ensures EPOCH == 719_162 * 86_400 * 1_000_000_000
  {}

  /** The record of a message: its type byte is that of its side, its timestamp is when it was opened and
      its latency how long it took from there, its data are what it carried. */
  predicate Recorded(m: Msg, side: Dir, begun: nat, sent: seq<byte>)
    requires m.packets != []
  {
    var c := CaptureOf(m);
    && [c.payloadType] == Ascii(if side == DirIncoming then "1" else "2")
    && (Recent(begun) && Recent(m.end) && ReplayLaws.FitsGap(m.end - begun) ==>
          c.timing == begun - 62_135_596_800_000_000_000 && c.latency == m.end - begun)
    && PayloadBody(c.Rec().Content()) == sent
  }

  /** A message of either side that arrives in any order is captured once, in the step of its last
      distinct segment; it was opened by the first packet that arrived of it, and its end is the latest
      capture time of the first copies. */
  lemma MessageCaptured(cfg: Parser.Config, segs: seq<Pkt>, key: nat, st0: Parser.State,
                        before: seq<Parser.Event>, p: Pkt) returns (whole: Msg)
    requires Reassembly.HttpMessage(segs) && Reassembly.Ready(st0, key)
    requires Reassembly.Delivers(cfg, segs, key, st0, before + [Parser.Arrive(p)])
    requires !Reassembly.AllOf(segs, Reassembly.Got(before, key))
    requires Reassembly.AllOf(segs, Reassembly.Got(before + [Parser.Arrive(p)], key))
    ensures Parser.Run(cfg, st0, before + [Parser.Arrive(p)]).emitted
         == Parser.Run(cfg, st0, before).emitted + [whole]
    ensures whole.packets != [] && segs != [] && whole.packets[0].seqNo == segs[0].seqNo
    ensures var got, begun := Reassembly.Got(before + [Parser.Arrive(p)], key),
                               Reassembly.Opening(before + [Parser.Arrive(p)], key);
            && whole.direction == Reassembly.Side(segs)
            && Reassembly.Timed(whole, got, begun)
            && Recorded(whole, whole.direction, begun, Concat(Payloads(segs)))
  {
    hide *;
    Reassembly.MessageContiguous(segs);
    whole := Reassembly.LastSegment(cfg, segs, key, st0, before, p);
    WholeStart(whole, segs, key);
    TimedStart(whole, Reassembly.Got(before + [Parser.Arrive(p)], key),
               Reassembly.Opening(before + [Parser.Arrive(p)], key));
    SideKnown(segs);
    RecordedAs(whole);
  }

  lemma SideKnown(segs: seq<Pkt>)
    requires segs != []
    ensures Reassembly.Side(segs) == DirIncoming || Reassembly.Side(segs) == DirOutcoming
  {
    hide HasRequestTitle;
  }

  lemma WholeStart(m: Msg, segs: seq<Pkt>, key: nat)
    requires segs != [] && Reassembly.Whole(m, segs, key)
    ensures m.packets != [] && m.packets[0].seqNo == segs[0].seqNo
  {
    hide Accounted, MessageId, Reassembly.Side;
    assert Reassembly.Bares(m.packets)[0] == Reassembly.Bare(m.packets[0]);
  }

  lemma TimedStart(m: Msg, got: map<Pkt, nat>, begun: nat)
    requires Reassembly.Timed(m, got, begun)
    ensures m.start == begun
  {}

  lemma RecordedAs(m: Msg)
    requires m.packets != [] && m.direction != DirUnknown
    ensures Recorded(m, m.direction, m.start, Data(m))
  {
    hide PayloadBody, UUID, Data, PayloadHeader, Wrap64;
    CaptureClean(m);
    BodyOf(CaptureOf(m));
    if Recent(m.start) && Recent(m.end) && ReplayLaws.FitsGap(m.end - m.start) {
      WrapFits(m.start - EPOCH);
      WrapFits(m.end - EPOCH);
      WrapFits(m.end - m.start);
    }
  }

  /** A request that arrives in any order is captured once, and the replay of its record holds exactly
      the bytes the client sent, unless the marker stands on one of their lines. */
  lemma RequestReplayed(cfg: Parser.Config, segs: seq<Pkt>, key: nat, st0: Parser.State,
                        before: seq<Parser.Event>, p: Pkt) returns (whole: Msg)
    requires Reassembly.Request(segs) && Reassembly.Ready(st0, key)
    requires Reassembly.Delivers(cfg, segs, key, st0, before + [Parser.Arrive(p)])
    requires !Reassembly.AllOf(segs, Reassembly.Got(before, key))
    requires Reassembly.AllOf(segs, Reassembly.Got(before + [Parser.Arrive(p)], key))
    ensures Parser.Run(cfg, st0, before + [Parser.Arrive(p)]).emitted
         == Parser.Run(cfg, st0, before).emitted + [whole]
    ensures whole.packets != []
    ensures var begun := Reassembly.Opening(before + [Parser.Arrive(p)], key);
            && Reassembly.Timed(whole, Reassembly.Got(before + [Parser.Arrive(p)], key), begun)
            && Recorded(whole, DirIncoming, begun, Concat(Payloads(segs)))
    ensures var m := CaptureOf(whole);
            ReadBack(Log(Requests([m.Rec()]))) == Reading([Parsed(m.Rec().Content(), m.timing)], true)
            <==> !HoldsMarker(m.Rec().Content() + [LF])
  {
    hide *;
    RequestIs(segs);
    whole := MessageCaptured(cfg, segs, key, st0, before, p);
    CaptureClean(whole);
    CaptureType(whole);
    OneRecord(CaptureOf(whole));
  }

  lemma RequestIs(segs: seq<Pkt>)
    requires Reassembly.Request(segs)
    ensures Reassembly.HttpMessage(segs) && segs != [] && Reassembly.Side(segs) == DirIncoming
  {
    hide HasRequestTitle, Reassembly.Finishes, StreamLaws.Contiguous, StreamLaws.Short;
  }

  lemma ResponseIs(segs: seq<Pkt>)
    requires Reassembly.Response(segs)
    ensures Reassembly.HttpMessage(segs) && segs != [] && Reassembly.Side(segs) == DirOutcoming
  {
    hide HasRequestTitle, Reassembly.Finishes, StreamLaws.Contiguous, StreamLaws.Short;
  }

  lemma CaptureType(m: Msg)
    requires m.packets != []
    ensures CaptureOf(m).payloadType == (if m.direction == DirIncoming then REQUEST_PAYLOAD else RESPONSE_PAYLOAD)
    ensures CaptureOf(m).uuid == UUID(m)
  {
    hide UUID, Data, UnixNano, Wrap64;
  }

  /** A response that arrives in any order, not marked by its address, is captured once, as a response
      with the identifier of exactly those requests it can answer, and is not written to the log. */
  lemma ResponseCaptured(cfg: Parser.Config, segs: seq<Pkt>, key: nat, st0: Parser.State,
                         before: seq<Parser.Event>, p: Pkt) returns (whole: Msg)
    requires Reassembly.Response(segs) && Reassembly.Ready(st0, key)
    requires Reassembly.Delivers(cfg, segs, key, st0, before + [Parser.Arrive(p)])
    requires !Reassembly.AllOf(segs, Reassembly.Got(before, key))
    requires Reassembly.AllOf(segs, Reassembly.Got(before + [Parser.Arrive(p)], key))
    ensures Parser.Run(cfg, st0, before + [Parser.Arrive(p)]).emitted
         == Parser.Run(cfg, st0, before).emitted + [whole]
    ensures whole.packets != [] && whole.direction == DirOutcoming && segs != []
    ensures var begun := Reassembly.Opening(before + [Parser.Arrive(p)], key);
            && Reassembly.Timed(whole, Reassembly.Got(before + [Parser.Arrive(p)], key), begun)
            && Recorded(whole, DirOutcoming, begun, Concat(Payloads(segs)))
    ensures Log(Requests([CaptureOf(whole).Rec()])) == []
    ensures forall request: Msg :: request.packets != [] && request.direction == DirIncoming
                                   && |request.packets[0].srcIP| == 4 && |whole.packets[0].dstIP| == 4 ==>
              (CaptureOf(whole).uuid == CaptureOf(request).uuid <==>
               var q, a := request.packets[0], whole.packets[0];
               q.srcPort == a.dstPort && q.dstPort == a.srcPort && q.srcIP == a.dstIP && q.ack == segs[0].seqNo)
  {
    hide *;
    ResponseIs(segs);
    whole := MessageCaptured(cfg, segs, key, st0, before, p);
    CaptureClean(whole);
    CaptureType(whole);
    NotLogged(CaptureOf(whole));
    forall request: Msg | request.packets != [] && request.direction == DirIncoming
                          && |request.packets[0].srcIP| == 4 && |whole.packets[0].dstIP| == 4
      ensures CaptureOf(whole).uuid == CaptureOf(request).uuid <==>
              var q, a := request.packets[0], whole.packets[0];
              q.srcPort == a.dstPort && q.dstPort == a.srcPort && q.srcIP == a.dstIP && q.ack == segs[0].seqNo
    {
      CaptureType(request);
      StreamLaws.UuidPairsIpv4(request, whole);
    }
  }

  lemma NotLogged(m: Captured)
    requires m.Clean() && m.payloadType == RESPONSE_PAYLOAD
    ensures Log(Requests([m.Rec()])) == []
  {
    hide PayloadHeader;
    RequestByType(m);
    RequestsCons(m.Rec(), []);
    assert [m.Rec()] + [] == [m.Rec()];
  }

  /** Two messages opened `d` nanoseconds apart are replayed `d` nanoseconds apart. */
  lemma CapturesApart(a: Msg, b: Msg)
    requires a.packets != [] && b.packets != [] && Recent(a.start) && Recent(b.start)
    requires CaptureOf(a).timing != -1 && ReplayLaws.FitsGap(b.start - a.start)
    ensures Replay.Sleeps([CaptureOf(a).timing, CaptureOf(b).timing], -1, 1.0) == [b.start - a.start]
  {
    hide UUID, Data, Wrap64;
    WrapFits(a.start - EPOCH);
    WrapFits(b.start - EPOCH);
    WrapFits(b.start - a.start);
    var ts: seq<int64> := [CaptureOf(a).timing, CaptureOf(b).timing];
    assert ts[1..] == [CaptureOf(b).timing] && ts[1..][1..] == [];
    assert Replay.Sleeps(ts[1..][1..], ts[1], 1.0) == [];
    assert Replay.Sleeps(ts[1..], ts[0], 1.0) == [b.start - a.start] + [];
    assert Replay.Sleeps(ts, -1, 1.0) == [] + Replay.Sleeps(ts[1..], ts[0], 1.0);
  }

  lemma BodyOf(m: Captured)
    requires m.Clean()
    ensures PayloadBody(m.Rec().Content()) == m.data
  {
    hide PayloadMeta, PayloadHeader, PayloadBody;
    HeaderReadsBack(m.payloadType, m.uuid, m.timing, m.latency, m.data);
  }

  lemma OneRecord(m: Captured)
    requires m.Clean() && m.payloadType == REQUEST_PAYLOAD
    ensures ReadBack(Log(Requests([m.Rec()]))) == Reading([Parsed(m.Rec().Content(), m.timing)], true)
            <==> !HoldsMarker(m.Rec().Content() + [LF])
  {
    hide ReadBack, Log, Requests, HoldsMarker, PayloadHeader, FormatInt;
    LogRoundTrip([m]);
    assert [m][1..] == [];
    assert Recs([m]) == [m.Rec()];
    assert OnlyRequests([m]) == [m];
    assert AllExpected([m]) == [m.Expected()];
  }

  // ----- from frames on the wire ----------------------------------------------------------------

  /** A frame as it was written, with what the capture library says about it. */
  datatype Written = Written(link: seq<byte>, net: Network, trans: Transport, time: nat, length: int, captured: int,
                             spare: nat) {
    predicate WellFormed() {
      GoodNetwork(net) && GoodTransport(trans)
    }

    function AsInput(): Input
      requires WellFormed()
    {
      Frame(link + WriteNetwork(net) + WriteTransport(trans), |link|, time, length, captured, spare)
    }

    /** The packet it carries, marked if it goes to the listener. */
    function Carried(l: Listener): Pkt {
      Marked(l, Described(net, trans, time, (length - captured) % 0x1_0000_0000, spare))
    }
  }

  /** A frame is heard, with every field as it was written, exactly when its payload has a byte other
      than zero; it is incoming exactly if it goes to a port and an address of the listener. */
  lemma FrameHeard(l: Listener, w: Written)
    requires w.WellFormed()
    ensures Heard(l, w.AsInput())
         == if forall b :: b in w.trans.payload ==> b == 0 then [] else [Parser.Arrive(w.Carried(l))]
    ensures var p := w.Carried(l);
            && p.(direction := DirUnknown)
               == Described(w.net, w.trans, w.time, (w.length - w.captured) % 0x1_0000_0000, w.spare)
            && p.direction
               == if w.trans.dstPort in l.ports && exists i :: 0 <= i < |l.ips| && SameIP(w.net.dst, l.ips[i])
                  then DirIncoming else DirUnknown
  {
    hide *;
    HeardAs(l, w);
    ZeroBytes(w.trans.payload);
    CarriedBy(l, w);
  }

  lemma CarriedBy(l: Listener, w: Written)
    ensures var p := w.Carried(l);
            && p.(direction := DirUnknown)
               == Described(w.net, w.trans, w.time, (w.length - w.captured) % 0x1_0000_0000, w.spare)
            && p.direction
               == if w.trans.dstPort in l.ports && exists i :: 0 <= i < |l.ips| && SameIP(w.net.dst, l.ips[i])
                  then DirIncoming else DirUnknown
  {
    hide SameIP;
  }

  lemma ZeroBytes(s: seq<byte>)
    ensures PacketParser.AllZero(s) <==> forall b :: b in s ==> b == 0
  {
    assert forall i :: 0 <= i < |s| ==> s[i] in s;
  }

  lemma HeardAs(l: Listener, w: Written)
    requires w.WellFormed()
    ensures Heard(l, w.AsInput())
         == if PacketParser.AllZero(w.trans.payload) then [] else [Parser.Arrive(w.Carried(l))]
  {
    hide PacketParser.Parse, PacketParser.AllZero, WriteNetwork, WriteTransport, GoodNetwork, GoodTransport, Described,
         Addressed;
    if PacketParser.AllZero(w.trans.payload) {
      ParseDropsZeros(w.link, w.net, w.trans, w.time, w.length, w.captured, w.spare);
    } else {
      ParseReadsWritten(w.link, w.net, w.trans, w.time, w.length, w.captured, w.spare, false);
    }
  }

  /** One turn of the loop: a frame written by a sender of the request, or any other input; a tick ranges
      over the map in some order. */
  datatype Turn = Sent(w: Written) | Other(x: Input, order: seq<nat>)

  predicate Sound(u: Turn) {
    match u
    case Sent(w) => w.WellFormed()
    case Other(x, _) => x.Frame? ==> !ParserLoop.ParsedFrame(x).Endless?
  }

  predicate AllSound(us: seq<Turn>) {
    forall i :: 0 <= i < |us| ==> Sound(us[i])
  }

  function InputOf(u: Turn): Input
    requires Sound(u)
  {
    match u
    case Sent(w) => w.AsInput()
    case Other(x, _) => x
  }

  /** What the parser is given in one turn. */
  function Played(l: Listener, u: Turn): seq<Parser.Event>
    requires Sound(u)
  {
    if u.Other? && u.x.Clock? then [Parser.Tick(u.x.now, u.order)] else Heard(l, InputOf(u))
  }

  function AllPlayed(l: Listener, us: seq<Turn>): seq<Parser.Event>
    requires AllSound(us)
  {
    if us == [] then [] else AllPlayed(l, us[..|us| - 1]) + Played(l, us[|us| - 1])
  }

  function Inputs(us: seq<Turn>): seq<Input>
    requires AllSound(us)
  {
    seq(|us|, i requires 0 <= i < |us| => InputOf(us[i]))
  }

  /** The events played are those the loop hears, but for the orders of the ticks. */
  lemma {:induction false} PlayedIsHeard(l: Listener, us: seq<Turn>)
    requires AllSound(us)
    ensures AllUnordered(AllPlayed(l, us)) == AllHeard(l, Inputs(us))
  {
    hide Heard, InputOf, Sound;
    if us != [] {
      var before, u := us[..|us| - 1], us[|us| - 1];
      PlayedIsHeard(l, before);
      assert Inputs(us)[..|us| - 1] == Inputs(before);
      PlayedUnordered(l, u, AllPlayed(l, before));
    }
  }

  lemma PlayedUnordered(l: Listener, u: Turn, evs: seq<Parser.Event>)
    requires Sound(u)
    ensures AllUnordered(evs + Played(l, u)) == AllUnordered(evs) + Heard(l, InputOf(u))
  {
    hide Sound, InputOf, AllUnordered, Addressed, PacketParser.Parse;
    var played := Played(l, u);
    if played == [] {
      assert evs + played == evs;
    } else {
      UnorderedPush(evs, played[0]);
    }
    OtherInput(u);
  }

  lemma OtherInput(u: Turn)
    requires Sound(u)
    ensures u.Other? ==> InputOf(u) == u.x
  {}

  /** Frames that carry copies of the segments, no segment being all zeros, and other inputs; as in
      `Delivers`. */
  predicate WireDelivers(cfg: Parser.Config, l: Listener, segs: seq<Pkt>, key: nat, st: Parser.State, us: seq<Turn>)
    requires segs != [] && AllSound(us)
  {
    us == [] ||
    var before, u := us[..|us| - 1], us[|us| - 1];
    && WireDelivers(cfg, l, segs, key, st, before)
    && var evs := AllPlayed(l, before);
    match u
    case Sent(w) =>
      && !PacketParser.AllZero(w.trans.payload)
      && MessageId(w.Carried(l)) == key && Reassembly.CopyOf(segs, Reassembly.Got(evs, key), w.Carried(l))
    case Other(_, _) => Reassembly.Delivers(cfg, segs, key, st, evs + Played(l, u))
  }

  lemma {:induction false} WireIsDelivery(cfg: Parser.Config, l: Listener, segs: seq<Pkt>, key: nat,
                                          st: Parser.State, us: seq<Turn>)
    requires segs != [] && AllSound(us) && WireDelivers(cfg, l, segs, key, st, us)
    ensures Reassembly.Delivers(cfg, segs, key, st, AllPlayed(l, us))
  {
    hide Played, Sound, Reassembly.CopyOf, Reassembly.Aside, Parser.Run, PacketParser.AllZero;
    if us != [] {
      var before, u := us[..|us| - 1], us[|us| - 1];
      WireIsDelivery(cfg, l, segs, key, st, before);
      var evs := AllPlayed(l, before);
      if u.Sent? {
        SentPlayed(l, u);
        var ev := Parser.Arrive(u.w.Carried(l));
        assert (evs + [ev])[..|evs|] == evs;
      }
    }
  }

  lemma SentPlayed(l: Listener, u: Turn)
    requires Sound(u) && u.Sent? && !PacketParser.AllZero(u.w.trans.payload)
    ensures Played(l, u) == [Parser.Arrive(u.w.Carried(l))]
  {
    hide Heard, PacketParser.AllZero;
    HeardAs(l, u.w);
  }

  /** From wire to record: frames that carry copies of the segments of a request or a response, in any
      order and among other frames and ticks, are parsed, marked, joined and captured as one record. */
  lemma WireCaptured(cfg: Parser.Config, l: Listener, segs: seq<Pkt>, key: nat, st0: Parser.State,
                     before: seq<Turn>, last: Written) returns (whole: Msg)
    requires Reassembly.HttpMessage(segs) && Reassembly.Ready(st0, key)
    requires AllSound(before) && last.WellFormed() && AllSound(before + [Sent(last)])
    requires WireDelivers(cfg, l, segs, key, st0, before + [Sent(last)])
    requires !Reassembly.AllOf(segs, Reassembly.Got(AllPlayed(l, before), key))
    requires Reassembly.AllOf(segs, Reassembly.Got(AllPlayed(l, before + [Sent(last)]), key))
    ensures AllUnordered(AllPlayed(l, before + [Sent(last)])) == AllHeard(l, Inputs(before + [Sent(last)]))
    ensures Parser.Run(cfg, st0, AllPlayed(l, before + [Sent(last)])).emitted
         == Parser.Run(cfg, st0, AllPlayed(l, before)).emitted + [whole]
    ensures whole.packets != [] && segs != []
    ensures var evs := AllPlayed(l, before + [Sent(last)]);
            var begun := Reassembly.Opening(evs, key);
            && whole.direction == Reassembly.Side(segs)
            && Reassembly.Timed(whole, Reassembly.Got(evs, key), begun)
            && Recorded(whole, whole.direction, begun, Concat(Payloads(segs)))
  {
    hide *;
    var us := before + [Sent(last)];
    PlayedIsHeard(l, us);
    LastTurn(cfg, l, segs, key, st0, before, last);
    WireIsDelivery(cfg, l, segs, key, st0, us);
    whole := MessageCaptured(cfg, segs, key, st0, AllPlayed(l, before), last.Carried(l));
  }

  /** From wire to replay: the record of a request captured so is replayed with exactly the bytes the
      client sent, unless the marker stands on one of their lines. */
  lemma WireReplayed(cfg: Parser.Config, l: Listener, segs: seq<Pkt>, key: nat, st0: Parser.State,
                     before: seq<Turn>, last: Written) returns (whole: Msg)
    requires Reassembly.Request(segs) && Reassembly.Ready(st0, key)
    requires AllSound(before) && last.WellFormed() && AllSound(before + [Sent(last)])
    requires WireDelivers(cfg, l, segs, key, st0, before + [Sent(last)])
    requires !Reassembly.AllOf(segs, Reassembly.Got(AllPlayed(l, before), key))
    requires Reassembly.AllOf(segs, Reassembly.Got(AllPlayed(l, before + [Sent(last)]), key))
    ensures AllUnordered(AllPlayed(l, before + [Sent(last)])) == AllHeard(l, Inputs(before + [Sent(last)]))
    ensures Parser.Run(cfg, st0, AllPlayed(l, before + [Sent(last)])).emitted
         == Parser.Run(cfg, st0, AllPlayed(l, before)).emitted + [whole]
    ensures whole.packets != []
    ensures var evs := AllPlayed(l, before + [Sent(last)]);
            var begun := Reassembly.Opening(evs, key);
            && Reassembly.Timed(whole, Reassembly.Got(evs, key), begun)
            && Recorded(whole, DirIncoming, begun, Concat(Payloads(segs)))
    ensures var m := CaptureOf(whole);
            ReadBack(Log(Requests([m.Rec()]))) == Reading([Parsed(m.Rec().Content(), m.timing)], true)
            <==> !HoldsMarker(m.Rec().Content() + [LF])
  {
    hide *;
    RequestIs(segs);
    whole := WireCaptured(cfg, l, segs, key, st0, before, last);
    CaptureClean(whole);
    CaptureType(whole);
    OneRecord(CaptureOf(whole));
  }

  lemma LastTurn(cfg: Parser.Config, l: Listener, segs: seq<Pkt>, key: nat, st0: Parser.State, before: seq<Turn>,
                 last: Written)
    requires Reassembly.HttpMessage(segs) && AllSound(before) && AllSound(before + [Sent(last)])
    ensures segs != []
    ensures WireDelivers(cfg, l, segs, key, st0, before + [Sent(last)]) ==>
              AllPlayed(l, before + [Sent(last)]) == AllPlayed(l, before) + [Parser.Arrive(last.Carried(l))]
  {
    hide Played, PacketParser.AllZero, Reassembly.CopyOf, Reassembly.HttpMessage, Sound;
    Reassembly.MessageContiguous(segs);
    var us := before + [Sent(last)];
    assert us[..|us| - 1] == before && us[|us| - 1] == Sent(last);
    assert Sound(us[|us| - 1]);
    if WireDelivers(cfg, l, segs, key, st0, us) {
      SentPlayed(l, Sent(last));
    }
  }
}
