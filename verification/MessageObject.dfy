/** tcp_message.go: the `Message` object, its packets and its protocol state, updated in place. */
module MessageObject {
  import opened Bytes
  import opened Words
  import opened Packets
  import opened FullPayload
  import opened HeaderEdits
  import opened Messages
  import opened MessageLaws
  import opened Parser
  import opened Headers

  ghost function Views(ps: seq<Packet>): (r: seq<Pkt>)
    reads ps
    ensures |r| == |ps|
    ensures forall i :: 0 <= i < |ps| ==> r[i] == ps[i].View()
  {
    if ps == [] then [] else [ps[0].View()] + Views(ps[1..])
  }

  class Message {
    var packets: seq<Packet>
    var feedback: HTTPState?
    var LostData: nat
    var Length: nat
    var Start: nat
    var End: nat
    var Direction: Dir
    var TimedOut: bool

    ghost function Footprint(): set<object>
      reads this
    {
      var own: set<object> := {this};
      var parts: set<object> := set p: Packet | p in packets :: p;
      var state: set<object> := if feedback == null then {} else {feedback};
      own + parts + state
    }

    ghost function Framed(): Framing
      reads this, feedback
    {
      if feedback == null then FRESH else feedback.View()
    }

    ghost function View(): Msg
      reads this, packets, feedback
    {
      Msg(Views(packets), Framed(), Length, LostData, Start, End, Direction, TimedOut)
    }

    ghost predicate Valid()
      reads this, packets
    {
      && (forall i, j :: 0 <= i < j < |packets| ==> packets[i] != packets[j])
      && (forall i :: 0 <= i < |packets| ==> packets[i].Valid())
      && Sorted(Views(packets))
    }

    constructor (direction: Dir, start: nat)
      ensures Valid() && packets == [] && feedback == null
      ensures View() == Msg([], FRESH, 0, 0, start, 0, direction, false)
    {
      packets, feedback := [], null;
      LostData, Length, Start, End, Direction, TimedOut := 0, 0, start, 0, direction, false;
    }

    method SetDirection(d: Dir)
      requires Valid()
      modifies this`Direction
      ensures Valid() && View() == old(View()).(direction := d)
    {
      hide Views, Sorted, Packet.Valid, HTTPState.View;
      Direction := d;
    }

    method SetTimedOut()
      requires Valid()
      modifies this`TimedOut
      ensures Valid() && View() == old(View()).(timedOut := true)
    {
      hide Views, Sorted, Packet.Valid, HTTPState.View;
      TimedOut := true;
    }

    /** `m.packets[0].MessageID()`, which may fill the packet's cache. */
    method FirstID() returns (id: nat)
      requires Valid() && packets != []
      modifies packets
      ensures id == KeyOf(View()) && View() == old(View()) && Valid()
    {
      hide Sorted, HTTPState.View, MessageId;
      id := packets[0].MessageID();
      SameViews(packets);
    }

    /** The loop of `Fix100Continue` over the packets. */
    method ShiftAcks()
      requires Valid()
      modifies packets
      ensures Valid() && View() == Rekeyed(old(View()))
      ensures forall i :: 0 <= i < |packets| ==> packets[i].View() == Shifted(old(packets[i].View()))
    {
      hide Views, Sorted, Packet.View, Shifted, HTTPState.View;
      for i := 0 to |packets|
        invariant forall j :: 0 <= j < i ==> packets[j].View() == Shifted(old(packets[j].View()))
        invariant forall j :: i <= j < |packets| ==> packets[j].View() == old(packets[j].View())
        invariant forall j :: 0 <= j < |packets| ==> packets[j].Valid()
      {
        packets[i].ShiftAck();
      }
      ShiftedViews(packets);
    }

    method HasDuplicate(packet: Packet) returns (found: bool)
      ensures found == HasSeq(Views(packets), packet.Seq)
    {
      hide Views;
      for i := 0 to |packets|
        invariant forall j :: 0 <= j < i ==> packets[j].Seq != packet.Seq
      {
        if packets[i].Seq == packet.Seq {
          assert Views(packets)[i].seqNo == packet.Seq;
          return true;
        }
      }
      found := false;
    }

    method FindPlace(packet: Packet) returns (k: nat)
      requires Valid() && !HasSeq(Views(packets), packet.Seq)
      ensures k == Place(Views(packets), packet.Seq) && k <= |packets|
    {
      hide Views, HasSeq;
      if |packets| == 0 || packet.Seq > packets[|packets| - 1].Seq {
        k := |packets|;
      } else if packet.Seq < packets[0].Seq {
        k := 0;
      } else {
        k := 0;
        while k < |packets| && !(packet.Seq < packets[k].Seq)
          invariant k <= |packets|
          invariant FirstAbove(Views(packets), packet.Seq, 0) == FirstAbove(Views(packets), packet.Seq, k)
        {
          k := k + 1;
        }
      }
    }

    /** The three ways `add` rewrites the list of packets. */
    method Insert(packet: Packet)
      requires Valid() && packet.Valid() && packet !in packets && !HasSeq(Views(packets), packet.Seq)
      modifies this`packets
      ensures Valid() && View() == old(View()).(packets := Inserted(old(Views(packets)), packet.View()))
      ensures forall p :: p in packets <==> p in old(packets) || p == packet
    {
      hide HasSeq, Place, Views, Sorted, MessageId, HTTPState.View, Packet.View;
      assert packet.View().seqNo == packet.Seq by { PacketFields(packet); }
      var k := FindPlace(packet);
      ghost var ps := packets;
      InsertedSorted(Views(ps), packet.View());
      ViewsInserted(ps, packet, k);
      InsertedObjects(ps, packet, k);
      packets := packets[..k] + [packet] + packets[k..];
      assert forall i :: 0 <= i < |packets| ==> packets[i] in packets;
    }

    method Account(packet: Packet)
      requires Valid()
      modifies this`Length, this`LostData, this`End
      ensures Valid() && packets == old(packets)
      ensures View() == old(View()).(length := old(Length) + |packet.Payload|, lost := old(LostData) + packet.Lost,
                                     end := Later(old(End), packet.Timestamp))
    {
      hide Views, Sorted, Packet.Valid, HTTPState.View;
      Length := Length + |packet.Payload|;
      LostData := LostData + packet.Lost;
      if packet.Timestamp > End || End == 0 {
        End := packet.Timestamp;
      }
    }

    /** `add`: a packet whose Seq is there already is refused; any other goes to its place. */
    method Add(packet: Packet) returns (added: bool)
      requires Valid() && packet.Valid() && packet !in packets
      modifies this`packets, this`Length, this`LostData, this`End
      ensures Valid()
      ensures added == !HasSeq(old(Views(packets)), packet.Seq)
      ensures View() == Messages.Add(old(View()), packet.View())
      ensures forall p :: p in packets <==> p in old(packets) || (added && p == packet)
    {
      hide HasSeq, Inserted, Views, Valid, Packet.View, Packet.Valid, HTTPState.View;
      var duplicate := HasDuplicate(packet);
      PacketFields(packet);
      if duplicate {
        return false;
      }
      Insert(packet);
      Account(packet);
      added := true;
    }

    /** `MissingChunk`. */
    method MissingChunk() returns (missing: bool)
      requires packets != []
      ensures missing == Messages.MissingChunk(Views(packets))
    {
      hide Views;
      var nextSeq: uint32 := packets[0].Seq;
      ghost var vs := Views(packets);
      for i := 0 to |packets|
        invariant GapFrom(vs, vs[0].seqNo) == GapFrom(vs[i..], nextSeq)
      {
        assert vs[i..][0] == vs[i] && vs[i..][1..] == vs[i + 1..];
        if packets[i].Seq != nextSeq {
          return true;
        }
        nextSeq := (nextSeq + |packets[i].Payload|) % 0x1_0000_0000;
      }
      missing := false;
    }

    method PacketData() returns (tmp: seq<seq<byte>>)
      ensures tmp == Payloads(Views(packets))
    {
      hide Views;
      tmp := [];
      for i := 0 to |packets|
        invariant |tmp| == i && forall j :: 0 <= j < i ==> tmp[j] == packets[j].Payload
      {
        tmp := tmp + [packets[i].Payload];
      }
    }

    /** `Data`; `ok` is false where looking up the Expect line fails. */
    method Data() returns (bytes: seq<byte>, ok: bool)
      requires packets != []
      ensures ok == (View().framing.continue100 ==> Readable(RawData(View()), EXPECT))
      ensures ok ==> bytes == Messages.Data(View())
    {
      hide Views, CopySlice, DeleteHeader, Readable;
      ok := true;
      var packetData := PacketData();
      var tmp := packetData[0];
      var n;
      tmp, n := CopySliceBytes(tmp, |tmp| + packets[0].Spare, |packetData[0]|, packetData[1..]);
      if feedback != null && feedback.Continue100 {
        var slice := ByteUtils.MakeSlice(tmp);
        slice, ok := DeleteHeaderSlice(slice, EXPECT);
        tmp := ReadSlice(slice);
      }
      bytes := tmp;
    }

    /** `UUID`. */
    method UUID() returns (id: seq<byte>)
      requires packets != []
      ensures id == Messages.UUID(View())
    {
      hide Hex, BigEndian, Ip2Int, BitOr;
      var pckt := packets[0];
      var streamID;
      if Direction == DirIncoming {
        streamID := StreamId(pckt.SrcPort, pckt.DstPort, Ip2Int(pckt.SrcIP));
        id := Hex(BigEndian(streamID, 8) + BigEndian(pckt.Ack, 4));
      } else {
        streamID := StreamId(pckt.DstPort, pckt.SrcPort, Ip2Int(pckt.DstIP));
        id := Hex(BigEndian(streamID, 8) + BigEndian(pckt.Seq, 4));
      }
    }
  }


  /** `copySlice` on byte strings: the buffer grows to the capacity first, then the pieces are copied
      into what is there. */
  method CopySliceBytes(to: seq<byte>, cap: nat, skip: nat, from: seq<seq<byte>>) returns (buf: seq<byte>, n: nat)
    requires skip <= |to| <= cap
    ensures (buf, n) == CopySlice(to, cap, skip, from)
  {
    hide Written, Zeros;
    var totalLen := 0;
    for i := 0 to |from|
      invariant totalLen + Total(from[i..]) == Total(from)
    {
      assert from[i..][1..] == from[i + 1..];
      totalLen := totalLen + |from[i]|;
    }
    totalLen := totalLen + skip;
    buf, n := to, skip;
    if cap < totalLen {
      var diff := totalLen - cap;
      buf := buf + Zeros(diff);
    }
    ghost var start := buf;
    assert from[0..] == from;
    for i := 0 to |from|
      invariant n <= |buf|
      invariant Fill(start, skip, from) == Fill(buf, n, from[i..])
    {
      assert from[i..][0] == from[i] && from[i..][1..] == from[i + 1..];
      var s := from[i];
      var copied := if |s| <= |buf| - n then |s| else |buf| - n;
      buf := Written(buf, n, s);
      n := n + copied;
    }
  }


  /** Two messages that share no object. */
  ghost predicate Apart(x: Message, y: Message)
    reads x, y
  {
    && x != y && (forall p :: p in x.packets ==> p !in y.packets)
    && (x.feedback == null || x.feedback != y.feedback)
  }

  lemma ApartFootprints(x: Message, y: Message)
    ensures x.Footprint() !! y.Footprint() <==> Apart(x, y)
  {
    var a, b := x.Footprint(), y.Footprint();
    if Apart(x, y) {
      assert forall o :: o in a ==> o !in b;
    } else {
      assert x in a && y in b;
      assert forall p :: p in x.packets ==> p in a;
      assert forall p :: p in y.packets ==> p in b;
      assert x.feedback != null ==> x.feedback in a;
      assert y.feedback != null ==> y.feedback in b;
    }
  }

  /** Nothing that can be said about `x` changed. */
  twostate predicate Kept(x: Message)
    reads x, x.packets, x.feedback
  {
    && x.View() == old(x.View()) && x.Footprint() == old(x.Footprint())
    && x.packets == old(x.packets) && x.feedback == old(x.feedback)
    && (old(x.Valid()) ==> x.Valid())
  }

  twostate lemma KeptBy(x: Message)
    requires unchanged(x) && (x.feedback != null ==> unchanged(x.feedback))
    requires forall p :: p in x.packets ==> unchanged(p)
    ensures Kept(x)
  {
    hide Views, Sorted, Packet.View, HTTPState.View, MessageId;
    forall p | p in x.packets
      ensures p.View() == old(p.View()) && p.Valid() == old(p.Valid())
    {
      assert unchanged(p);
    }
    SameViews(x.packets);
  }

  twostate lemma SameViews(ps: seq<Packet>)
    requires forall p :: p in ps ==> p.View() == old(p.View())
    ensures Views(ps) == old(Views(ps))
  {
    hide Views, Packet.View;
    var v, w := Views(ps), old(Views(ps));
    forall i | 0 <= i < |ps|
      ensures v[i] == w[i]
    {
      assert ps[i] in ps;
    }
  }

  twostate lemma ShiftedViews(ps: seq<Packet>)
    requires forall i :: 0 <= i < |ps| ==> ps[i].View() == Shifted(old(ps[i].View()))
    ensures Views(ps) == ShiftAll(old(Views(ps)))
    ensures old(Sorted(Views(ps))) ==> Sorted(Views(ps))
  {
    hide Views, Packet.View;
    var v, w := Views(ps), old(Views(ps));
    assert forall i :: 0 <= i < |ps| ==> v[i] == Shifted(w[i]);
  }

  lemma PacketFields(packet: Packet)
    ensures var p := packet.View();
            p.seqNo == packet.Seq && p.payload == packet.Payload && p.lost == packet.Lost && p.time == packet.Timestamp
  {}

  lemma ViewsInserted(ps: seq<Packet>, packet: Packet, k: nat)
    requires k <= |ps|
    ensures Views(ps[..k] + [packet] + ps[k..]) == Views(ps)[..k] + [packet.View()] + Views(ps)[k..]
  {
    hide Views, Packet.View;
    ViewsConcat(ps[..k], [packet]);
    ViewsConcat(ps[..k] + [packet], ps[k..]);
    ViewsConcat(ps[..k], ps[k..]);
    assert ps[..k] + ps[k..] == ps;
    assert Views([packet]) == [packet.View()];
    var v := Views(ps);
    assert v[..k] == Views(ps[..k]) && v[k..] == Views(ps[k..]);
  }

  lemma ViewsConcat(a: seq<Packet>, b: seq<Packet>)
    ensures Views(a + b) == Views(a) + Views(b)
  {
    hide Views, Packet.View;
    var v := Views(a + b);
    assert forall i :: 0 <= i < |a| ==> v[i] == Views(a)[i];
    assert forall i :: 0 <= i < |b| ==> v[|a| + i] == Views(b)[i];
  }

  lemma InsertedObjects(ps: seq<Packet>, packet: Packet, k: nat)
    requires k <= |ps| && packet !in ps && forall i, j :: 0 <= i < j < |ps| ==> ps[i] != ps[j]
    ensures var r := ps[..k] + [packet] + ps[k..];
            && (forall i, j :: 0 <= i < j < |r| ==> r[i] != r[j])
            && (forall p :: p in r <==> p in ps || p == packet)
  {
    var r := ps[..k] + [packet] + ps[k..];
    assert forall i :: 0 <= i < |r| ==> r[i] == if i < k then ps[i] else if i == k then packet else ps[i - 1];
    assert ps == ps[..k] + ps[k..];
  }
}
