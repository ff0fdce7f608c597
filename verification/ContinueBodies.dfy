/** Requests that wait for an interim response and send their body in several segments: the Acks shift once
    more for every incomplete segment, so only a body in one segment meets its header. */
module ContinueBodies {
  import opened Bytes
  import opened Packets
  import opened Titles
  import opened FullPayload
  import opened FullPayloadLaws
  import opened Messages
  import opened Parser
  import opened Reassembly
  import opened Continue100

  /** The body cut into segments, none of which starts like a message. */
  predicate BodyCut(body: Pkt, bs: seq<Pkt>) {
    && bs != [] && Concat(Payloads(bs)) == body.payload && bs[0].seqNo == body.seqNo
    && forall i :: 0 <= i < |bs| ==>
         bs[i].payload != [] && !HasTitle(bs[i].payload) && bs[i].ack == body.ack && SameEndpoints(body, bs[i])
  }

  function Deliver(st: State, ps: seq<Pkt>): State {
    if ps == [] then st else ProcessPacket(Deliver(st, ps[..|ps| - 1]), ps[|ps| - 1])
  }

  // ----- segments without a title ---------------------------------------------------------------

  /** What is tracked under `key`, if anything, holds no title. */
  predicate Headless(st: State, key: nat) {
    key in st.tracked ==>
      st.tracked[key].framing == FRESH && forall p :: p in st.tracked[key].packets ==> !HasTitle(p.payload)
  }

  lemma UntitledPayloads(ps: seq<Pkt>)
    requires ps != [] && forall p :: p in ps ==> !HasTitle(p.payload)
    ensures Payloads(ps) != [] && !HasTitle(Payloads(ps)[0])
  {
    hide HasTitle;
    assert ps[0] in ps;
  }

  lemma UntitledAdd(m: Msg, p: Pkt)
    requires !HasTitle(p.payload) && forall q :: q in m.packets ==> !HasTitle(q.payload)
    ensures forall q :: q in Add(m, p).packets ==> !HasTitle(q.payload)
    ensures !HasSeq(m.packets, p.seqNo) ==> Add(m, p).packets != []
    ensures Add(m, p).framing == m.framing
  {
    hide HasTitle, HasSeq, Place;
    assert m.packets[..Place(m.packets, p.seqNo)] + m.packets[Place(m.packets, p.seqNo)..] == m.packets;
  }

  lemma UntitledNeverFull(m: Msg)
    requires m.packets != [] && forall p :: p in m.packets ==> !HasTitle(p.payload)
    ensures EndHint(m) == (m, false)
  {
    hide HasTitle, MissingChunk, Payloads;
    UntitledPayloads(m.packets);
    CheckMiddle(m.framing, Payloads(m.packets));
  }

  /** Another segment without a title: nothing leaves, and no other entry changes. */
  lemma HeadlessGrows(st: State, p: Pkt)
    requires Headless(st, MessageId(p)) && !HasTitle(p.payload)
    ensures var st1 := ProcessPacket(st, p);
            var key := MessageId(p);
            && Headless(st1, key) && st1.emitted == st.emitted && st1.expired == st.expired
            && st1.tracked - {key} == st.tracked - {key}
  {
    hide HasTitle, HasSeq, MessageId, StartHint, EndHint, Add;
    var (m, p1) := Joining(st, p);
    assert p1.payload == p.payload && m.framing == FRESH && forall q :: q in m.packets ==> !HasTitle(q.payload);
    UntitledAdd(m, p1);
    if !HasSeq(m.packets, p1.seqNo) {
      UntitledNeverFull(Add(m, p1));
    }
  }

  lemma {:induction false} AllHeadless(st: State, ps: seq<Pkt>, key: nat)
    requires Headless(st, key) && forall i :: 0 <= i < |ps| ==> MessageId(ps[i]) == key && !HasTitle(ps[i].payload)
    ensures var st1 := Deliver(st, ps);
            && Headless(st1, key) && st1.emitted == st.emitted && st1.expired == st.expired
            && st1.tracked - {key} == st.tracked - {key}
  {
    hide Headless, HasTitle, MessageId, ProcessPacket;
    if ps != [] {
      AllHeadless(st, ps[..|ps| - 1], key);
      HeadlessGrows(Deliver(st, ps[..|ps| - 1]), ps[|ps| - 1]);
    }
  }

  // ----- the first body segment ---------------------------------------------------------------------

  lemma FirstShorter(body: Pkt, bs: seq<Pkt>)
    requires BodyCut(body, bs) && |bs| > 1
    ensures 0 < |bs[0].payload| < |body.payload|
  {
    hide HasTitle, SameEndpoints;
    var rest := Payloads(bs)[1..];
    assert Payloads(bs)[0] == bs[0].payload && rest[0] == bs[1].payload;
    assert Concat(rest) == rest[0] + Concat(rest[1..]);
  }

  /** A first part of the body leaves the message incomplete. */
  lemma PartHint(head: Pkt, body: Pkt, part: Pkt, m: Msg)
    requires Expecting(head, body) && Waiting(m, head)
    requires part.seqNo == body.seqNo && 0 < |part.payload| < |body.payload|
    ensures var first := m.packets[0];
            && Add(m, part).packets == [first, part] && !HasSeq(m.packets, part.seqNo)
            && var (m1, full) := EndHint(Add(m, part));
            && !full && m1.packets == [first, part] && m1.framing.continue100
  {
    hide Expecting, Check, Learned, MissingChunk, Add, Erase, Payloads, HasSeq;
    ExpectingFacts(head, body);
    var first := m.packets[0];
    AddSecond(m, part);
    TwoPackets(first, part);
    TwoPayloads(first, part);
    HeadChecked(head, body, m.framing, [head.payload, part.payload]);
  }

  /** The ID the two segments move to: that of the body, shifted once more. */
  lemma TwiceShifted(head: Pkt, body: Pkt, d: Dir)
    requires Expecting(head, body)
    ensures var first := Shifted(head).(direction := d);
            && MessageId(Shifted(first)) == MessageId(Shifted(body)) != MessageId(body)
            && MessageId(first) == MessageId(body)
  {
    hide Ip2Int, HasRequestTitle, HeadersEnd, SaysContinue, SaysChunked, DeclaredLength, BitOr;
    var first := Shifted(head).(direction := d);
    SameConnectionSameId(first, body);
    SameConnectionSameId(Shifted(first), Shifted(body));
    SameConnectionSameId(Shifted(body), body);
  }

  lemma MovesOn(st: State, id: nat, m: Msg, p: Pkt, first: Pkt, to: nat)
    requires !HasSeq(m.packets, p.seqNo) && Add(m, p).packets != []
    requires var (m1, full) := EndHint(Add(m, p)); !full && m1.packets == [first, p] && m1.framing.continue100
    requires MessageId(first) == id && MessageId(Shifted(first)) == to != id && to !in st.tracked
    ensures var st1 := AddPacket(st, id, m, p);
            st1.emitted == st.emitted && st1.expired == st.expired && id !in st1.tracked && to in st1.tracked
  {
    hide MessageId, HasSeq, Add, EndHint;
    assert ShiftAll([first, p])[0] == Shifted(first);
  }

  /** The first of several body segments takes the header with it to the next ID. */
  lemma PartArrives(st: State, head: Pkt, body: Pkt, part: Pkt)
    requires Expecting(head, body) && part.seqNo == body.seqNo && 0 < |part.payload| < |body.payload|
    requires MessageId(part) == MessageId(body) && MessageId(Shifted(body)) !in st.tracked
    requires MessageId(body) in st.tracked && Waiting(st.tracked[MessageId(body)], head)
    ensures var st1 := ProcessPacket(st, part);
            && st1.emitted == st.emitted && st1.expired == st.expired
            && MessageId(body) !in st1.tracked && MessageId(Shifted(body)) in st1.tracked
  {
    hide *;
    var key := MessageId(body);
    var m := st.tracked[key];
    var d := WaitingParts(m, head);
    PartHint(head, body, part, m);
    KnownArrival(st, part);
    TwiceShifted(head, body, d);
    MovesOn(st, key, m, part, m.packets[0], MessageId(Shifted(body)));
  }

  // ----- exactly one segment --------------------------------------------------------------------------

  /** A body in one segment is the body itself, as far as the parser looks. */
  lemma OneIsBody(head: Pkt, body: Pkt, b: Pkt)
    requires Expecting(head, body) && BodyCut(body, [b])
    ensures Expecting(head, b) && b.payload == body.payload && MessageId(b) == MessageId(body)
  {
    hide HasRequestTitle, HasTitle, HeadersEnd, SaysContinue, SaysChunked, DeclaredLength, MessageId, Ip2Int;
    var bs := [b];
    assert bs[0].payload == b.payload && bs[0].ack == body.ack && SameEndpoints(body, bs[0]);
    OnePayloadIs(b);
    SameConnectionSameId(body, b);
  }

  lemma OnePayloadIs(p: Pkt)
    ensures Concat(Payloads([p])) == p.payload
  {
    assert Payloads([p]) == [p.payload];
    assert [p.payload][1..] == [];
    assert Concat([p.payload]) == p.payload + Concat([]);
  }

  lemma PartIds(body: Pkt, bs: seq<Pkt>)
    requires BodyCut(body, bs)
    ensures bs[0].seqNo == body.seqNo
    ensures forall i :: 0 <= i < |bs| ==> MessageId(bs[i]) == MessageId(body) && !HasTitle(bs[i].payload)
  {
    hide HasTitle, MessageId, SameEndpoints, Payloads, Concat;
    forall i | 0 <= i < |bs|
      ensures MessageId(bs[i]) == MessageId(body)
    {
      SameConnectionSameId(body, bs[i]);
    }
  }

  lemma {:induction false} DeliverSplit(st: State, p: Pkt, ps: seq<Pkt>)
    ensures Deliver(st, [p] + ps) == Deliver(ProcessPacket(st, p), ps)
  {
    hide ProcessPacket;
    var all := [p] + ps;
    if ps == [] {
      assert all[..|all| - 1] == [];
    } else {
      assert all[..|all| - 1] == [p] + ps[..|ps| - 1];
      DeliverSplit(st, p, ps[..|ps| - 1]);
    }
  }

  /** Header segment, then the body: one message is sent if and only if the body is in one segment.
      Otherwise the header leaves with the first part for an ID no other part has, and nothing is sent. */
  lemma SentIfOneSegment(st: State, head: Pkt, body: Pkt, bs: seq<Pkt>)
    requires Expecting(head, body) && BodyCut(body, bs)
    requires MessageId(head) !in st.tracked && MessageId(body) !in st.tracked
    requires MessageId(Shifted(body)) !in st.tracked
    ensures var last := Deliver(ProcessPacket(st, head), bs);
            && last.expired == st.expired
            && (|bs| == 1 ==> exists whole: Msg | whole.packets != [] ::
                  last.emitted == st.emitted + [whole] && Data(whole) == WithoutExpect(head) + body.payload)
            && (|bs| > 1 ==> last.emitted == st.emitted && MessageId(Shifted(body)) in last.tracked)
  {
    hide *;
    var key, next := MessageId(body), MessageId(Shifted(body));
    HeadArrives(st, head, body);
    var st1 := ProcessPacket(st, head);
    CutFacts(body, bs);
    PartIds(body, bs);
    DeliverSplit(st1, bs[0], bs[1..]);
    assert [bs[0]] + bs[1..] == bs;
    if |bs| == 1 {
      assert bs == [bs[0]] && bs[1..] == [];
      OneIsBody(head, body, bs[0]);
      var whole := BodyArrives(st1, head, bs[0]);
      DeliverNone(ProcessPacket(st1, bs[0]));
    } else {
      FirstShorter(body, bs);
      NextFree(st, st1, key, next, head, body);
      PartArrives(st1, head, body, bs[0]);
      var st2 := ProcessPacket(st1, bs[0]);
      NoneHeadless(st2, key);
      AllHeadless(st2, bs[1..], key);
      TwiceShifted(head, body, DirUnknown);
      KeptBeside(st2.tracked, Deliver(st2, bs[1..]).tracked, key, next);
    }
  }

  lemma CutFacts(body: Pkt, bs: seq<Pkt>)
    requires BodyCut(body, bs)
    ensures bs != []
  {
    hide HasTitle, SameEndpoints;
  }

  lemma DeliverNone(st: State)
    ensures Deliver(st, []) == st
  {}

  lemma NoneHeadless(st: State, key: nat)
    requires key !in st.tracked
    ensures Headless(st, key)
  {}

  lemma NextFree(st: State, st1: State, key: nat, next: nat, head: Pkt, body: Pkt)
    requires st1.tracked - {key} == st.tracked && next !in st.tracked
    requires Expecting(head, body) && key == MessageId(body) && next == MessageId(Shifted(body))
    ensures next !in st1.tracked
  {
    hide *;
    TwiceShifted(head, body, DirUnknown);
    assert next != key;
    assert next in st1.tracked ==> next in st1.tracked - {key};
  }

  lemma KeptBeside(a: map<nat, Msg>, b: map<nat, Msg>, key: nat, next: nat)
    requires a - {key} == b - {key} && next in a && next != key
    ensures next in b
  {
    assert next in a - {key};
  }
}
