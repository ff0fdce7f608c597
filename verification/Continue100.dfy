/** Requests that wait for an interim response: the header segment moves to the ID its body will come
    with, and the two are sent as one message whose identity matches the final response. */
module Continue100 {
  import opened Bytes
  import opened Packets
  import opened Titles
  import opened FullPayload
  import opened FullPayloadLaws
  import opened Headers
  import opened HeaderEdits
  import opened Messages
  import opened StreamLaws
  import opened Parser
  import opened ParserLaws
  import opened Reassembly
  import Paths

  /** A header segment that expects 100-continue, and the one body segment that answers it: it
      acknowledges the 25 bytes of the interim response. */
  predicate Expecting(head: Pkt, body: Pkt) {
    && SameEndpoints(head, body)
    && body.ack == (head.ack + CONTINUE_LENGTH) % 0x1_0000_0000
    && head.payload != [] && body.payload != [] && |head.payload| < 0x1_0000_0000
    && body.seqNo == head.seqNo + |head.payload|
    && head.spare == 0 && head.direction != DirOutcoming
    && HasRequestTitle(head.payload) && HeadersEnd(head.payload) != -1
    && SaysContinue(head.payload) && !SaysChunked(head.payload)
    && |head.payload| + |body.payload| == HeadersEnd(head.payload) + DeclaredLength(head.payload)
  }

  /** The header segment as it waits for its body. */
  predicate Waiting(m: Msg, head: Pkt) {
    && (exists d :: m.packets == [Shifted(head).(direction := d)])
    && m.direction == DirIncoming && !m.timedOut && m.end == head.time
    && Erase(m.framing) == Learned([head.payload])
  }

  lemma ShiftedKeys(head: Pkt, body: Pkt, d: Dir)
    requires Expecting(head, body)
    ensures MessageId(Shifted(head).(direction := d)) == MessageId(Shifted(head)) == MessageId(body)
    ensures MessageId(head) != MessageId(body)
    ensures MessageId(head.(direction := d)) == MessageId(head)
  {
    hide Ip2Int, HasRequestTitle, HeadersEnd, SaysContinue, SaysChunked, DeclaredLength, BitOr;
    SameConnectionSameId(Shifted(head), body);
    SameConnectionSameId(head, body);
  }

  lemma HeadLearned(head: Pkt, body: Pkt)
    requires Expecting(head, body)
    ensures Learned([head.payload]).continue100
    ensures HasTitle(head.payload) && BodyPos([head.payload], 0) != -1
    ensures StartHint(head) == DirIncoming
  {
    hide HasRequestTitle, HasResponseTitle, HeadersEnd, SaysContinue, SaysChunked, DeclaredLength, MessageId;
  }

  /** With the header segment in front the end hint is content exactly with as many bytes as the header
      segment and the body have together. */
  lemma HeadChecked(head: Pkt, body: Pkt, fr: Framing, payloads: seq<seq<byte>>)
    requires Expecting(head, body) && payloads != [] && payloads[0] == head.payload
    requires Erase(fr) == FRESH || Erase(fr) == Learned([head.payload])
    ensures var (fr1, full) := Check(fr, payloads);
            && Erase(fr1) == Learned([head.payload]) && fr1.continue100
            && (full <==> Total(payloads) == |head.payload| + |body.payload|)
  {
    hide Check, Learned, BodyPos, Complete, HasTitle, HeadersEnd, DeclaredLength, Expecting, LengthFrom;
    var one := [head.payload];
    HeadLearned(head, body);
    FreshCheck(payloads);
    LearnedStable(one, payloads);
    LearnedFields(payloads);
    Lengths(head, body, payloads);
    CompleteByLength(payloads, 0, 0);
    CheckErased(fr, payloads);
    LearnedCheck(Learned(payloads), payloads);
    EraseContinue(Check(fr, payloads).0);
  }

  lemma EraseContinue(fr: Framing)
    ensures Erase(fr).continue100 == fr.continue100
  {}

  lemma Lengths(head: Pkt, body: Pkt, payloads: seq<seq<byte>>)
    requires Expecting(head, body) && payloads != [] && payloads[0] == head.payload
    ensures LengthFrom(payloads, 0, 0) && Total(payloads[..0]) == 0
    ensures |head.payload| + |body.payload| == HeadersEnd(head.payload) + DeclaredLength(head.payload)
    ensures body.payload != []
  {
    hide HasRequestTitle, HeadersEnd, SaysContinue, SaysChunked, DeclaredLength, MessageId;
  }

  /** The header segment arrives: nothing is sent, and it is tracked under the shifted ID alone. */
  lemma HeadArrives(st: State, head: Pkt, body: Pkt)
    requires Expecting(head, body)
    requires MessageId(head) !in st.tracked && MessageId(body) !in st.tracked
    ensures var st1 := ProcessPacket(st, head);
            var key := MessageId(body);
            && st1.tracked - {key} == st.tracked && st1.emitted == st.emitted && st1.expired == st.expired
            && key in st1.tracked && Waiting(st1.tracked[key], head)
  {
    hide *;
    var id, key := MessageId(head), MessageId(body);
    HeadLearned(head, body);
    HeadDirection(head, body);
    var p1 := if head.direction == DirUnknown then head.(direction := StartHint(head)) else head;
    ShiftedKeys(head, body, p1.direction);
    HeadHint(head, body, p1);
    NewArrival(st, head, p1);
    var m1 := Add(NewMessage(p1), p1);
    var m2 := EndHint(m1).0;
    Rekeys(st, id, NewMessage(p1), p1, m2, head, body);
  }

  lemma NewArrival(st: State, p: Pkt, p1: Pkt)
    requires MessageId(p) !in st.tracked
    requires p1 == if p.direction == DirUnknown then p.(direction := StartHint(p)) else p
    ensures ProcessPacket(st, p) == AddPacket(st, MessageId(p), NewMessage(p1), p1)
  {
    hide MessageId, StartHint, AddPacket;
  }

  /** An incomplete header segment moves from its own ID to the shifted one. */
  lemma Rekeys(st: State, id: nat, m: Msg, p: Pkt, grown: Msg, head: Pkt, body: Pkt)
    requires !HasSeq(m.packets, p.seqNo) && Add(m, p).packets != [] && EndHint(Add(m, p)) == (grown, false)
    requires grown.framing.continue100 && grown.packets == [p] && p == head.(direction := p.direction)
    requires MessageId(p) == id && MessageId(Shifted(head).(direction := p.direction)) == MessageId(body) != id
    requires id !in st.tracked && MessageId(body) !in st.tracked
    requires grown.direction == DirIncoming && !grown.timedOut && grown.end == head.time
    requires Erase(grown.framing) == Learned([head.payload])
    ensures var st1 := AddPacket(st, id, m, p);
            var key := MessageId(body);
            && st1.tracked - {key} == st.tracked && st1.emitted == st.emitted && st1.expired == st.expired
            && key in st1.tracked && Waiting(st1.tracked[key], head)
  {
    hide MessageId, HasSeq, Add, EndHint, Learned, Erase;
    assert ShiftAll(grown.packets) == [Shifted(head).(direction := p.direction)];
  }

  lemma HeadHint(head: Pkt, body: Pkt, p1: Pkt)
    requires Expecting(head, body) && p1.(direction := head.direction) == head
    ensures var m := NewMessage(p1);
            && !HasSeq(m.packets, p1.seqNo) && Add(m, p1).packets == [p1]
            && var (m2, full) := EndHint(Add(m, p1));
            && !full && m2.packets == [p1] && m2.direction == p1.direction && !m2.timedOut && m2.end == p1.time
            && Erase(m2.framing) == Learned([head.payload]) && m2.framing.continue100
  {
    hide Expecting, Check, Learned, MissingChunk, Add, Erase, Payloads;
    AddFirst(p1);
    OnePacket(p1);
    OnePayload(p1);
    HeadChecked(head, body, FRESH, [head.payload]);
    Lengths(head, body, [head.payload]);
  }

  lemma AddFirst(p: Pkt)
    ensures var m := NewMessage(p);
            && !HasSeq(m.packets, p.seqNo)
            && Add(m, p) == m.(packets := [p], length := |p.payload|, lost := p.lost, end := p.time)
  {
    assert Inserted([], p) == [p];
  }

  lemma OnePayload(p: Pkt)
    ensures Payloads([p]) == [p.payload] && Total([p.payload]) == |p.payload|
    ensures Erase(FRESH) == FRESH
  {}

  lemma HeadDirection(head: Pkt, body: Pkt)
    requires Expecting(head, body)
    ensures head.direction != DirOutcoming
  {
    hide HasRequestTitle, HeadersEnd, SaysContinue, SaysChunked, DeclaredLength, MessageId;
  }

  lemma OnePacket(p: Pkt)
    ensures !MissingChunk([p])
  {
    assert !GapFrom([p][1..], (p.seqNo + |p.payload|) % 0x1_0000_0000);
  }

  /** While a segment captured at `time` waits under `key`: other traffic, and ticks within its expiry. */
  predicate Between(cfg: Config, time: nat, key: nat, st: State, evs: seq<Event>) {
    evs == [] ||
    var before, ev := evs[..|evs| - 1], evs[|evs| - 1];
    && Between(cfg, time, key, st, before)
    && match ev
       case Arrive(p) => Aside(Run(cfg, st, before), p, key)
       case Tick(now, _) => now <= time + cfg.messageExpire
  }

  /** Whatever waits under `key` goes on waiting as it is. */
  lemma {:induction false} StillWaiting(cfg: Config, st: State, time: nat, key: nat, evs: seq<Event>)
    requires OthersKeyed(st, key) && (key in st.tracked ==> st.tracked[key].end == time)
    requires Between(cfg, time, key, st, evs)
    ensures OthersKeyed(Run(cfg, st, evs), key) && Untouched(st, Run(cfg, st, evs), key)
  {
    hide OthersKeyed, Aside, ProcessPacket, Timer, KeyOf;
    if evs != [] {
      var before, ev := evs[..|evs| - 1], evs[|evs| - 1];
      StillWaiting(cfg, st, time, key, before);
      var st1 := Run(cfg, st, before);
      OtherEvent(cfg, st1, time, key, ev);
      UntouchedChain(st, st1, Run(cfg, st, evs), key);
    }
  }

  // ----- repeats of the header segment ----------------------------------------------------------

  /** Another copy of the header segment; capture time, loss and flags do not matter. */
  predicate HeadCopy(head: Pkt, p: Pkt) {
    && SameEndpoints(head, p) && p.seqNo == head.seqNo && p.ack == head.ack && p.payload == head.payload
    && p.spare == 0 && p.direction != DirOutcoming
  }

  /** `p` opens a message of its own under the ID of the header segment. */
  predicate Reopens(head: Pkt, st: State, p: Pkt) {
    HeadCopy(head, p) && MessageId(head) !in st.tracked
  }

  /** The copy that waits: the last one that arrived. */
  function LastCopy(cfg: Config, head: Pkt, st: State, evs: seq<Event>): Pkt {
    if evs == [] then head
    else
      var before, ev := evs[..|evs| - 1], evs[|evs| - 1];
      if ev.Arrive? && Reopens(head, Run(cfg, st, before), ev.pckt) then ev.pckt
      else LastCopy(cfg, head, st, before)
  }

  /** While the header segment waits: other traffic, repeats of the segment, and ticks within the expiry
      of its last copy. */
  predicate Meanwhile(cfg: Config, head: Pkt, body: Pkt, st: State, evs: seq<Event>) {
    evs == [] ||
    var before, ev := evs[..|evs| - 1], evs[|evs| - 1];
    && Meanwhile(cfg, head, body, st, before)
    && var st1 := Run(cfg, st, before);
    match ev
    case Arrive(p) => Reopens(head, st1, p) || Aside(st1, p, MessageId(body))
    case Tick(now, _) => now <= LastCopy(cfg, head, st, before).time + cfg.messageExpire
  }

  lemma CopyExpects(head: Pkt, p: Pkt, body: Pkt)
    requires Expecting(head, body) && HeadCopy(head, p)
    ensures Expecting(p, body) && MessageId(p) == MessageId(head)
  {
    hide HasRequestTitle, HeadersEnd, SaysContinue, SaysChunked, DeclaredLength, MessageId, Ip2Int;
    SameConnectionSameId(head, p);
  }

  lemma {:induction false} LastCopyIsCopy(cfg: Config, head: Pkt, st: State, evs: seq<Event>)
    requires head.spare == 0 && head.direction != DirOutcoming
    ensures HeadCopy(head, LastCopy(cfg, head, st, evs))
  {
    hide Run, MessageId, Ip2Int;
    if evs != [] {
      LastCopyIsCopy(cfg, head, st, evs[..|evs| - 1]);
    }
  }

  /** The header segment arrives again while a copy of it waits: a new message is opened, moved over the
      old one, and waits in its place. */
  lemma HeadRepeats(st: State, prior: Pkt, head: Pkt, body: Pkt)
    requires Expecting(head, body) && prior.seqNo == head.seqNo
    requires MessageId(head) !in st.tracked
    requires MessageId(body) in st.tracked && Waiting(st.tracked[MessageId(body)], prior)
    ensures var st1 := ProcessPacket(st, head);
            var key := MessageId(body);
            && st1.tracked - {key} == st.tracked - {key} && st1.emitted == st.emitted && st1.expired == st.expired
            && key in st1.tracked && Waiting(st1.tracked[key], head)
  {
    hide *;
    var id, key := MessageId(head), MessageId(body);
    HeadLearned(head, body);
    HeadDirection(head, body);
    var p1 := if head.direction == DirUnknown then head.(direction := StartHint(head)) else head;
    ShiftedKeys(head, body, p1.direction);
    HeadHint(head, body, p1);
    NewArrival(st, head, p1);
    var m2 := EndHint(Add(NewMessage(p1), p1)).0;
    WaitingAlone(st.tracked[key], prior);
    SameDirected(head, p1);
    RekeysOver(st, id, NewMessage(p1), p1, m2, head, body);
  }

  lemma WaitingAlone(m: Msg, prior: Pkt)
    requires Waiting(m, prior)
    ensures |m.packets| == 1 && m.packets[0].seqNo == prior.seqNo
  {
    hide *;
    var d := WaitingParts(m, prior);
    SameSeq(prior, d);
  }

  lemma SameDirected(head: Pkt, p: Pkt)
    requires p == head.(direction := p.direction)
    ensures p.seqNo == head.seqNo && p.(direction := head.direction) == head
  {}

  lemma SameSeq(p: Pkt, d: Dir)
    ensures Shifted(p).(direction := d).seqNo == p.seqNo
  {}

  lemma RekeysOver(st: State, id: nat, m: Msg, p: Pkt, grown: Msg, head: Pkt, body: Pkt)
    requires !HasSeq(m.packets, p.seqNo) && Add(m, p).packets != [] && EndHint(Add(m, p)) == (grown, false)
    requires grown.framing.continue100 && grown.packets == [p] && p == head.(direction := p.direction)
    requires MessageId(p) == id && MessageId(Shifted(head).(direction := p.direction)) == MessageId(body) != id
    requires id !in st.tracked && MessageId(body) in st.tracked
    requires var next := st.tracked[MessageId(body)].packets; |next| == 1 && next[0].seqNo == p.seqNo
    requires grown.direction == DirIncoming && !grown.timedOut && grown.end == head.time
    requires Erase(grown.framing) == Learned([head.payload])
    ensures var st1 := AddPacket(st, id, m, p);
            var key := MessageId(body);
            && st1.tracked - {key} == st.tracked - {key} && st1.emitted == st.emitted && st1.expired == st.expired
            && key in st1.tracked && Waiting(st1.tracked[key], head)
  {
    hide MessageId, Add, EndHint, Learned, Erase;
    var moved := [Shifted(head).(direction := p.direction)];
    assert ShiftAll(grown.packets) == moved;
    assert moved[0].seqNo == p.seqNo;
    assert HasSeq(moved, p.seqNo);
  }

  /** Through other traffic and repeats, the last copy of the header segment waits, and nothing leaves
      under its shifted ID. */
  lemma {:induction false} WaitsOn(cfg: Config, st: State, head: Pkt, body: Pkt, evs: seq<Event>)
    requires Expecting(head, body) && OthersKeyed(st, MessageId(body))
    requires MessageId(body) in st.tracked && Waiting(st.tracked[MessageId(body)], head)
    requires Meanwhile(cfg, head, body, st, evs)
    ensures var st1 := Run(cfg, st, evs);
            var key := MessageId(body);
            && OthersKeyed(st1, key) && key in st1.tracked
            && Waiting(st1.tracked[key], LastCopy(cfg, head, st, evs))
            && NoneLeft(st.emitted, st1.emitted, key) && NoneLeft(st.expired, st1.expired, key)
  {
    hide OthersKeyed, Aside, ProcessPacket, Timer, KeyOf, Waiting, Expecting, NoneLeft, Untouched, MessageId, HeadCopy;
    var key := MessageId(body);
    if evs == [] {
      NoneLeftSelf(st, key);
    } else {
      var before, ev := evs[..|evs| - 1], evs[|evs| - 1];
      WaitsOn(cfg, st, head, body, before);
      var st1, st2 := Run(cfg, st, before), Run(cfg, st, evs);
      var waits := LastCopy(cfg, head, st, before);
      ExpectingFree(head, body);
      LastCopyIsCopy(cfg, head, st, before);
      if ev.Arrive? && Reopens(head, st1, ev.pckt) {
        CopyExpects(head, ev.pckt, body);
        CopySeq(head, ev.pckt);
        CopySeq(head, waits);
        HeadRepeats(st1, waits, ev.pckt, body);
        OthersUntouched(st1, st2, key);
      } else {
        WaitingSince(st1.tracked[key], waits);
        OtherEvent(cfg, st1, waits.time, key, ev);
        UntouchedParts(st1, st2, key);
        NoneLeftChain(st.emitted, st1.emitted, st2.emitted, key);
        NoneLeftChain(st.expired, st1.expired, st2.expired, key);
      }
    }
  }

  lemma OtherEvent(cfg: Config, st: State, time: nat, key: nat, ev: Event)
    requires OthersKeyed(st, key) && (key in st.tracked ==> st.tracked[key].end == time)
    requires match ev case Arrive(p) => Aside(st, p, key) case Tick(now, _) => now <= time + cfg.messageExpire
    ensures OthersKeyed(Step(cfg, st, ev), key) && Untouched(st, Step(cfg, st, ev), key)
  {
    hide OthersKeyed, Aside, ProcessPacket, Timer, Untouched;
    match ev {
      case Arrive(p) => OtherPacket(st, p, key);
      case Tick(now, order) => OtherTimer(cfg, st, now, order, key);
    }
  }

  lemma UntouchedParts(a: State, b: State, key: nat)
    requires Untouched(a, b, key) && key in a.tracked
    ensures key in b.tracked && b.tracked[key] == a.tracked[key]
    ensures NoneLeft(a.emitted, b.emitted, key) && NoneLeft(a.expired, b.expired, key)
  {
    hide NoneLeft;
  }

  lemma NoneLeftSelf(st: State, key: nat)
    ensures NoneLeft(st.emitted, st.emitted, key) && NoneLeft(st.expired, st.expired, key)
  {}

  lemma ExpectingFree(head: Pkt, body: Pkt)
    requires Expecting(head, body)
    ensures head.spare == 0 && head.direction != DirOutcoming
  {
    hide HasRequestTitle, HeadersEnd, SaysContinue, SaysChunked, DeclaredLength, SameEndpoints;
  }

  lemma CopySeq(head: Pkt, p: Pkt)
    requires HeadCopy(head, p)
    ensures p.seqNo == head.seqNo && p.payload == head.payload && p.ack == head.ack && SameEndpoints(head, p)
  {
    hide SameEndpoints;
  }

  /** The body arrives: one message is sent, under the shifted identity and without the Expect line. */
  lemma BodyArrives(st: State, head: Pkt, body: Pkt) returns (whole: Msg)
    requires Expecting(head, body)
    requires MessageId(body) in st.tracked && Waiting(st.tracked[MessageId(body)], head)
    ensures var st1 := ProcessPacket(st, body);
            && st1.emitted == st.emitted + [whole] && st1.tracked == st.tracked - {MessageId(body)}
            && |whole.packets| == 2
            && whole.packets[0].(direction := head.direction) == Shifted(head) && whole.packets[1] == body
            && whole.direction == DirIncoming && !whole.timedOut
            && whole.end == Later(head.time, body.time)
            && Data(whole) == WithoutExpect(head) + body.payload
            && st1.expired == st.expired
  {
    hide *;
    var key := MessageId(body);
    var m := st.tracked[key];
    var d := WaitingParts(m, head);
    ShiftedKeys(head, body, d);
    ExpectingFacts(head, body);
    BodyHint(head, body, m);
    whole := EndHint(Add(m, body)).0;
    KnownArrival(st, body);
    var first := m.packets[0];
    SameFirst(whole, first);
    SendsWhole(st, key, m, body);
    ShiftedFields(head, first);
    JoinedData(whole, first, body);
    ExpectGone(head, body);
  }

  lemma WaitingParts(m: Msg, head: Pkt) returns (d: Dir)
    requires Waiting(m, head)
    ensures m.packets == [Shifted(head).(direction := d)] && m.direction == DirIncoming && !m.timedOut
    ensures m.end == head.time
  {
    hide Learned, Shifted;
    d :| m.packets == [Shifted(head).(direction := d)];
  }

  lemma ShiftedFields(head: Pkt, first: Pkt)
    requires first == Shifted(head).(direction := first.direction)
    ensures first.(direction := head.direction) == Shifted(head)
    ensures first.payload == head.payload && first.spare == head.spare
  {}

  lemma SameFirst(m: Msg, p: Pkt)
    requires m.packets != [] && m.packets[0] == p
    ensures KeyOf(m) == MessageId(p)
  {
    hide MessageId;
  }

  lemma KnownArrival(st: State, p: Pkt)
    requires MessageId(p) in st.tracked && st.tracked[MessageId(p)].direction != DirUnknown
    ensures ProcessPacket(st, p) == AddPacket(st, MessageId(p), st.tracked[MessageId(p)], p)
  {
    hide MessageId, StartHint, AddPacket;
  }

  lemma SendsWhole(st: State, id: nat, m: Msg, p: Pkt)
    requires !HasSeq(m.packets, p.seqNo) && Add(m, p).packets != [] && EndHint(Add(m, p)).1
    requires KeyOf(EndHint(Add(m, p)).0) == id
    ensures var st1 := AddPacket(st, id, m, p);
            && st1.tracked == st.tracked - {id} && st1.emitted == st.emitted + [EndHint(Add(m, p)).0]
            && st1.expired == st.expired
  {
    hide HasSeq, Add, EndHint, KeyOf;
    var m1 := EndHint(Add(m, p)).0;
    assert st.tracked[id := m1] - {id} == st.tracked - {id};
  }

  lemma JoinedData(m: Msg, p: Pkt, q: Pkt)
    requires m.packets == [p, q] && p.spare == 0 && m.framing.continue100
    ensures Data(m) == DeleteHeader(p.payload + q.payload, EXPECT)
  {
    hide RawData, DeleteHeader, Payloads;
    RawDataIsConcat(m);
    TwoPayloads(p, q);
  }

  /** The header segment without its Expect line, LF included. */
  function WithoutExpect(head: Pkt): seq<byte> {
    match Find(head.payload, EXPECT)
    case None => head.payload
    case Some(h) =>
      if h.start <= h.end < |head.payload| then head.payload[..h.start] + head.payload[h.end + 1..] else []
  }

  /** Deleting the Expect line from the joined segments takes exactly that line out of the first. */
  lemma ExpectGone(head: Pkt, body: Pkt)
    requires Expecting(head, body)
    ensures Find(head.payload, EXPECT).Some?
    ensures var h := Find(head.payload, EXPECT).value;
            && h.start <= h.end < |head.payload|
            && WithoutExpect(head) == head.payload[..h.start] + head.payload[h.end + 1..]
    ensures DeleteHeader(head.payload + body.payload, EXPECT) == WithoutExpect(head) + body.payload
  {
    hide Find, DeleteHeader, HasRequestTitle, HeadersEnd, SaysChunked, DeclaredLength, MessageId;
    ExpectFound(head.payload);
    Paths.RequestIsTitle(head.payload);
    DeleteLonger(head.payload, body.payload, EXPECT, Find(head.payload, EXPECT).value);
  }

  lemma ExpectFound(p: seq<byte>)
    requires SaysContinue(p)
    ensures Find(p, EXPECT).Some?
  {
    hide Find, LineText, LineValue;
    assert CONTINUE != [];
  }

  lemma BodyHint(head: Pkt, body: Pkt, m: Msg)
    requires Expecting(head, body) && Waiting(m, head)
    ensures var first := m.packets[0];
            && Add(m, body).packets == [first, body] && !HasSeq(m.packets, body.seqNo)
            && var (whole, full) := EndHint(Add(m, body));
            && full
            && whole.packets == [first, body] && whole.framing.continue100
            && whole.direction == m.direction && whole.timedOut == m.timedOut
            && whole.end == Later(m.end, body.time)
  {
    hide Expecting, Check, Learned, MissingChunk, Add, Erase, Payloads, HasSeq;
    ExpectingFacts(head, body);
    var first := m.packets[0];
    AddSecond(m, body);
    TwoPackets(first, body);
    TwoPayloads(first, body);
    HeadChecked(head, body, m.framing, [head.payload, body.payload]);
  }

  lemma AddSecond(m: Msg, p: Pkt)
    requires |m.packets| == 1 && m.packets[0].seqNo < p.seqNo
    ensures Add(m, p).packets == m.packets + [p] && !HasSeq(m.packets, p.seqNo)
    ensures Add(m, p) == m.(packets := m.packets + [p], length := Add(m, p).length, lost := Add(m, p).lost,
                            end := Later(m.end, p.time))
  {
    assert m.packets[..1] + [p] + m.packets[1..] == m.packets + [p];
  }

  lemma TwoPayloads(p: Pkt, q: Pkt)
    ensures Payloads([p, q]) == [p.payload, q.payload]
    ensures Concat(Payloads([p, q])) == p.payload + q.payload
    ensures Total([p.payload, q.payload]) == |p.payload| + |q.payload|
  {
    assert Payloads([p, q]) == [p.payload, q.payload];
    assert Total([q.payload]) == |q.payload|;
    assert [p.payload, q.payload][1..] == [q.payload] && [q.payload][1..] == [];
    assert Concat([q.payload]) == q.payload + Concat([]);
  }

  lemma ExpectingFacts(head: Pkt, body: Pkt)
    requires Expecting(head, body)
    ensures body.seqNo == head.seqNo + |head.payload| && head.payload != [] && head.spare == 0
  {
    hide HasRequestTitle, HeadersEnd, SaysContinue, SaysChunked, DeclaredLength, MessageId;
  }

  lemma TwoPackets(p: Pkt, q: Pkt)
    requires q.seqNo == p.seqNo + |p.payload| && p.payload != []
    ensures !MissingChunk([p, q])
  {
    var ps := [p, q];
    assert ps[1..] == [q] && [q][1..] == [];
    assert !GapFrom([], (q.seqNo + |q.payload|) % 0x1_0000_0000);
    assert !GapFrom([q], q.seqNo);
  }

  /** The whole exchange: between other traffic, header and body of a 100-continue request are sent
      exactly once, as one message that is the original but for its Expect line, and the message shares
      its UUID with exactly those responses of its connection that start at the header's Ack plus 25. */
  lemma SentOnce(cfg: Config, st: State, head: Pkt, body: Pkt, evs: seq<Event>) returns (whole: Msg)
    requires Expecting(head, body)
    requires MessageId(head) !in st.tracked && Ready(st, MessageId(body))
    requires Meanwhile(cfg, head, body, ProcessPacket(st, head), evs)
    ensures var key := MessageId(body);
            var waiting := Run(cfg, ProcessPacket(st, head), evs);
            var last := ProcessPacket(waiting, body);
            && NoneLeft(st.emitted, waiting.emitted, key) && NoneLeft(st.expired, waiting.expired, key)
            && last.emitted == waiting.emitted + [whole] && last.expired == waiting.expired
            && Ready(last, key)
            && whole.packets != [] && KeyOf(whole) == key && whole.direction == DirIncoming
    ensures Find(head.payload, EXPECT).Some?
    ensures var h := Find(head.payload, EXPECT).value;
            && h.start <= h.end < |head.payload|
            && Data(whole) == head.payload[..h.start] + head.payload[h.end + 1..] + body.payload
    ensures forall response: Msg :: response.packets != [] && response.direction != DirIncoming ==>
              (UUID(whole) == UUID(response) <==>
               var q := response.packets[0];
               && head.srcPort == q.dstPort && head.dstPort == q.srcPort
               && Ip2Int(head.srcIP) == Ip2Int(q.dstIP)
               && q.seqNo == (head.ack + CONTINUE_LENGTH) % 0x1_0000_0000)
  {
    hide *;
    var key := MessageId(body);
    ReadyFacts(st, key);
    HeadArrives(st, head, body);
    var st1 := ProcessPacket(st, head);
    var waiting := Run(cfg, st1, evs);
    OthersBefore(st, st1, key);
    WaitsOn(cfg, st1, head, body, evs);
    ExpectingFree(head, body);
    var h := LastCopy(cfg, head, st1, evs);
    LastCopyIsCopy(cfg, head, st1, evs);
    CopyExpects(head, h, body);
    CopySeq(head, h);
    whole := BodyArrives(waiting, h, body);
    SameWithout(head, h);
    ExpectGone(head, body);
    ShiftedKeys(h, body, whole.packets[0].direction);
    DirectedBack(whole.packets[0], Shifted(h), h.direction);
    SameFirst(whole, whole.packets[0]);
    OthersAfter(waiting, ProcessPacket(waiting, body), key);
    WholePairs(whole, h);
    SamePairs(head, h);
  }

  lemma DirectedBack(p: Pkt, q: Pkt, d: Dir)
    requires p.(direction := d) == q
    ensures p == q.(direction := p.direction)
  {}

  lemma SameWithout(head: Pkt, p: Pkt)
    requires p.payload == head.payload
    ensures WithoutExpect(p) == WithoutExpect(head)
  {
    hide Find;
  }

  lemma SamePairs(head: Pkt, p: Pkt)
    requires SameEndpoints(head, p)
    ensures p.srcPort == head.srcPort && p.dstPort == head.dstPort && Ip2Int(p.srcIP) == Ip2Int(head.srcIP)
  {
    hide Ip2Int;
  }

  lemma WholePairs(request: Msg, head: Pkt)
    requires request.packets != [] && request.direction == DirIncoming
    requires request.packets[0].(direction := head.direction) == Shifted(head)
    ensures forall response: Msg :: response.packets != [] && response.direction != DirIncoming ==>
              (UUID(request) == UUID(response) <==>
               var q := response.packets[0];
               && head.srcPort == q.dstPort && head.dstPort == q.srcPort
               && Ip2Int(head.srcIP) == Ip2Int(q.dstIP)
               && q.seqNo == (head.ack + CONTINUE_LENGTH) % 0x1_0000_0000)
  {
    hide UUID, Ip2Int;
    forall response: Msg | response.packets != [] && response.direction != DirIncoming
      ensures UUID(request) == UUID(response) <==>
              var q := response.packets[0];
              && head.srcPort == q.dstPort && head.dstPort == q.srcPort
              && Ip2Int(head.srcIP) == Ip2Int(q.dstIP)
              && q.seqNo == (head.ack + CONTINUE_LENGTH) % 0x1_0000_0000
    {
      UuidPairs(request, response);
    }
  }

  lemma WaitingSince(m: Msg, head: Pkt)
    requires Waiting(m, head)
    ensures m.end == head.time
  {
    hide Learned;
  }

  lemma OthersBefore(st: State, st1: State, key: nat)
    requires Ready(st, key) && st1.tracked - {key} == st.tracked
    ensures OthersKeyed(st1, key)
  {
    hide KeyOf;
    forall k | k in st1.tracked && k != key
      ensures st1.tracked[k].packets != [] && KeyOf(st1.tracked[k]) == k
    {
      assert k in st1.tracked - {key} && (st1.tracked - {key})[k] == st1.tracked[k];
    }
  }

  lemma OthersAfter(st: State, st1: State, key: nat)
    requires OthersKeyed(st, key) && st1.tracked == st.tracked - {key}
    ensures Ready(st1, key)
  {
    hide KeyOf;
  }

  // ----- the body overtakes its header --------------------------------------------------------------

  /** A lone segment without a title is tracked and nothing leaves. */
  lemma BodyAlone(st: State, body: Pkt)
    requires !HasTitle(body.payload) && MessageId(body) !in st.tracked
    ensures var st1 := ProcessPacket(st, body);
            var key := MessageId(body);
            && st1.tracked - {key} == st.tracked && st1.emitted == st.emitted && st1.expired == st.expired
            && key in st1.tracked && st1.tracked[key].end == body.time
            && exists d :: st1.tracked[key].packets == [body.(direction := d)]
  {
    hide MessageId, StartHint, EndHint, Add, HasSeq, HasTitle;
    var p1 := if body.direction == DirUnknown then body.(direction := StartHint(body)) else body;
    NewArrival(st, body, p1);
    AddFirst(p1);
    UntitledHint(p1);
  }

  lemma UntitledHint(p: Pkt)
    requires !HasTitle(p.payload)
    ensures var m := Add(NewMessage(p), p);
            m.packets == [p] && EndHint(m) == (m, false) && !m.framing.continue100
  {
    hide HasTitle, Add, Payloads;
    AddFirst(p);
    OnePacket(p);
    OnePayload(p);
  }

  /** When the body segment overtakes its header segment, with other traffic between, the merged message
      is sent, and yet it stays tracked. */
  lemma BodyFirst(cfg: Config, st: State, head: Pkt, body: Pkt, evs: seq<Event>) returns (whole: Msg)
    requires Expecting(head, body) && !HasTitle(body.payload)
    requires MessageId(head) !in st.tracked && Ready(st, MessageId(body))
    requires Between(cfg, body.time, MessageId(body), ProcessPacket(st, body), evs)
    requires Between(cfg, body.time, MessageId(head), ProcessPacket(st, body), evs)
    ensures var key := MessageId(body);
            var waiting := Run(cfg, ProcessPacket(st, body), evs);
            var last := ProcessPacket(waiting, head);
            && NoneLeft(st.emitted, waiting.emitted, key) && NoneLeft(st.expired, waiting.expired, key)
            && last.emitted == waiting.emitted + [whole] && last.expired == waiting.expired
            && key in last.tracked && last.tracked[key] == whole && KeyOf(whole) == key
            && OthersKeyed(last, key)
            && whole.end == Later(head.time, body.time)
  {
    hide *;
    var id, key := MessageId(head), MessageId(body);
    ReadyFacts(st, key);
    BodyAlone(st, body);
    var st1 := ProcessPacket(st, body);
    var d :| st1.tracked[key].packets == [body.(direction := d)];
    ShiftedKeys(head, body, d);
    AnyDirection(head, body, d);
    DirectionIgnored(body, d);
    OthersBefore(st, st1, key);
    assert id !in st1.tracked by {
      assert id !in st1.tracked - {key};
    }
    BodyKeyed(st1, body, id, d);
    StillWaiting(cfg, st1, body.time, key, evs);
    StillWaiting(cfg, st1, body.time, id, evs);
    var st2 := Run(cfg, st1, evs);
    UntouchedFacts(st1, st2, key);
    UntouchedFacts(st1, st2, id);
    whole := HeadAfterBody(st2, head, body.(direction := d));
    OthersUntouched(st2, ProcessPacket(st2, head), key);
  }

  lemma UntouchedFacts(a: State, b: State, key: nat)
    requires Untouched(a, b, key)
    ensures (key in a.tracked <==> key in b.tracked) && (key in a.tracked ==> a.tracked[key] == b.tracked[key])
    ensures NoneLeft(a.emitted, b.emitted, key) && NoneLeft(a.expired, b.expired, key)
  {
    hide KeyOf;
  }

  lemma BodyKeyed(st: State, body: Pkt, id: nat, d: Dir)
    requires OthersKeyed(st, MessageId(body)) && MessageId(body.(direction := d)) == MessageId(body)
    requires MessageId(body) in st.tracked && st.tracked[MessageId(body)].packets == [body.(direction := d)]
    ensures OthersKeyed(st, id)
  {
    hide MessageId;
  }

  lemma HeadAfterBody(st: State, head: Pkt, body: Pkt) returns (whole: Msg)
    requires Expecting(head, body) && MessageId(head) !in st.tracked
    requires MessageId(body) in st.tracked && st.tracked[MessageId(body)].packets == [body]
    ensures var key := MessageId(body);
            var last := ProcessPacket(st, head);
            && last.emitted == st.emitted + [whole] && last.expired == st.expired
            && last.tracked - {key} == st.tracked - {key}
            && key in last.tracked && last.tracked[key] == whole && KeyOf(whole) == key
            && whole.end == Later(head.time, body.time)
  {
    hide *;
    var id, key := MessageId(head), MessageId(body);
    HeadDirection(head, body);
    HeadLearned(head, body);
    var p1 := if head.direction == DirUnknown then head.(direction := StartHint(head)) else head;
    ShiftedKeys(head, body, p1.direction);
    NewArrival(st, head, p1);
    HeadHint(head, body, p1);
    var m1 := EndHint(Add(NewMessage(p1), p1)).0;
    MovedWaits(head, p1, m1);
    WaitingSince(Rekeyed(m1), head);
    BodyHint(head, body, Rekeyed(m1));
    whole := EndHint(Add(Rekeyed(m1), body)).0;
    MergesAndStays(st, id, NewMessage(p1), p1, m1, key, body);
  }

  lemma AnyDirection(head: Pkt, body: Pkt, d: Dir)
    requires Expecting(head, body)
    ensures Expecting(head, body.(direction := d))
  {
    hide MessageId, HasRequestTitle, HeadersEnd, SaysContinue, SaysChunked, DeclaredLength, Ip2Int;
  }

  lemma MovedWaits(head: Pkt, p: Pkt, m: Msg)
    requires p == head.(direction := p.direction) && p.direction == DirIncoming
    requires m.packets == [p] && m.direction == p.direction && !m.timedOut && m.end == p.time
    requires Erase(m.framing) == Learned([head.payload])
    ensures Waiting(Rekeyed(m), head) && Rekeyed(m).packets == [Shifted(head).(direction := p.direction)]
    ensures KeyOf(Rekeyed(m)) == MessageId(Shifted(head).(direction := p.direction)) && KeyOf(m) == MessageId(p)
  {
    hide MessageId, Learned, Erase;
    assert ShiftAll(m.packets) == [Shifted(head).(direction := p.direction)];
  }

  /** The merge sends the completed message and puts it back under its key. */
  lemma MergesAndStays(st: State, id: nat, m: Msg, p: Pkt, grown: Msg, key: nat, b: Pkt)
    requires !HasSeq(m.packets, p.seqNo) && Add(m, p).packets != [] && EndHint(Add(m, p)) == (grown, false)
    requires grown.framing.continue100 && KeyOf(grown) == id && id !in st.tracked && key in st.tracked && id != key
    requires KeyOf(Rekeyed(grown)) == key && st.tracked[key].packets == [b]
    requires var moved := Rekeyed(grown);
             && !HasSeq(moved.packets, b.seqNo) && |Add(moved, b).packets| == 2 && EndHint(Add(moved, b)).1
             && Add(moved, b).packets[0] == moved.packets[0] && |moved.packets| == 1
             && EndHint(Add(moved, b)).0.packets == Add(moved, b).packets
    ensures var whole := EndHint(Add(Rekeyed(grown), b)).0;
            var last := AddPacket(st, id, m, p);
            && last.emitted == st.emitted + [whole] && last.expired == st.expired
            && last.tracked - {key} == st.tracked - {key}
            && key in last.tracked && last.tracked[key] == whole && KeyOf(whole) == key
  {
    hide MessageId, HasSeq, Add, EndHint, Rekeyed;
  }

  // ----- exactly once, exactly if the header comes first ----------------------------------------------

  /** How many messages with ID `key` are among `ms`. */
  function Count(ms: seq<Msg>, key: nat): nat {
    if ms == [] then 0 else Count(ms[..|ms| - 1], key) + if KeyOf(ms[|ms| - 1]) == key then 1 else 0
  }

  /** How often a message with ID `key` left the parser, sent or dropped. */
  function Departures(st: State, key: nat): nat {
    Count(st.emitted, key) + Count(st.expired, key)
  }

  lemma CountPush(ms: seq<Msg>, m: Msg, key: nat)
    ensures Count(ms + [m], key) == Count(ms, key) + if KeyOf(m) == key then 1 else 0
  {
    hide KeyOf;
    assert (ms + [m])[..|ms|] == ms;
  }

  lemma {:induction false} CountNone(a: seq<Msg>, b: seq<Msg>, key: nat)
    requires NoneLeft(a, b, key)
    ensures Count(b, key) == Count(a, key)
    decreases |b|
  {
    hide KeyOf;
    if |b| > |a| {
      var front := b[..|b| - 1];
      assert forall i :: 0 <= i < |front| ==> front[i] == b[i];
      CountNone(a, front, key);
    } else {
      assert a == b;
    }
  }

  lemma UntouchedDepartures(a: State, b: State, key: nat)
    requires NoneLeft(a.emitted, b.emitted, key) && NoneLeft(a.expired, b.expired, key)
    ensures Departures(b, key) == Departures(a, key)
  {
    hide Count, NoneLeft;
    CountNone(a.emitted, b.emitted, key);
    CountNone(a.expired, b.expired, key);
  }

  /** An entry is only touched by its own turn in the tick. */
  lemma OtherTurn(cfg: Config, st: State, now: nat, entry: nat, key: nat)
    requires OthersKeyed(st, key) && entry != key
    ensures OthersKeyed(TimeOut(cfg, st, now, entry), key) && Untouched(st, TimeOut(cfg, st, now, entry), key)
  {
    hide Overdue, MessageId;
  }

  lemma OwnTurn(cfg: Config, st: State, now: nat, key: nat)
    requires OthersKeyed(st, key) && key in st.tracked && KeyOf(st.tracked[key]) == key
    requires Overdue(cfg, st.tracked[key], now)
    ensures var st1 := TimeOut(cfg, st, now, key);
            Ready(st1, key) && Departures(st1, key) == Departures(st, key) + 1
  {
    hide Overdue, MessageId, Count;
    var m := st.tracked[key].(timedOut := true);
    CountPush(st.emitted, m, key);
    CountPush(st.expired, m, key);
  }

  /** A tick that comes to an overdue message makes it leave, once. */
  lemma {:induction false} TimerTurns(cfg: Config, st: State, now: nat, order: seq<nat>, key: nat)
    requires OthersKeyed(st, key) && key in st.tracked && KeyOf(st.tracked[key]) == key
    requires Overdue(cfg, st.tracked[key], now)
    ensures var st1 := Timer(cfg, st, now, order);
            && OthersKeyed(st1, key)
            && (key in order ==> key !in st1.tracked && Departures(st1, key) == Departures(st, key) + 1)
            && (key !in order ==> key in st1.tracked && st1.tracked[key] == st.tracked[key]
                                  && Departures(st1, key) == Departures(st, key))
  {
    hide OthersKeyed, TimeOut, Overdue, KeyOf, Departures, Untouched;
    if order != [] {
      var before, entry := order[..|order| - 1], order[|order| - 1];
      TimerTurns(cfg, st, now, before, key);
      var st1 := Timer(cfg, st, now, before);
      var st2 := TimeOut(cfg, st1, now, entry);
      assert key in order <==> key in before || key == entry;
      if key in before {
        OtherTimeOut(cfg, st1, now, entry, key);
        UntouchedFacts(st1, st2, key);
        UntouchedDepartures(st1, st2, key);
      } else if entry == key {
        OwnTurn(cfg, st1, now, key);
        ReadyFacts(st2, key);
      } else {
        OtherTurn(cfg, st1, now, entry, key);
        UntouchedFacts(st1, st2, key);
        UntouchedDepartures(st1, st2, key);
      }
    }
  }

  lemma ReadyFacts(st: State, key: nat)
    requires Ready(st, key)
    ensures key !in st.tracked && OthersKeyed(st, key)
  {
    hide OthersKeyed;
  }

  /** The two segments in either order, with other traffic between, and then a tick that finds the
      message overdue. */
  function Exchange(cfg: Config, st: State, first: Pkt, evs: seq<Event>, second: Pkt, now: nat, order: seq<nat>)
    : State
  {
    Timer(cfg, ProcessPacket(Run(cfg, ProcessPacket(st, first), evs), second), now, order)
  }

  /** The message leaves exactly once if and only if the header segment arrives first; otherwise it
      leaves twice. */
  lemma OnceIfHeadFirst(cfg: Config, st: State, head: Pkt, body: Pkt, headFirst: bool, evs: seq<Event>,
                        now: nat, order: seq<nat>)
    requires Expecting(head, body) && !HasTitle(body.payload)
    requires MessageId(head) !in st.tracked && Ready(st, MessageId(body))
    requires if headFirst then Meanwhile(cfg, head, body, ProcessPacket(st, head), evs)
             else Between(cfg, body.time, MessageId(body), ProcessPacket(st, body), evs)
                  && Between(cfg, body.time, MessageId(head), ProcessPacket(st, body), evs)
    requires MessageId(body) in order && now > Later(head.time, body.time) + cfg.messageExpire
    ensures var key := MessageId(body);
            var last := if headFirst then Exchange(cfg, st, head, evs, body, now, order)
                        else Exchange(cfg, st, body, evs, head, now, order);
            && Departures(last, key) == Departures(st, key) + (if headFirst then 1 else 2)
            && key !in last.tracked
  {
    hide *;
    var key := MessageId(body);
    if headFirst {
      var whole := SentOnce(cfg, st, head, body, evs);
      var waiting := Run(cfg, ProcessPacket(st, head), evs);
      var sent := ProcessPacket(waiting, body);
      UntouchedDepartures(st, waiting, key);
      DepartsOnce(waiting, sent, whole, key);
      ReadyFacts(sent, key);
      OtherTimer(cfg, sent, now, order, key);
      var last := Timer(cfg, sent, now, order);
      UntouchedFacts(sent, last, key);
      UntouchedDepartures(sent, last, key);
      ExchangeIs(cfg, st, head, evs, body, now, order);
    } else {
      var whole := BodyFirst(cfg, st, head, body, evs);
      var waiting := Run(cfg, ProcessPacket(st, body), evs);
      var sent := ProcessPacket(waiting, head);
      UntouchedDepartures(st, waiting, key);
      DepartsOnce(waiting, sent, whole, key);
      OverdueBy(cfg, whole, now);
      TimerTurns(cfg, sent, now, order, key);
      ExchangeIs(cfg, st, body, evs, head, now, order);
    }
  }

  lemma ExchangeIs(cfg: Config, st: State, first: Pkt, evs: seq<Event>, second: Pkt, now: nat, order: seq<nat>)
    ensures Exchange(cfg, st, first, evs, second, now, order)
         == Timer(cfg, ProcessPacket(Run(cfg, ProcessPacket(st, first), evs), second), now, order)
  {
    hide Timer, ProcessPacket, Run;
  }

  lemma DepartsOnce(a: State, b: State, m: Msg, key: nat)
    requires b.emitted == a.emitted + [m] && b.expired == a.expired && KeyOf(m) == key
    ensures Departures(b, key) == Departures(a, key) + 1
  {
    hide KeyOf, Count;
    CountPush(a.emitted, m, key);
  }

  lemma OverdueBy(cfg: Config, m: Msg, now: nat)
    requires now > m.end + cfg.messageExpire
    ensures Overdue(cfg, m, now)
  {}
}
