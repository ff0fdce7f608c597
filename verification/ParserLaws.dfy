/** What every run of the message parser keeps, and that it loses and doubles no packet. */
module ParserLaws {
  import opened Bytes
  import opened Packets
  import opened Titles
  import opened FullPayload
  import opened Messages
  import opened MessageLaws
  import opened Parser

  /** A run in which `Fix100Continue` never moves a message: none asks for a 100-continue while it is
      incomplete. */
  predicate QuietRun(cfg: Config, st: State, evs: seq<Event>) {
    evs == [] ||
    var before, ev := evs[..|evs| - 1], evs[|evs| - 1];
    QuietRun(cfg, st, before) && (ev.Arrive? ==> !Shifts(Run(cfg, st, before), ev.pckt))
  }

  /** A message under the key `key`: it has packets, strictly ascending, all of them with that ID. */
  predicate Good(key: nat, m: Msg) {
    && m.packets != []
    && Sorted(m.packets)
    && Accounted(m)
    && (forall i :: 0 <= i < |m.packets| ==> MessageId(m.packets[i]) == key)
  }

  predicate Inv(st: State) {
    && (forall k :: k in st.tracked ==> Good(k, st.tracked[k]) && !st.tracked[k].timedOut)
    && (forall i :: 0 <= i < |st.emitted| ==> Good(KeyOf(st.emitted[i]), st.emitted[i]))
    && (forall i :: 0 <= i < |st.emitted| && !st.emitted[i].timedOut ==> !MissingChunk(st.emitted[i].packets))
    && (forall i :: 0 <= i < |st.expired| ==> Good(KeyOf(st.expired[i]), st.expired[i]))
  }

  /** What `addPacket` does with a packet that is no duplicate, on a message that is good or new and is
      not moved: the grown message is sent and forgotten, or stored under its own key. */
  lemma AddPacketOutcome(st: State, id: nat, m: Msg, p: Pkt) returns (grown: Msg, full: bool)
    requires !AddShifts(m, p) && MessageId(p) == id && !m.timedOut && !HasSeq(m.packets, p.seqNo)
    requires if m.packets == [] then m == NewMessage(p) else Good(id, m)
    ensures Good(id, grown) && !grown.timedOut && KeyOf(grown) == id
    ensures grown.packets != [] && grown.packets == Add(m, p).packets && (full ==> !MissingChunk(grown.packets))
    ensures AddPacket(st, id, m, p)
         == if full then st.(tracked := st.tracked[id := grown] - {id}, emitted := st.emitted + [grown])
            else st.(tracked := st.tracked[id := grown])
  {
    hide Good, MissingChunk, HasSeq, EndHint, MessageId, Add, KeyOf;
    AddGood(id, m, p);
    EndHintGood(id, Add(m, p));
    grown, full := EndHint(Add(m, p)).0, EndHint(Add(m, p)).1;
    GoodFields(id, grown);
  }

  lemma AddPacketSkips(st: State, id: nat, m: Msg, p: Pkt)
    requires HasSeq(m.packets, p.seqNo)
    ensures m.packets != []
    ensures AddPacket(st, id, m, p) == st.(tracked := st.tracked[id := m], duplicates := st.duplicates + [p])
  {
    hide EndHint, Add;
  }

  lemma AddPacketKeeps(st: State, id: nat, m: Msg, p: Pkt)
    requires Inv(st) && !AddShifts(m, p) && MessageId(p) == id
    requires if m.packets == [] then m == NewMessage(p) else Good(id, m)
    requires !m.timedOut
    ensures Inv(AddPacket(st, id, m, p))
  {
    hide Good, MissingChunk, HasSeq, AddPacket, AddShifts, MessageId, Add, KeyOf;
    if HasSeq(m.packets, p.seqNo) {
      AddPacketSkips(st, id, m, p);
    } else {
      var grown, full := AddPacketOutcome(st, id, m, p);
    }
  }

  lemma HasPackets(m: Msg, p: Pkt)
    requires HasSeq(m.packets, p.seqNo)
    ensures m.packets != []
  {}

  lemma GoodFields(key: nat, m: Msg)
    requires Good(key, m)
    ensures m.packets != [] && KeyOf(m) == key
  {
    hide MessageId, Sorted, Accounted;
  }

  lemma EndHintGood(id: nat, m: Msg)
    requires Good(id, m)
    ensures m.packets != []
    ensures var (m1, full) := EndHint(m);
            Good(id, m1) && m1 == m.(framing := m1.framing) && (full ==> !MissingChunk(m1.packets))
  {
    hide Check, MissingChunk, MessageId, Sorted;
  }

  lemma AddGood(id: nat, m: Msg, p: Pkt)
    requires MessageId(p) == id && !HasSeq(m.packets, p.seqNo)
    requires if m.packets == [] then m == NewMessage(p) else Good(id, m)
    ensures Good(id, Add(m, p)) && Add(m, p).timedOut == m.timedOut
  {
    hide MessageId, Sorted, Accounted;
    if m.packets == [] {
      NewAccounted(m);
    }
    AddKeeps(m, p);
    var ps := Add(m, p).packets;
    HasPackets(Add(m, p), p);
    forall i | 0 <= i < |ps|
      ensures MessageId(ps[i]) == id
    {
      assert ps[i] in ps;
    }
  }

  lemma NewAccounted(m: Msg)
    requires m.packets == [] && m.length == m.lost == m.end == 0
    ensures Accounted(m) && Sorted(m.packets)
  {}

  // ----- every run ----------------------------------------------------------------------------

  lemma MarkedGood(key: nat, m: Msg, d: Dir, late: bool)
    requires Good(key, m)
    ensures Good(key, m.(direction := d)) && Good(key, m.(timedOut := late))
    ensures KeyOf(m.(timedOut := late)) == KeyOf(m)
  {
    hide MessageId, Sorted, SumLength, SumLost, MaxTime;
  }

  lemma DirectionIgnored(p: Pkt, d: Dir)
    ensures MessageId(p.(direction := d)) == MessageId(p)
  {
    hide BitOr, Ip2Int;
  }

  lemma ProcessPacketKeeps(st: State, p: Pkt)
    requires Inv(st) && !Shifts(st, p)
    ensures Inv(ProcessPacket(st, p))
  {
    hide Inv, Good, MessageId, AddPacket, AddShifts, StartHint;
    var id := MessageId(p);
    if id in st.tracked {
      var m := st.tracked[id];
      TrackedGood(st, id);
      MarkedGood(id, m, StartHint(p), false);
      var m1 := if m.direction == DirUnknown then m.(direction := StartHint(p)) else m;
      GoodFields(id, m1);
      AddPacketKeeps(st, id, m1, p);
    } else {
      DirectionIgnored(p, StartHint(p));
      var p1 := if p.direction == DirUnknown then p.(direction := StartHint(p)) else p;
      AddPacketKeeps(st, id, NewMessage(p1), p1);
    }
  }

  lemma TrackedGood(st: State, key: nat)
    requires Inv(st) && key in st.tracked
    ensures Good(key, st.tracked[key]) && !st.tracked[key].timedOut
  {
    hide Good, KeyOf;
  }

  lemma TimeOutKeeps(cfg: Config, st: State, now: nat, key: nat)
    requires Inv(st)
    ensures Inv(TimeOut(cfg, st, now, key))
  {
    hide Good, KeyOf, MissingChunk, Overdue;
    if key in st.tracked && Overdue(cfg, st.tracked[key], now) {
      var m := st.tracked[key];
      MarkedGood(key, m, m.direction, true);
      GoodFields(key, m.(timedOut := true));
    }
  }

  lemma {:induction false} TimerKeeps(cfg: Config, st: State, now: nat, order: seq<nat>)
    requires Inv(st)
    ensures Inv(Timer(cfg, st, now, order))
  {
    hide Inv, TimeOut;
    if order != [] {
      var before := order[..|order| - 1];
      TimerKeeps(cfg, st, now, before);
      TimeOutKeeps(cfg, Timer(cfg, st, now, before), now, order[|order| - 1]);
    }
  }

  /** In every run in which no incomplete message asks for a 100-continue: each tracked message has
      packets, strictly ascending, all with the ID it is tracked under; so had each message that left,
      and each message sent in time had no gap. */
  lemma {:induction false} RunKeeps(cfg: Config, evs: seq<Event>)
    requires QuietRun(cfg, INIT, evs)
    ensures Inv(Run(cfg, INIT, evs))
  {
    hide Inv, ProcessPacket, Timer, Shifts;
    if evs == [] {
      InitInv();
    } else {
      var before, ev := evs[..|evs| - 1], evs[|evs| - 1];
      RunKeeps(cfg, before);
      match ev
      case Arrive(p) => ProcessPacketKeeps(Run(cfg, INIT, before), p);
      case Tick(now, order) => TimerKeeps(cfg, Run(cfg, INIT, before), now, order);
    }
  }

  lemma InitInv()
    ensures Inv(INIT)
  {}

  // ----- nothing lost, nothing doubled ------------------------------------------------------------

  /** A packet apart from the direction mark the parser puts on the first of a message. */
  function Core(p: Pkt): Pkt {
    p.(direction := DirUnknown)
  }

  function Bag(ps: seq<Pkt>): multiset<Pkt> {
    if ps == [] then multiset{} else multiset{Core(ps[0])} + Bag(ps[1..])
  }

  /** The packets of the messages with key `key`. */
  function BagOf(ms: seq<Msg>, key: nat): multiset<Pkt> {
    if ms == [] then multiset{}
    else BagOf(ms[..|ms| - 1], key)
         + (if KeyOf(ms[|ms| - 1]) == key then Bag(ms[|ms| - 1].packets) else multiset{})
  }

  function Skipped(ps: seq<Pkt>, key: nat): multiset<Pkt> {
    if ps == [] then multiset{}
    else Skipped(ps[..|ps| - 1], key)
         + (if MessageId(ps[|ps| - 1]) == key then multiset{Core(ps[|ps| - 1])} else multiset{})
  }

  /** Every packet with ID `key` the state accounts for: tracked, emitted, expired or duplicate. */
  function Held(st: State, key: nat): multiset<Pkt> {
    (if key in st.tracked then Bag(st.tracked[key].packets) else multiset{})
    + BagOf(st.emitted, key) + BagOf(st.expired, key) + Skipped(st.duplicates, key)
  }

  function Arrived(evs: seq<Event>, key: nat): multiset<Pkt> {
    if evs == [] then multiset{}
    else
      var ev := evs[|evs| - 1];
      Arrived(evs[..|evs| - 1], key)
      + (if ev.Arrive? && MessageId(ev.pckt) == key then multiset{Core(ev.pckt)} else multiset{})
  }

  lemma {:induction false} BagSplit(a: seq<Pkt>, p: Pkt, b: seq<Pkt>)
    ensures Bag(a + [p] + b) == Bag(a + b) + multiset{Core(p)}
  {
    if a == [] {
      assert a + [p] + b == [p] + b && a + b == b && ([p] + b)[1..] == b;
    } else {
      assert (a + [p] + b)[1..] == a[1..] + [p] + b && (a + b)[1..] == a[1..] + b;
      BagSplit(a[1..], p, b);
    }
  }

  lemma BagAdd(m: Msg, p: Pkt)
    requires !HasSeq(m.packets, p.seqNo)
    ensures Bag(Add(m, p).packets) == Bag(m.packets) + multiset{Core(p)}
  {
    hide HasSeq, Place, Bag;
    var k := Place(m.packets, p.seqNo);
    BagSplit(m.packets[..k], p, m.packets[k..]);
    assert m.packets[..k] + m.packets[k..] == m.packets;
  }

  lemma BagOfPush(ms: seq<Msg>, m: Msg, key: nat)
    ensures BagOf(ms + [m], key) == BagOf(ms, key) + (if KeyOf(m) == key then Bag(m.packets) else multiset{})
  {
    hide KeyOf, Bag;
    assert (ms + [m])[..|ms|] == ms;
  }

  lemma SkippedPush(ps: seq<Pkt>, p: Pkt, key: nat)
    ensures Skipped(ps + [p], key) == Skipped(ps, key) + (if MessageId(p) == key then multiset{Core(p)} else multiset{})
  {
    hide MessageId, Core;
    assert (ps + [p])[..|ps|] == ps;
  }

  /** `addPacket` accounts for the packet it is given, and for nothing else. */
  lemma AddPacketConserves(st: State, id: nat, m: Msg, p: Pkt, key: nat)
    requires Inv(st) && !AddShifts(m, p) && MessageId(p) == id && !m.timedOut
    requires if m.packets == [] then m == NewMessage(p) && id !in st.tracked
             else Good(id, m) && id in st.tracked && m.packets == st.tracked[id].packets
    ensures Held(AddPacket(st, id, m, p), key)
         == Held(st, key) + (if id == key then multiset{Core(p)} else multiset{})
  {
    hide Inv, Good, MessageId, AddPacket, AddShifts, KeyOf, Bag, BagOf, Skipped, HasSeq, Add, Core, MissingChunk;
    if HasSeq(m.packets, p.seqNo) {
      AddPacketSkips(st, id, m, p);
      SkippedPush(st.duplicates, p, key);
    } else {
      BagAdd(m, p);
      EmptyBag(m);
      var grown, full := AddPacketOutcome(st, id, m, p);
      BagOfPush(st.emitted, grown, key);
    }
  }

  lemma EmptyBag(m: Msg)
    ensures m.packets == [] ==> Bag(m.packets) == multiset{}
  {}

  lemma ProcessPacketConserves(st: State, p: Pkt, key: nat)
    requires Inv(st) && !Shifts(st, p)
    ensures Held(ProcessPacket(st, p), key)
         == Held(st, key) + (if MessageId(p) == key then multiset{Core(p)} else multiset{})
  {
    hide Inv, Good, MessageId, AddPacket, AddShifts, StartHint, Held;
    var id := MessageId(p);
    if id in st.tracked {
      var m := st.tracked[id];
      TrackedGood(st, id);
      MarkedGood(id, m, StartHint(p), false);
      var m1 := if m.direction == DirUnknown then m.(direction := StartHint(p)) else m;
      GoodFields(id, m1);
      AddPacketConserves(st, id, m1, p, key);
    } else {
      DirectionIgnored(p, StartHint(p));
      var p1 := if p.direction == DirUnknown then p.(direction := StartHint(p)) else p;
      AddPacketConserves(st, id, NewMessage(p1), p1, key);
    }
  }

  lemma TimeOutConserves(cfg: Config, st: State, now: nat, entry: nat, key: nat)
    requires Inv(st)
    ensures Held(TimeOut(cfg, st, now, entry), key) == Held(st, key)
  {
    hide Inv, Good, KeyOf, Bag, BagOf, Skipped, Overdue;
    if entry in st.tracked && Overdue(cfg, st.tracked[entry], now) {
      TrackedGood(st, entry);
      var m := st.tracked[entry];
      MarkedGood(entry, m, m.direction, true);
      GoodFields(entry, m.(timedOut := true));
      BagOfPush(st.emitted, m.(timedOut := true), key);
      BagOfPush(st.expired, m.(timedOut := true), key);
    }
  }

  lemma {:induction false} TimerConserves(cfg: Config, st: State, now: nat, order: seq<nat>, key: nat)
    requires Inv(st)
    ensures Held(Timer(cfg, st, now, order), key) == Held(st, key)
  {
    hide Inv, TimeOut, Held;
    if order != [] {
      var before := order[..|order| - 1];
      TimerConserves(cfg, st, now, before, key);
      TimerKeeps(cfg, st, now, before);
      TimeOutConserves(cfg, Timer(cfg, st, now, before), now, order[|order| - 1], key);
    }
  }

  /** Conservation: in every such run each packet that arrived is, counted with
      multiplicity, in exactly one place: tracked, emitted, expired or skipped as a duplicate. */
  lemma {:induction false} RunConserves(cfg: Config, evs: seq<Event>, key: nat)
    requires QuietRun(cfg, INIT, evs)
    ensures Held(Run(cfg, INIT, evs), key) == Arrived(evs, key)
  {
    hide Inv, ProcessPacket, Timer, Shifts, Held, MessageId, Core;
    if evs == [] {
      InitHeld(key);
    } else {
      var before, ev := evs[..|evs| - 1], evs[|evs| - 1];
      RunConserves(cfg, before, key);
      RunKeeps(cfg, before);
      match ev
      case Arrive(p) => ProcessPacketConserves(Run(cfg, INIT, before), p, key);
      case Tick(now, order) => TimerConserves(cfg, Run(cfg, INIT, before), now, order, key);
    }
  }

  lemma InitHeld(key: nat)
    ensures Held(INIT, key) == multiset{}
  {}

  // ----- runs without Expect lines are quiet ----------------------------------------------------

  /** A payload without an `Expect: 100-continue` line. */
  predicate Calm(p: Pkt) {
    !SaysContinue(p.payload)
  }

  predicate CalmEvents(evs: seq<Event>) {
    forall i :: 0 <= i < |evs| && evs[i].Arrive? ==> Calm(evs[i].pckt)
  }

  predicate CalmMessage(m: Msg) {
    !m.framing.continue100 && forall i :: 0 <= i < |m.packets| ==> Calm(m.packets[i])
  }

  predicate CalmState(st: State) {
    forall k :: k in st.tracked ==> CalmMessage(st.tracked[k])
  }

  lemma {:induction false} ParseCalm(st: Framing, payloads: seq<seq<byte>>, pos: nat)
    requires !st.continue100 && forall i :: 0 <= i < |payloads| ==> !SaysContinue(payloads[i])
    ensures !ParseHeaders(st, payloads, pos).continue100
    decreases |payloads|
  {
    hide SaysContinue, SaysChunked, DeclaredLength;
    if payloads != [] {
      ParseCalm(ReadHeaders(st, payloads[0]), payloads[1..], pos + |payloads[0]|);
    }
  }

  lemma CheckCalm(st: Framing, payloads: seq<seq<byte>>)
    requires !st.continue100 && forall i :: 0 <= i < |payloads| ==> !SaysContinue(payloads[i])
    ensures !Check(st, payloads).0.continue100
  {
    hide SaysContinue, HasTitle, HeadersStart, BodyPos, ParseHeaders, Complete;
    if payloads != [] {
      ParseCalm(LocateBody(LocateStart(st, payloads), payloads), payloads, 0);
    }
  }

  lemma EndHintCalm(m: Msg)
    requires m.packets != [] && CalmMessage(m)
    ensures CalmMessage(EndHint(m).0)
  {
    hide Check, SaysContinue, MissingChunk;
    CheckCalm(m.framing, Payloads(m.packets));
  }

  lemma AddCalm(m: Msg, p: Pkt)
    requires CalmMessage(m) && Calm(p)
    ensures CalmMessage(Add(m, p))
  {
    hide Calm, Place;
  }

  lemma JoiningCalm(st: State, p: Pkt)
    requires CalmState(st) && Calm(p)
    ensures CalmMessage(Joining(st, p).0) && Calm(Joining(st, p).1)
  {
    hide SaysContinue, MessageId, StartHint;
  }

  /** A calm packet on a calm state moves nothing, so it triggers no merge either. */
  lemma CalmPacket(st: State, p: Pkt)
    requires CalmState(st) && Calm(p)
    ensures CalmState(ProcessPacket(st, p)) && !Shifts(st, p) && !ProcessMerges(st, p)
  {
    hide CalmMessage, Calm, MessageId, Joining, Add, HasSeq, EndHint, KeyOf;
    JoiningCalm(st, p);
    var (m, p1) := Joining(st, p);
    AddCalm(m, p1);
    if !HasSeq(m.packets, p1.seqNo) {
      HasPackets(Add(m, p1), p1) by { SeqAdded(m, p1); }
      EndHintCalm(Add(m, p1));
      CalmFraming(EndHint(Add(m, p1)).0);
    }
    if ProcessMerges(st, p) {
      MergeShifts(st, p);
    }
  }

  lemma CalmFraming(m: Msg)
    requires CalmMessage(m)
    ensures !m.framing.continue100
  {}

  lemma SeqAdded(m: Msg, p: Pkt)
    ensures HasSeq(Add(m, p).packets, p.seqNo)
  {
    hide Place;
    if !HasSeq(m.packets, p.seqNo) {
      assert Add(m, p).packets[Place(m.packets, p.seqNo)] == p;
    }
  }

  lemma {:induction false} CalmTimer(cfg: Config, st: State, now: nat, order: seq<nat>)
    requires CalmState(st)
    ensures CalmState(Timer(cfg, st, now, order))
  {
    hide CalmMessage, Overdue, KeyOf;
    if order != [] {
      CalmTimer(cfg, st, now, order[..|order| - 1]);
    }
  }

  /** A run of packets without Expect lines is quiet, whatever the ticks do. */
  lemma {:induction false} CalmIsQuiet(cfg: Config, evs: seq<Event>)
    requires CalmEvents(evs)
    ensures QuietRun(cfg, INIT, evs) && CalmState(Run(cfg, INIT, evs))
  {
    hide CalmState, Calm, ProcessPacket, Timer, Shifts;
    if evs == [] {
      assert CalmState(INIT) by { InitCalm(); }
    } else {
      var before, ev := evs[..|evs| - 1], evs[|evs| - 1];
      CalmIsQuiet(cfg, before);
      match ev
      case Arrive(p) => CalmPacket(Run(cfg, INIT, before), p);
      case Tick(now, order) => CalmTimer(cfg, Run(cfg, INIT, before), now, order);
    }
  }

  lemma InitCalm()
    ensures CalmState(INIT)
  {}
}
