/** When messages begin and how they end: by which packet they were opened, and what a tick does with those
    that are overdue. */
module Lifetimes {
  import opened Bytes
  import opened Packets
  import opened Titles
  import opened Messages
  import opened Parser
  import opened ParserLaws
  import opened ShiftLaws

  // ----- one tick -----------------------------------------------------------------------------------

  /** The messages that are overdue at `now`, in the order in which the tick comes to them, marked. */
  function Late(cfg: Config, tracked: map<nat, Msg>, now: nat, order: seq<nat>): seq<Msg>
    requires forall i :: 0 <= i < |order| ==> order[i] in tracked
  {
    if order == [] then []
    else
      var m := tracked[order[|order| - 1]];
      Late(cfg, tracked, now, order[..|order| - 1])
      + if now > m.end + cfg.messageExpire then [m.(timedOut := true)] else []
  }

  /** The keys of the map, each once. */
  predicate Ranges(order: seq<nat>, tracked: map<nat, Msg>) {
    && (forall i :: 0 <= i < |order| ==> order[i] in tracked)
    && (forall i, j :: 0 <= i < j < |order| ==> order[i] != order[j])
    && (forall k :: k in tracked ==> k in order)
  }

  /** A tick that ranges over the map forgets exactly the messages whose last packet is longer ago than the
      expiry. It sends them, marked, if incomplete messages are allowed, and drops them otherwise. */
  lemma TickMeans(cfg: Config, st: State, now: nat, order: seq<nat>)
    requires SoundState(st) && Ranges(order, st.tracked)
    ensures var st1 := Timer(cfg, st, now, order);
            var late := Late(cfg, st.tracked, now, order);
            && st1.tracked == (map k | k in st.tracked && now <= st.tracked[k].end + cfg.messageExpire :: st.tracked[k])
            && st1.duplicates == st.duplicates
            && (cfg.allowIncomplete ==> st1.emitted == st.emitted + late && st1.expired == st.expired)
            && (!cfg.allowIncomplete ==> st1.emitted == st.emitted && st1.expired == st.expired + late)
  {
    hide SoundState, Late, Timer;
    TickSoFar(cfg, st, now, order);
    assert forall k :: k in st.tracked ==> k in order;
  }

  /** The same for the keys the tick has come to. */
  lemma {:induction false} TickSoFar(cfg: Config, st: State, now: nat, order: seq<nat>)
    requires SoundState(st) && forall i :: 0 <= i < |order| ==> order[i] in st.tracked
    requires forall i, j :: 0 <= i < j < |order| ==> order[i] != order[j]
    ensures var st1 := Timer(cfg, st, now, order);
            var late := Late(cfg, st.tracked, now, order);
            && st1.tracked
               == (map k | k in st.tracked && (k in order ==> now <= st.tracked[k].end + cfg.messageExpire)
                     :: st.tracked[k])
            && st1.duplicates == st.duplicates
            && (cfg.allowIncomplete ==> st1.emitted == st.emitted + late && st1.expired == st.expired)
            && (!cfg.allowIncomplete ==> st1.emitted == st.emitted && st1.expired == st.expired + late)
  {
    hide SoundState, KeyOf;
    if order != [] {
      var before, key := order[..|order| - 1], order[|order| - 1];
      TickSoFar(cfg, st, now, before);
      var st1 := Timer(cfg, st, now, before);
      assert key !in before;
      TrackedSound(st, key);
      SoundKey(key, st.tracked[key]);
      TimedOutKey(st.tracked[key]);
      assert forall k :: k in order <==> k in before || k == key;
      OneTurn(cfg, st1, now, key);
    }
  }

  lemma TimedOutKey(m: Msg)
    requires m.packets != []
    ensures KeyOf(m.(timedOut := true)) == KeyOf(m)
  {
    hide MessageId;
  }

  /** One entry of the tick. */
  lemma OneTurn(cfg: Config, st: State, now: nat, key: nat)
    requires key in st.tracked && st.tracked[key].packets != [] && KeyOf(st.tracked[key].(timedOut := true)) == key
    ensures var m := st.tracked[key];
            var st1 := TimeOut(cfg, st, now, key);
            && (now <= m.end + cfg.messageExpire ==> st1 == st)
            && (now > m.end + cfg.messageExpire && cfg.allowIncomplete ==>
                  st1 == st.(tracked := st.tracked - {key}, emitted := st.emitted + [m.(timedOut := true)]))
            && (now > m.end + cfg.messageExpire && !cfg.allowIncomplete ==>
                  st1 == st.(tracked := st.tracked - {key}, expired := st.expired + [m.(timedOut := true)]))
  {
    hide KeyOf;
    assert st.tracked - {key} - {key} == st.tracked - {key};
  }

  // ----- every run ------------------------------------------------------------------------------------

  /** What is tracked is not marked; what is dropped is. What is marked was sent only if incomplete
      messages are allowed, and nothing is dropped if they are. */
  predicate Ended(cfg: Config, st: State) {
    && (forall k :: k in st.tracked ==> !st.tracked[k].timedOut)
    && (forall i :: 0 <= i < |st.expired| ==> st.expired[i].timedOut)
    && (!cfg.allowIncomplete ==> forall i :: 0 <= i < |st.emitted| ==> !st.emitted[i].timedOut)
    && (cfg.allowIncomplete ==> st.expired == [])
  }

  lemma AddUnmarked(m: Msg, p: Pkt)
    ensures Add(m, p).timedOut == m.timedOut
  {}

  lemma HintUnmarked(m: Msg)
    requires m.packets != []
    ensures EndHint(m).0.timedOut == m.timedOut && EndHint(m).0.start == m.start
  {
    hide MissingChunk;
  }

  /** A packet marks nothing, merges included. */
  lemma AddPacketEnded(cfg: Config, st: State, id: nat, m: Msg, p: Pkt)
    requires Ended(cfg, st) && !m.timedOut
    ensures Ended(cfg, AddPacket(st, id, m, p))
  {
    hide HasSeq, Add, EndHint, KeyOf, ShiftAll;
    if HasSeq(m.packets, p.seqNo) {
      AddPacketSkips(st, id, m, p);
    } else {
      SeqAdded(m, p);
      HasPackets(Add(m, p), p);
      AddUnmarked(m, p);
      HintUnmarked(Add(m, p));
      HintKey(Add(m, p));
      var m1 := EndHint(Add(m, p)).0;
      FixEnded(cfg, st.(tracked := st.tracked[id := m1]), m1);
    }
  }

  lemma FixEnded(cfg: Config, st: State, m: Msg)
    requires Ended(cfg, st) && !m.timedOut && m.packets != []
    ensures Ended(cfg, Fix100Continue(st, m))
  {
    hide HasSeq, Add, EndHint, KeyOf, ShiftAll;
    var moved := Rekeyed(m);
    var rest := st.tracked - {KeyOf(m)};
    if m.framing.continue100 && KeyOf(moved) in rest {
      var next := rest[KeyOf(moved)];
      if |next.packets| == 1 && Add(moved, next.packets[0]).packets != [] {
        AddUnmarked(moved, next.packets[0]);
        HintUnmarked(Add(moved, next.packets[0]));
      }
    }
  }

  lemma ProcessEnded(cfg: Config, st: State, p: Pkt)
    requires Ended(cfg, st)
    ensures Ended(cfg, ProcessPacket(st, p))
  {
    hide AddPacket, MessageId, StartHint;
    var (m, p1) := Joining(st, p);
    AddPacketEnded(cfg, st, MessageId(p), m, p1);
  }

  lemma TimeOutEnded(cfg: Config, st: State, now: nat, key: nat)
    requires Ended(cfg, st)
    ensures Ended(cfg, TimeOut(cfg, st, now, key))
  {
    hide KeyOf, Overdue;
  }

  lemma {:induction false} TimerEnded(cfg: Config, st: State, now: nat, order: seq<nat>)
    requires Ended(cfg, st)
    ensures Ended(cfg, Timer(cfg, st, now, order))
  {
    hide TimeOut, Ended;
    if order != [] {
      TimerEnded(cfg, st, now, order[..|order| - 1]);
      TimeOutEnded(cfg, Timer(cfg, st, now, order[..|order| - 1]), now, order[|order| - 1]);
    }
  }

  /** In every run, merges included: no message that timed out is sent unless incomplete messages are
      allowed, and none is dropped if they are. */
  lemma {:induction false} RunEnded(cfg: Config, evs: seq<Event>)
    ensures Ended(cfg, Run(cfg, INIT, evs))
  {
    hide Ended, ProcessPacket, Timer;
    if evs == [] {
      NothingEnded(cfg);
    } else {
      var before, ev := evs[..|evs| - 1], evs[|evs| - 1];
      RunEnded(cfg, before);
      match ev
      case Arrive(p) => ProcessEnded(cfg, Run(cfg, INIT, before), p);
      case Tick(now, order) => TimerEnded(cfg, Run(cfg, INIT, before), now, order);
    }
  }

  lemma NothingEnded(cfg: Config)
    ensures Ended(cfg, INIT)
  {}

  // ----- by which packet a message was opened -----------------------------------------------------------

  /** `q` is the packet `p` was captured as, but for its direction mark and its Ack. */
  predicate Same(p: Pkt, q: Pkt) {
    Essence(p) == Essence(q)
  }

  /** The side the title of a payload tells, if there is one. */
  function TitleSide(payload: seq<byte>): Dir {
    if HasRequestTitle(payload) then DirIncoming
    else if HasResponseTitle(payload) then DirOutcoming
    else DirUnknown
  }

  /** `m`, opened by event `j`, has the direction its first packet was marked with; without a mark, that of
      a title that arrived since; and none only if it holds no title. */
  predicate DirectedBy(evs: seq<Event>, j: nat, m: Msg)
    requires j < |evs| && evs[j].Arrive?
  {
    if evs[j].pckt.direction != DirUnknown then m.direction == evs[j].pckt.direction
    else if m.direction == DirUnknown then forall q :: q in m.packets ==> TitleSide(q.payload) == DirUnknown
    else exists i :: j <= i < |evs| && evs[i].Arrive? && TitleSide(evs[i].pckt.payload) == m.direction
  }

  /** Event `j` opened `m`: its packet found no message under its ID, its capture time is the start of `m`,
      and `m` holds that packet and none that arrived before it. */
  predicate OpenedBy(cfg: Config, evs: seq<Event>, j: nat, m: Msg) {
    && j < |evs| && evs[j].Arrive?
    && MessageId(evs[j].pckt) !in Run(cfg, INIT, evs[..j]).tracked
    && m.start == evs[j].pckt.time && DirectedBy(evs, j, m)
    && (exists q :: q in m.packets && Same(evs[j].pckt, q))
    && forall q :: q in m.packets ==> CameFrom(evs, j, q)
  }

  /** `q` arrived with event `j` or later. */
  predicate CameFrom(evs: seq<Event>, j: nat, q: Pkt) {
    exists i :: j <= i < |evs| && evs[i].Arrive? && Same(evs[i].pckt, q)
  }

  predicate Begun(cfg: Config, evs: seq<Event>, m: Msg) {
    exists j: nat :: j < |evs| && OpenedBy(cfg, evs, j, m)
  }

  predicate AllBegun(cfg: Config, evs: seq<Event>, st: State) {
    && (forall k :: k in st.tracked ==> Begun(cfg, evs, st.tracked[k]))
    && (forall m :: m in st.emitted ==> Begun(cfg, evs, m))
    && (forall m :: m in st.expired ==> Begun(cfg, evs, m))
  }

  lemma Opens(cfg: Config, evs: seq<Event>, j: nat, m: Msg)
    ensures OpenedBy(cfg, evs, j, m) <==>
              && j < |evs| && evs[j].Arrive?
              && MessageId(evs[j].pckt) !in Run(cfg, INIT, evs[..j]).tracked
              && m.start == evs[j].pckt.time && DirectedBy(evs, j, m)
              && (exists q :: q in m.packets && Same(evs[j].pckt, q))
              && forall q :: q in m.packets ==> CameFrom(evs, j, q)
  {}

  lemma LongerBy(cfg: Config, evs: seq<Event>, ev: Event, j: nat, m: Msg)
    requires OpenedBy(cfg, evs, j, m)
    ensures OpenedBy(cfg, evs + [ev], j, m)
  {
    hide Run, MessageId, Same, DirectedBy;
    Opens(cfg, evs, j, m);
    var all := evs + [ev];
    assert all[..j] == evs[..j] && all[j] == evs[j];
    StillDirected(evs, ev, j, m);
    forall q | q in m.packets
      ensures CameFrom(all, j, q)
    {
      assert CameFrom(evs, j, q);
      var i :| j <= i < |evs| && evs[i].Arrive? && Same(evs[i].pckt, q);
      assert all[i] == evs[i];
    }
    Opens(cfg, all, j, m);
  }

  lemma Longer(cfg: Config, evs: seq<Event>, ev: Event, m: Msg)
    requires Begun(cfg, evs, m)
    ensures Begun(cfg, evs + [ev], m)
  {
    hide OpenedBy;
    var j: nat :| j < |evs| && OpenedBy(cfg, evs, j, m);
    LongerBy(cfg, evs, ev, j, m);
  }

  lemma StillDirected(evs: seq<Event>, ev: Event, j: nat, m: Msg)
    requires j < |evs| && evs[j].Arrive? && DirectedBy(evs, j, m)
    ensures DirectedBy(evs + [ev], j, m)
  {
    hide TitleSide;
    var all := evs + [ev];
    assert forall i :: 0 <= i < |evs| ==> all[i] == evs[i];
  }

  /** A message with another mark, or with its Acks moved. */
  predicate Variant(m: Msg, m1: Msg) {
    && m1.start == m.start && m1.direction == m.direction && |m1.packets| == |m.packets|
    && forall i :: 0 <= i < |m.packets| ==> Same(m.packets[i], m1.packets[i])
  }

  lemma VariantBegun(cfg: Config, evs: seq<Event>, m: Msg, m1: Msg)
    requires Begun(cfg, evs, m) && Variant(m, m1)
    ensures Begun(cfg, evs, m1)
  {
    hide Run, MessageId, Essence, DirectedBy;
    var j: nat :| j < |evs| && OpenedBy(cfg, evs, j, m);
    Opens(cfg, evs, j, m);
    var q :| q in m.packets && Same(evs[j].pckt, q);
    var a :| 0 <= a < |m.packets| && m.packets[a] == q;
    assert m1.packets[a] in m1.packets && Same(evs[j].pckt, m1.packets[a]);
    forall r | r in m1.packets
      ensures CameFrom(evs, j, r)
    {
      var b :| 0 <= b < |m1.packets| && m1.packets[b] == r;
      assert m.packets[b] in m.packets && CameFrom(evs, j, m.packets[b]);
      var i :| j <= i < |evs| && evs[i].Arrive? && Same(evs[i].pckt, m.packets[b]);
      assert Same(evs[i].pckt, r);
    }
    VariantDirected(evs, j, m, m1);
    Opens(cfg, evs, j, m1);
  }

  lemma VariantDirected(evs: seq<Event>, j: nat, m: Msg, m1: Msg)
    requires j < |evs| && evs[j].Arrive? && DirectedBy(evs, j, m) && Variant(m, m1)
    ensures DirectedBy(evs, j, m1)
  {
    hide TitleSide, Essence;
    forall q | q in m1.packets
      ensures exists r :: r in m.packets && r.payload == q.payload
    {
      var b :| 0 <= b < |m1.packets| && m1.packets[b] == q;
      assert m.packets[b] in m.packets && Same(m.packets[b], q);
      SamePayload(m.packets[b], q);
    }
  }

  lemma SamePayload(p: Pkt, q: Pkt)
    requires Same(p, q)
    ensures p.payload == q.payload
  {}

  lemma RekeyedVariant(m: Msg)
    ensures Variant(m, Rekeyed(m))
  {}

  lemma SameMarked(m: Msg, late: bool)
    ensures Variant(m, m.(timedOut := late))
  {
    hide Same;
    assert forall p :: Same(p, p) by { SameSelf(); }
  }

  lemma SameSelf()
    ensures forall p :: Same(p, p)
  {}

  /** A packet joins a message without a direction: its title, if any, gives one. */
  lemma HintedBegun(cfg: Config, evs: seq<Event>, p: Pkt, m: Msg)
    requires Begun(cfg, evs, m) && m.direction == DirUnknown
    ensures Begun(cfg, evs + [Arrive(p)], m.(direction := TitleSide(p.payload)))
  {
    hide Run, MessageId, Same, TitleSide;
    var all, n := evs + [Arrive(p)], |evs|;
    Longer(cfg, evs, Arrive(p), m);
    var j: nat :| j < |evs| && OpenedBy(cfg, evs, j, m);
    Opens(cfg, evs, j, m);
    LongerBy(cfg, evs, Arrive(p), j, m);
    Opens(cfg, all, j, m);
    assert all[n] == Arrive(p) && all[j] == evs[j];
    var m1 := m.(direction := TitleSide(p.payload));
    assert DirectedBy(all, j, m1);
    Opens(cfg, all, j, m1);
  }

  /** A packet that joins a message, or opens it. */
  lemma GrownBegun(cfg: Config, evs: seq<Event>, p: Pkt, m: Msg, p1: Pkt)
    requires Same(p, p1) && !HasSeq(m.packets, p1.seqNo)
    requires if m.packets == []
             then m == NewMessage(p1) && MessageId(p) !in Run(cfg, INIT, evs).tracked && p1.time == p.time
             else Begun(cfg, evs + [Arrive(p)], m)
    requires m.packets == []
             ==> p1.direction == if p.direction == DirUnknown then TitleSide(p.payload) else p.direction
    requires m.direction == DirUnknown ==> TitleSide(p1.payload) == DirUnknown
    ensures Begun(cfg, evs + [Arrive(p)], Add(m, p1))
  {
    hide Run, MessageId, Essence, HasSeq, Place, Same, TitleSide, DirectedBy;
    var all, n := evs + [Arrive(p)], |evs|;
    var k := Place(m.packets, p1.seqNo);
    assert m.packets[..k] + m.packets[k..] == m.packets;
    var grown := Add(m, p1);
    assert grown.packets == m.packets[..k] + [p1] + m.packets[k..] && grown.start == m.start;
    assert all[n] == Arrive(p) && all[..n] == evs;
    assert p1 in grown.packets;
    if m.packets == [] {
      assert grown.packets == [p1];
      assert CameFrom(all, n, p1);
      OpenerDirected(all, n, grown, p1);
      Opens(cfg, all, n, grown);
    } else {
      var j: nat :| j < |all| && OpenedBy(cfg, all, j, m);
      Opens(cfg, all, j, m);
      forall q | q in grown.packets
        ensures CameFrom(all, j, q)
      {
        if q !in m.packets {
          assert q == p1;
          assert j <= n < |all| && all[n].Arrive? && Same(all[n].pckt, q);
        }
      }
      GrownDirected(all, j, m, p1);
      Opens(cfg, all, j, grown);
    }
  }

  lemma OpenerDirected(evs: seq<Event>, n: nat, m: Msg, p1: Pkt)
    requires n < |evs| && evs[n].Arrive? && m.packets == [p1] && m.direction == p1.direction
    requires var p := evs[n].pckt;
             p1.direction == (if p.direction == DirUnknown then TitleSide(p.payload) else p.direction)
             && (m.direction == DirUnknown ==> TitleSide(p1.payload) == DirUnknown)
    ensures DirectedBy(evs, n, m)
  {
    hide TitleSide;
  }

  lemma GrownDirected(evs: seq<Event>, j: nat, m: Msg, p1: Pkt)
    requires j < |evs| && evs[j].Arrive? && DirectedBy(evs, j, m) && !HasSeq(m.packets, p1.seqNo)
    requires m.direction == DirUnknown ==> TitleSide(p1.payload) == DirUnknown
    ensures DirectedBy(evs, j, Add(m, p1))
  {
    hide TitleSide, HasSeq, Place;
    var k := Place(m.packets, p1.seqNo);
    assert m.packets[..k] + m.packets[k..] == m.packets;
  }

  lemma HintIsSide(p: Pkt)
    ensures StartHint(p) == TitleSide(p.payload)
  {
    hide HasRequestTitle, HasResponseTitle;
  }

  lemma JoiningBegun(cfg: Config, evs: seq<Event>, p: Pkt)
    requires AllBegun(cfg, evs, Run(cfg, INIT, evs)) && SoundState(Run(cfg, INIT, evs))
    ensures var st := Run(cfg, INIT, evs);
            var (m, p1) := Joining(st, p);
            && Same(p, p1) && p1.time == p.time && p1.payload == p.payload && MessageId(p1) == MessageId(p)
            && (m.direction == DirUnknown ==> TitleSide(p1.payload) == DirUnknown)
            && if m.packets == [] then
                 && m == NewMessage(p1) && MessageId(p) !in st.tracked
                 && p1.direction == if p.direction == DirUnknown then TitleSide(p.payload) else p.direction
               else MessageId(p) in st.tracked && Begun(cfg, evs + [Arrive(p)], m)
  {
    hide Begun, SoundState, Sound, MessageId, StartHint, Run, TitleSide;
    var st := Run(cfg, INIT, evs);
    JoiningSound(st, p);
    SoundPackets(st, p);
    HintIsSide(p);
    if MessageId(p) in st.tracked {
      var m := st.tracked[MessageId(p)];
      if m.direction == DirUnknown {
        HintedBegun(cfg, evs, p, m);
      } else {
        Longer(cfg, evs, Arrive(p), m);
      }
    }
  }

  lemma ArriveBegun(cfg: Config, evs: seq<Event>, p: Pkt)
    requires var st := Run(cfg, INIT, evs); AllBegun(cfg, evs, st) && SoundState(st) && !ProcessMerges(st, p)
    ensures AllBegun(cfg, evs + [Arrive(p)], ProcessPacket(Run(cfg, INIT, evs), p))
  {
    hide *;
    var st, all := Run(cfg, INIT, evs), evs + [Arrive(p)];
    var (m, p1) := Joining(st, p);
    var id := MessageId(p);
    JoiningBegun(cfg, evs, p);
    JoiningSound(st, p);
    AllLonger(cfg, evs, Arrive(p), st);
    ProcessIs(st, p);
    if HasSeq(m.packets, p1.seqNo) {
      AddPacketSkips(st, id, m, p1);
      PutBegun(cfg, all, st, id, m);
      DuplicateBegun(cfg, all, st.(tracked := st.tracked[id := m]), st.duplicates + [p1]);
    } else {
      GrownBegun(cfg, evs, p, m, p1);
      NotMerging(st, p);
      var grown, full := Outcome(st, id, m, p1);
      GrownVariant(st, id, m, p1, grown);
      VariantBegun(cfg, all, Add(m, p1), grown);
      RekeyedVariant(grown);
      VariantBegun(cfg, all, grown, Rekeyed(grown));
      if full {
        SendBegun(cfg, all, st, id, grown);
      } else if grown.framing.continue100 {
        DropBegun(cfg, all, st, id);
        PutBegun(cfg, all, st.(tracked := st.tracked - {id}), KeyOf(Rekeyed(grown)), Rekeyed(grown));
      } else {
        PutBegun(cfg, all, st, id, grown);
      }
    }
  }

  lemma ProcessIs(st: State, p: Pkt)
    ensures var (m, p1) := Joining(st, p); ProcessPacket(st, p) == AddPacket(st, MessageId(p), m, p1)
  {
    hide Joining, AddPacket;
  }

  lemma NotMerging(st: State, p: Pkt)
    requires !ProcessMerges(st, p)
    ensures var (m, p1) := Joining(st, p); !AddMerges(st.tracked, MessageId(p), m, p1)
  {
    hide Joining, AddMerges;
  }

  lemma GrownVariant(st: State, id: nat, m: Msg, p: Pkt, grown: Msg)
    requires grown.packets == Add(m, p).packets && grown.start == m.start && grown.direction == m.direction
    ensures Variant(Add(m, p), grown)
  {
    hide Same, HasSeq, Place;
    SameSelf();
  }

  lemma AllLonger(cfg: Config, evs: seq<Event>, ev: Event, st: State)
    requires AllBegun(cfg, evs, st)
    ensures AllBegun(cfg, evs + [ev], st)
  {
    hide Begun;
    forall m | Begun(cfg, evs, m)
      ensures Begun(cfg, evs + [ev], m)
    {
      Longer(cfg, evs, ev, m);
    }
  }

  lemma PutBegun(cfg: Config, evs: seq<Event>, st: State, id: nat, m: Msg)
    requires AllBegun(cfg, evs, st) && Begun(cfg, evs, m)
    ensures AllBegun(cfg, evs, st.(tracked := st.tracked[id := m]))
  {
    hide Begun;
  }

  lemma DropBegun(cfg: Config, evs: seq<Event>, st: State, id: nat)
    requires AllBegun(cfg, evs, st)
    ensures AllBegun(cfg, evs, st.(tracked := st.tracked - {id}))
  {
    hide Begun;
  }

  lemma SendBegun(cfg: Config, evs: seq<Event>, st: State, id: nat, m: Msg)
    requires AllBegun(cfg, evs, st) && Begun(cfg, evs, m)
    ensures AllBegun(cfg, evs, st.(tracked := st.tracked - {id}, emitted := st.emitted + [m]))
    ensures AllBegun(cfg, evs, st.(tracked := st.tracked - {id}, expired := st.expired + [m]))
  {
    hide Begun;
  }

  lemma DuplicateBegun(cfg: Config, evs: seq<Event>, st: State, duplicates: seq<Pkt>)
    requires AllBegun(cfg, evs, st)
    ensures AllBegun(cfg, evs, st.(duplicates := duplicates))
  {
    hide Begun;
  }

  lemma TurnBegun(cfg: Config, evs: seq<Event>, st: State, now: nat, key: nat)
    requires AllBegun(cfg, evs, st) && SoundState(st)
    ensures AllBegun(cfg, evs, TimeOut(cfg, st, now, key))
  {
    hide *;
    if key in st.tracked {
      var m := st.tracked[key];
      TrackedSound(st, key);
      SoundKey(key, m);
      TimedOutKey(m);
      OneTurn(cfg, st, now, key);
      TrackedBegun(cfg, evs, st, key);
      SameMarked(m, true);
      VariantBegun(cfg, evs, m, m.(timedOut := true));
      SendBegun(cfg, evs, st, key, m.(timedOut := true));
    } else {
      NoTurn(cfg, st, now, key);
    }
  }

  lemma TrackedBegun(cfg: Config, evs: seq<Event>, st: State, key: nat)
    requires AllBegun(cfg, evs, st) && key in st.tracked
    ensures Begun(cfg, evs, st.tracked[key])
  {
    hide Begun;
  }

  lemma NoTurn(cfg: Config, st: State, now: nat, key: nat)
    requires key !in st.tracked
    ensures TimeOut(cfg, st, now, key) == st
  {}

  lemma {:induction false} TickBegun(cfg: Config, evs: seq<Event>, st: State, now: nat, order: seq<nat>)
    requires AllBegun(cfg, evs, st) && SoundState(st)
    ensures AllBegun(cfg, evs, Timer(cfg, st, now, order))
  {
    hide AllBegun, SoundState, TimeOut;
    if order != [] {
      var before := order[..|order| - 1];
      TickBegun(cfg, evs, st, now, before);
      TimerSound(cfg, st, now, before);
      TurnBegun(cfg, evs, Timer(cfg, st, now, before), now, order[|order| - 1]);
    }
  }

  /** In every run without merges, every message, tracked or gone, starts at the capture time of the first
      packet that arrived for it, and has the direction of its mark, or else of a title that arrived for it. */
  lemma {:induction false} RunBegun(cfg: Config, evs: seq<Event>)
    requires Unmerged(cfg, INIT, evs)
    ensures AllBegun(cfg, evs, Run(cfg, INIT, evs))
  {
    hide AllBegun, SoundState, ProcessPacket, Timer, ProcessMerges;
    if evs == [] {
      NothingBegun(cfg);
    } else {
      var before, ev := evs[..|evs| - 1], evs[|evs| - 1];
      RunBegun(cfg, before);
      RunSound(cfg, before);
      assert evs == before + [ev];
      match ev
      case Arrive(p) => ArriveBegun(cfg, before, p);
      case Tick(now, order) =>
        AllLonger(cfg, before, ev, Run(cfg, INIT, before));
        TickBegun(cfg, evs, Run(cfg, INIT, before), now, order);
    }
  }

  lemma NothingBegun(cfg: Config)
    ensures AllBegun(cfg, [], INIT)
  {}
}
