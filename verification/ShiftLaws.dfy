/** What every run keeps in which messages that ask for a 100-continue move to other IDs, as long as none is
    merged with another. */
module ShiftLaws {
  import opened Packets
  import opened Messages
  import opened MessageLaws
  import opened Parser
  import opened ParserLaws

  /** A run in which no two messages are merged. */
  predicate Unmerged(cfg: Config, st: State, evs: seq<Event>) {
    evs == [] ||
    var before, ev := evs[..|evs| - 1], evs[|evs| - 1];
    Unmerged(cfg, st, before) && (ev.Arrive? ==> !ProcessMerges(Run(cfg, st, before), ev.pckt))
  }

  /** A message as it may stand under `key`: packets, strictly ascending, with exact statistics, the first
      of them with that ID. */
  predicate Sound(key: nat, m: Msg) {
    m.packets != [] && Sorted(m.packets) && Accounted(m) && KeyOf(m) == key
  }

  predicate SoundState(st: State) {
    && (forall k :: k in st.tracked ==> Sound(k, st.tracked[k]) && !st.tracked[k].timedOut)
    && (forall i :: 0 <= i < |st.emitted| ==> Left(st.emitted[i]))
    && (forall i :: 0 <= i < |st.emitted| && !st.emitted[i].timedOut ==> !MissingChunk(st.emitted[i].packets))
    && (forall i :: 0 <= i < |st.expired| ==> Left(st.expired[i]))
  }

  predicate Left(m: Msg) {
    m.packets != [] && Sorted(m.packets) && Accounted(m)
  }

  // ----- one packet ---------------------------------------------------------------------------------

  lemma {:induction false} ShiftedSums(ps: seq<Pkt>)
    ensures SumLength(ShiftAll(ps)) == SumLength(ps) && SumLost(ShiftAll(ps)) == SumLost(ps)
    ensures MaxTime(ShiftAll(ps)) == MaxTime(ps)
  {
    if ps != [] {
      assert ShiftAll(ps)[1..] == ShiftAll(ps[1..]);
      ShiftedSums(ps[1..]);
    }
  }

  lemma RekeyedSound(id: nat, m: Msg)
    requires Sound(id, m)
    ensures Rekeyed(m).packets != [] && Sound(KeyOf(Rekeyed(m)), Rekeyed(m))
  {
    hide MessageId, SumLength, SumLost, MaxTime;
    ShiftedSums(m.packets);
  }

  lemma GrownSound(id: nat, m: Msg, p: Pkt)
    requires MessageId(p) == id && !HasSeq(m.packets, p.seqNo)
    requires if m.packets == [] then m == NewMessage(p) else Sound(id, m)
    ensures Sound(id, Add(m, p)) && Add(m, p).timedOut == m.timedOut
  {
    hide MessageId, Sorted, Accounted, Add;
    if m.packets == [] {
      NewAccounted(m);
    }
    AddKeeps(m, p);
    AddKey(m, p, id);
    AddLate(m, p);
  }

  lemma AddLate(m: Msg, p: Pkt)
    ensures var r := Add(m, p); r.timedOut == m.timedOut && r.start == m.start && r.direction == m.direction
  {}

  lemma HintSound(id: nat, m: Msg)
    requires Sound(id, m)
    ensures m.packets != []
    ensures var (m1, full) := EndHint(m);
            Sound(id, m1) && m1 == m.(framing := m1.framing) && (full ==> !MissingChunk(m1.packets))
  {
    hide MissingChunk, MessageId, Sorted;
  }

  /** What `addPacket` does with a packet that is no duplicate and triggers no merge: the grown message is
      sent, or stored under its own key, or moved to the key it has once its Acks are shifted. */
  lemma Outcome(st: State, id: nat, m: Msg, p: Pkt) returns (grown: Msg, full: bool)
    requires !AddMerges(st.tracked, id, m, p) && MessageId(p) == id && !m.timedOut && !HasSeq(m.packets, p.seqNo)
    requires if m.packets == [] then m == NewMessage(p) else Sound(id, m)
    ensures Sound(id, grown) && !grown.timedOut && grown.packets == Add(m, p).packets
    ensures grown.start == m.start && grown.direction == m.direction
    ensures full ==> !MissingChunk(grown.packets)
    ensures Rekeyed(grown).packets != [] && Sound(KeyOf(Rekeyed(grown)), Rekeyed(grown))
    ensures var to := KeyOf(Rekeyed(grown));
            if full then AddPacket(st, id, m, p) == st.(tracked := st.tracked - {id}, emitted := st.emitted + [grown])
            else if grown.framing.continue100 then
              to !in st.tracked - {id}
              && AddPacket(st, id, m, p) == st.(tracked := (st.tracked - {id})[to := Rekeyed(grown)])
            else AddPacket(st, id, m, p) == st.(tracked := st.tracked[id := grown])
  {
    hide Sound, MissingChunk, HasSeq, EndHint, MessageId, Add, KeyOf, Rekeyed, AddMerges, AddPacket;
    GrownSound(id, m, p);
    AddLate(m, p);
    HintSound(id, Add(m, p));
    grown, full := EndHint(Add(m, p)).0, EndHint(Add(m, p)).1;
    SoundKey(id, Add(m, p));
    SoundKey(id, grown);
    RekeyedSound(id, grown);
    NoMerge(st.tracked, id, m, p);
    Turns(st, id, m, p, grown, full);
  }

  lemma SoundKey(id: nat, m: Msg)
    requires Sound(id, m)
    ensures m.packets != [] && KeyOf(m) == id
  {
    hide MessageId, Sorted, Accounted;
  }

  lemma Turns(st: State, id: nat, m: Msg, p: Pkt, grown: Msg, full: bool)
    requires !HasSeq(m.packets, p.seqNo) && Add(m, p).packets != [] && EndHint(Add(m, p)) == (grown, full)
    requires grown.packets != [] && KeyOf(grown) == id && (!full ==> !Merges(st.tracked[id := grown], grown))
    requires Rekeyed(grown).packets != []
    ensures var to := KeyOf(Rekeyed(grown));
            if full then AddPacket(st, id, m, p) == st.(tracked := st.tracked - {id}, emitted := st.emitted + [grown])
            else if grown.framing.continue100 then
              to !in st.tracked - {id}
              && AddPacket(st, id, m, p) == st.(tracked := (st.tracked - {id})[to := Rekeyed(grown)])
            else AddPacket(st, id, m, p) == st.(tracked := st.tracked[id := grown])
  {
    hide HasSeq, EndHint, Add, KeyOf, Rekeyed;
    assert st.tracked[id := grown] - {id} == st.tracked - {id};
  }

  lemma AddPacketSound(st: State, id: nat, m: Msg, p: Pkt)
    requires SoundState(st) && !AddMerges(st.tracked, id, m, p) && MessageId(p) == id && !m.timedOut
    requires if m.packets == [] then m == NewMessage(p) else Sound(id, m)
    ensures SoundState(AddPacket(st, id, m, p))
  {
    hide *;
    if HasSeq(m.packets, p.seqNo) {
      AddPacketSkips(st, id, m, p);
      PutSound(st, id, id, m, st.duplicates + [p]);
    } else {
      var grown, full := Outcome(st, id, m, p);
      if full {
        SendSound(st, id, grown);
      } else if grown.framing.continue100 {
        RekeyedLate(grown);
        PutSound(st, id, KeyOf(Rekeyed(grown)), Rekeyed(grown), st.duplicates);
      } else {
        PutSound(st, id, id, grown, st.duplicates);
      }
    }
  }

  lemma RekeyedLate(m: Msg)
    ensures Rekeyed(m).timedOut == m.timedOut
  {}

  lemma PutSound(st: State, id: nat, to: nat, m: Msg, duplicates: seq<Pkt>)
    requires SoundState(st) && Sound(to, m) && !m.timedOut
    ensures SoundState(st.(tracked := (st.tracked - {id})[to := m], duplicates := duplicates))
    ensures (st.tracked - {id})[id := m] == st.tracked[id := m]
  {
    hide Sound, MissingChunk, Left;
  }

  lemma SendSound(st: State, id: nat, m: Msg)
    requires SoundState(st) && Sound(id, m) && (!m.timedOut ==> !MissingChunk(m.packets))
    ensures SoundState(st.(tracked := st.tracked - {id}, emitted := st.emitted + [m]))
  {
    hide Sound, MissingChunk, Left;
    SoundLeft(id, m);
  }

  lemma SoundLeft(id: nat, m: Msg)
    requires Sound(id, m)
    ensures Left(m)
  {
    hide Sorted, Accounted, KeyOf;
  }

  lemma MarkedSound(key: nat, m: Msg, d: Dir, late: bool)
    requires Sound(key, m)
    ensures Sound(key, m.(direction := d)) && Sound(key, m.(timedOut := late))
  {
    hide MessageId, Sorted, SumLength, SumLost, MaxTime;
  }

  lemma TrackedSound(st: State, key: nat)
    requires SoundState(st) && key in st.tracked
    ensures Sound(key, st.tracked[key]) && !st.tracked[key].timedOut
  {
    hide Sound, Left;
  }

  /** What a packet joins, as `AddPacketSound` needs it. */
  lemma JoiningSound(st: State, p: Pkt)
    requires SoundState(st)
    ensures var (m, p1) := Joining(st, p);
            && MessageId(p1) == MessageId(p) && Core(p1) == Core(p) && !m.timedOut
            && (if MessageId(p) in st.tracked then
                  Sound(MessageId(p), m) && m.packets == st.tracked[MessageId(p)].packets
                else m == NewMessage(p1))
  {
    hide SoundState, Sound, MessageId, StartHint;
    var id := MessageId(p);
    if id in st.tracked {
      TrackedSound(st, id);
      MarkedSound(id, st.tracked[id], StartHint(p), false);
    } else {
      DirectionIgnored(p, StartHint(p));
    }
  }

  lemma PacketSound(st: State, p: Pkt)
    requires SoundState(st) && !ProcessMerges(st, p)
    ensures SoundState(ProcessPacket(st, p))
  {
    hide SoundState, Sound, MessageId, AddPacket, AddMerges, Joining, Core;
    JoiningSound(st, p);
    var (m, p1) := Joining(st, p);
    SoundPackets(st, p);
    AddPacketSound(st, MessageId(p), m, p1);
  }

  lemma SoundPackets(st: State, p: Pkt)
    requires SoundState(st)
    ensures MessageId(p) in st.tracked ==> Joining(st, p).0.packets != []
    ensures MessageId(p) !in st.tracked ==> Joining(st, p).0.packets == []
  {
    hide Left, MessageId, StartHint, Sorted, Accounted;
  }

  // ----- ticks and runs -----------------------------------------------------------------------------

  lemma TimeOutSound(cfg: Config, st: State, now: nat, key: nat)
    requires SoundState(st)
    ensures SoundState(TimeOut(cfg, st, now, key))
  {
    hide Sound, KeyOf, MissingChunk, Overdue, Left;
    if key in st.tracked && Overdue(cfg, st.tracked[key], now) {
      var m := st.tracked[key];
      MarkedSound(key, m, m.direction, true);
      SoundKey(key, m.(timedOut := true));
      SoundLeft(key, m.(timedOut := true));
    }
  }

  lemma {:induction false} TimerSound(cfg: Config, st: State, now: nat, order: seq<nat>)
    requires SoundState(st)
    ensures SoundState(Timer(cfg, st, now, order))
  {
    hide SoundState, TimeOut;
    if order != [] {
      var before := order[..|order| - 1];
      TimerSound(cfg, st, now, before);
      TimeOutSound(cfg, Timer(cfg, st, now, before), now, order[|order| - 1]);
    }
  }

  /** In every run without merges each tracked message has packets, strictly ascending, with exact
      statistics, and stands under the ID of its first packet; what left was like that, and what was sent
      in time had no gap. */
  lemma {:induction false} RunSound(cfg: Config, evs: seq<Event>)
    requires Unmerged(cfg, INIT, evs)
    ensures SoundState(Run(cfg, INIT, evs))
  {
    hide SoundState, ProcessPacket, Timer, ProcessMerges;
    if evs == [] {
      NothingUnsound();
    } else {
      var before, ev := evs[..|evs| - 1], evs[|evs| - 1];
      RunSound(cfg, before);
      match ev
      case Arrive(p) => PacketSound(Run(cfg, INIT, before), p);
      case Tick(now, order) => TimerSound(cfg, Run(cfg, INIT, before), now, order);
    }
  }

  lemma NothingUnsound()
    ensures SoundState(INIT)
  {}

  /** A quiet run merges nothing. */
  lemma {:induction false} QuietUnmerged(cfg: Config, st: State, evs: seq<Event>)
    requires QuietRun(cfg, st, evs)
    ensures Unmerged(cfg, st, evs)
  {
    hide Run, Shifts, ProcessMerges;
    if evs != [] {
      var before, ev := evs[..|evs| - 1], evs[|evs| - 1];
      QuietUnmerged(cfg, st, before);
      if ev.Arrive? && ProcessMerges(Run(cfg, st, before), ev.pckt) {
        MergeShifts(Run(cfg, st, before), ev.pckt);
      }
    }
  }

  // ----- nothing lost, nothing doubled ----------------------------------------------------------------

  /** A packet apart from its direction mark and its Ack, which moves along with its message. */
  function Essence(p: Pkt): Pkt {
    p.(direction := DirUnknown, ack := 0)
  }

  function Lot(ps: seq<Pkt>): multiset<Pkt> {
    if ps == [] then multiset{} else multiset{Essence(ps[0])} + Lot(ps[1..])
  }

  function LotOf(ms: seq<Msg>): multiset<Pkt> {
    if ms == [] then multiset{} else LotOf(ms[..|ms| - 1]) + Lot(ms[|ms| - 1].packets)
  }

  ghost function LotIn(tracked: map<nat, Msg>): multiset<Pkt> {
    if tracked == map[] then multiset{}
    else
      var k :| k in tracked;
      Lot(tracked[k].packets) + LotIn(tracked - {k})
  }

  /** Every packet the state accounts for: tracked, emitted, expired or duplicate. */
  ghost function Content(st: State): multiset<Pkt> {
    LotIn(st.tracked) + LotOf(st.emitted) + LotOf(st.expired) + Lot(st.duplicates)
  }

  function Came(evs: seq<Event>): multiset<Pkt> {
    if evs == [] then multiset{}
    else
      var ev := evs[|evs| - 1];
      Came(evs[..|evs| - 1]) + if ev.Arrive? then multiset{Essence(ev.pckt)} else multiset{}
  }

  /** It does not matter which entry is taken first. */
  lemma {:induction false} LotTake(tracked: map<nat, Msg>, k: nat)
    requires k in tracked
    ensures LotIn(tracked) == Lot(tracked[k].packets) + LotIn(tracked - {k})
    decreases |tracked|
  {
    hide Lot;
    var j: nat :| j in tracked && LotIn(tracked) == Lot(tracked[j].packets) + LotIn(tracked - {j});
    if j != k {
      assert k in tracked - {j} && (tracked - {j})[k] == tracked[k];
      assert j in tracked - {k} && (tracked - {k})[j] == tracked[j];
      Smaller(tracked, j);
      Smaller(tracked, k);
      LotTake(tracked - {j}, k);
      LotTake(tracked - {k}, j);
      assert tracked - {j} - {k} == tracked - {k} - {j};
    }
  }

  lemma Smaller(tracked: map<nat, Msg>, k: nat)
    requires k in tracked
    ensures |tracked - {k}| < |tracked|
  {
    assert (tracked - {k}).Keys == tracked.Keys - {k};
    assert |tracked.Keys - {k}| == |tracked.Keys| - 1;
    assert |tracked| == |tracked.Keys| && |tracked - {k}| == |(tracked - {k}).Keys|;
  }

  lemma LotPut(tracked: map<nat, Msg>, k: nat, m: Msg)
    ensures LotIn(tracked[k := m]) == Lot(m.packets) + LotIn(tracked - {k})
  {
    hide Lot, LotIn;
    LotTake(tracked[k := m], k);
    assert tracked[k := m] - {k} == tracked - {k};
  }

  lemma LotMove(tracked: map<nat, Msg>, id: nat, to: nat, m: Msg)
    requires to !in tracked - {id}
    ensures LotIn((tracked - {id})[to := m]) == Lot(m.packets) + LotIn(tracked - {id})
  {
    hide Lot, LotIn;
    LotPut(tracked - {id}, to, m);
    assert tracked - {id} - {to} == tracked - {id};
  }

  lemma {:induction false} LotShifted(ps: seq<Pkt>)
    ensures Lot(ShiftAll(ps)) == Lot(ps)
  {
    if ps != [] {
      assert ShiftAll(ps)[1..] == ShiftAll(ps[1..]);
      LotShifted(ps[1..]);
    }
  }

  lemma {:induction false} LotSplit(a: seq<Pkt>, p: Pkt, b: seq<Pkt>)
    ensures Lot(a + [p] + b) == Lot(a + b) + multiset{Essence(p)}
  {
    hide Essence;
    if a == [] {
      assert a + [p] + b == [p] + b && a + b == b && ([p] + b)[1..] == b;
    } else {
      assert (a + [p] + b)[1..] == a[1..] + [p] + b && (a + b)[1..] == a[1..] + b;
      LotSplit(a[1..], p, b);
    }
  }

  lemma LotAdd(m: Msg, p: Pkt)
    requires !HasSeq(m.packets, p.seqNo)
    ensures Lot(Add(m, p).packets) == Lot(m.packets) + multiset{Essence(p)}
  {
    hide HasSeq, Place, Lot, Essence;
    var k := Place(m.packets, p.seqNo);
    LotSplit(m.packets[..k], p, m.packets[k..]);
    assert m.packets[..k] + m.packets[k..] == m.packets;
  }

  lemma LotPush(ps: seq<Pkt>, p: Pkt)
    ensures Lot(ps + [p]) == Lot(ps) + multiset{Essence(p)}
  {
    hide Lot, Essence;
    LotSplit(ps, p, []);
    assert ps + [p] + [] == ps + [p] && ps + [] == ps;
  }

  lemma LotOfPush(ms: seq<Msg>, m: Msg)
    ensures LotOf(ms + [m]) == LotOf(ms) + Lot(m.packets)
  {
    hide Lot;
    assert (ms + [m])[..|ms|] == ms;
  }

  lemma LotWithout(st: State, id: nat, m: Msg)
    requires if id in st.tracked then m.packets == st.tracked[id].packets else m.packets == []
    ensures LotIn(st.tracked) == Lot(m.packets) + LotIn(st.tracked - {id})
  {
    hide LotIn;
    if id in st.tracked {
      LotTake(st.tracked, id);
    } else {
      assert st.tracked - {id} == st.tracked;
    }
  }

  /** `addPacket` accounts for the packet it is given, and for nothing else. */
  lemma AddPacketContent(st: State, id: nat, m: Msg, p: Pkt)
    requires SoundState(st) && !AddMerges(st.tracked, id, m, p) && MessageId(p) == id && !m.timedOut
    requires if m.packets == [] then m == NewMessage(p) && id !in st.tracked
             else Sound(id, m) && id in st.tracked && m.packets == st.tracked[id].packets
    ensures Content(AddPacket(st, id, m, p)) == Content(st) + multiset{Essence(p)}
  {
    hide *;
    ContentIs(st);
    ContentIs(AddPacket(st, id, m, p));
    LotWithout(st, id, m);
    if HasSeq(m.packets, p.seqNo) {
      AddPacketSkips(st, id, m, p);
      LotPush(st.duplicates, p);
      LotPut(st.tracked, id, m);
    } else {
      LotAdd(m, p);
      var grown, full := Outcome(st, id, m, p);
      LotOfPush(st.emitted, grown);
      LotPut(st.tracked, id, grown);
      RekeyedLot(grown);
      if !full && grown.framing.continue100 {
        LotMove(st.tracked, id, KeyOf(Rekeyed(grown)), Rekeyed(grown));
      }
    }
  }

  lemma ContentIs(st: State)
    ensures Content(st) == LotIn(st.tracked) + LotOf(st.emitted) + LotOf(st.expired) + Lot(st.duplicates)
  {
    hide LotIn, LotOf, Lot;
  }

  lemma RekeyedLot(m: Msg)
    ensures Lot(Rekeyed(m).packets) == Lot(m.packets)
  {
    hide Lot, ShiftAll;
    LotShifted(m.packets);
  }

  lemma PacketContent(st: State, p: Pkt)
    requires SoundState(st) && !ProcessMerges(st, p)
    ensures Content(ProcessPacket(st, p)) == Content(st) + multiset{Essence(p)}
  {
    hide SoundState, Sound, MessageId, AddPacket, AddMerges, Joining, Core, Content, Essence;
    JoiningSound(st, p);
    var (m, p1) := Joining(st, p);
    SoundPackets(st, p);
    AddPacketContent(st, MessageId(p), m, p1);
    SameEssence(p, p1);
  }

  lemma SameEssence(p: Pkt, q: Pkt)
    requires Core(p) == Core(q)
    ensures Essence(p) == Essence(q)
  {
    assert Essence(p) == Core(p).(ack := 0) && Essence(q) == Core(q).(ack := 0);
  }

  lemma TimeOutContent(cfg: Config, st: State, now: nat, key: nat)
    requires SoundState(st)
    ensures Content(TimeOut(cfg, st, now, key)) == Content(st)
  {
    hide SoundState, Sound, KeyOf, Lot, LotIn, LotOf, Overdue;
    if key in st.tracked && Overdue(cfg, st.tracked[key], now) {
      TrackedSound(st, key);
      var m := st.tracked[key].(timedOut := true);
      MarkedSound(key, st.tracked[key], m.direction, true);
      SoundKey(key, m);
      LotTake(st.tracked, key);
      LotOfPush(st.emitted, m);
      LotOfPush(st.expired, m);
      assert st.tracked - {key} - {key} == st.tracked - {key};
    }
  }

  lemma {:induction false} TimerContent(cfg: Config, st: State, now: nat, order: seq<nat>)
    requires SoundState(st)
    ensures Content(Timer(cfg, st, now, order)) == Content(st)
  {
    hide SoundState, TimeOut, Content;
    if order != [] {
      var before := order[..|order| - 1];
      TimerContent(cfg, st, now, before);
      TimerSound(cfg, st, now, before);
      TimeOutContent(cfg, Timer(cfg, st, now, before), now, order[|order| - 1]);
    }
  }

  /** Conservation: in every run without merges, moved messages included, the packets that arrived are,
      counted with multiplicity, those tracked, emitted, expired or skipped as duplicates. */
  lemma {:induction false} RunContent(cfg: Config, evs: seq<Event>)
    requires Unmerged(cfg, INIT, evs)
    ensures Content(Run(cfg, INIT, evs)) == Came(evs)
  {
    hide SoundState, ProcessPacket, Timer, ProcessMerges, Content, Essence;
    if evs == [] {
      NoContent();
    } else {
      var before, ev := evs[..|evs| - 1], evs[|evs| - 1];
      RunContent(cfg, before);
      RunSound(cfg, before);
      match ev
      case Arrive(p) => PacketContent(Run(cfg, INIT, before), p);
      case Tick(now, order) => TimerContent(cfg, Run(cfg, INIT, before), now, order);
    }
  }

  lemma NoContent()
    ensures Content(INIT) == multiset{}
  {}
}
