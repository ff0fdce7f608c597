/** tcp_message.go: the `MessageParser` object. Each of its methods is proved to do to the heap what the
    state machine of `Parser` does to values. */
module ParserObject {
  import opened Packets
  import opened Titles
  import opened FullPayload
  import opened Messages
  import opened MessageLaws
  import opened Parser
  import opened MessageObject

  /** `http1EndHint`. */
  method EndHintOn(m: Message) returns (full: bool)
    requires m.Valid() && m.packets != []
    modifies m`feedback, m.feedback
    ensures m.Valid() && (m.feedback == old(m.feedback) || fresh(m.feedback))
    ensures (m.View(), full) == EndHint(old(m.View()))
  {
    hide Views, Sorted, Check, Payloads, HTTPState.View, Packet.Valid, Packet.View, Messages.MissingChunk;
    hide Message.Footprint, GapFrom, MessageId, FRESH;
    var missing := m.MissingChunk();
    if missing {
      return false;
    }
    if m.feedback == null {
      m.feedback := new HTTPState();
    }
    var data := m.PacketData();
    full := m.feedback.HasFull(data);
  }

  class MessageParser {
    const cfg: Config
    var m: map<nat, Message>
    /** The channel of finished messages. */
    var messages: seq<Message>
    /** What finished messages looked like when they left, and the packets skipped. */
    ghost var emitted: seq<Msg>
    ghost var expired: seq<Msg>
    ghost var duplicates: seq<Pkt>

    ghost function Parts(): set<object>
      reads this, m.Values
    {
      set x: Message, o: object | x in m.Values && o in x.Footprint() :: o
    }

    lemma PartOf(k: nat)
      requires k in m
      ensures m[k].Footprint() <= Parts()
      ensures m[k] in Parts() && (forall p :: p in m[k].packets ==> p in Parts())
      ensures m[k].feedback != null ==> m[k].feedback in Parts()
    {
      var x := m[k];
      assert x in m.Values;
      assert forall o :: o in x.Footprint() ==> o in Parts();
      assert x in x.Footprint();
      assert forall p :: p in x.packets ==> p in x.Footprint();
      assert x.feedback != null ==> x.feedback in x.Footprint();
    }

    ghost function Tracked(): map<nat, Msg>
      reads this, m.Values, Parts()
    {
      map k | k in m :: (PartOf(k); m[k].View())
    }

    ghost function View(): State
      reads this, m.Values, Parts()
    {
      State(Tracked(), emitted, expired, duplicates)
    }

    /** Messages own their packets and their protocol state, and no sent message is still tracked. */
    ghost predicate Separate()
      reads this, m.Values
    {
      && (forall j, k :: j in m && k in m && j != k ==> m[j].Footprint() !! m[k].Footprint())
      && (forall k :: k in m ==> m[k] !in messages)
    }

    /** The entry under `k` is a message with packets, the first of them with the ID `k`. */
    ghost predicate Sound(k: nat)
      requires k in m
      reads this, m.Values, Parts()
    {
      PartOf(k);
      m[k].Valid() && m[k].packets != [] && KeyOf(m[k].View()) == k
    }

    ghost predicate Valid()
      reads this, m.Values, Parts()
    {
      Separate() && forall k :: k in m ==> Sound(k)
    }

    /** Every message but the one under `id` is as it was. */
    twostate predicate OthersKept(id: nat)
      reads this, m.Values, Parts()
    {
      forall k :: k in old(m) && k in m && k != id ==> m[k] == old(m[k]) && (PartOf(k); Kept(m[k]))
    }

    twostate lemma PartsSame()
      requires m == old(m) && forall k :: k in m ==> m[k].Footprint() == old(m[k].Footprint())
      ensures Parts() == old(Parts())
    {
      hide Message.Footprint;
      forall x | x in m.Values
        ensures x.Footprint() == old(x.Footprint())
      {
        var k :| k in m && m[k] == x;
      }
    }

    twostate lemma PartsShrink()
      requires forall k :: k in m ==> k in old(m) && m[k] == old(m)[k] && m[k].Footprint() == old(m[k].Footprint())
      ensures Parts() <= old(Parts())
    {
      hide Message.Footprint;
      forall o | o in Parts()
        ensures o in old(Parts())
      {
        var x :| x in m.Values && o in x.Footprint();
        var k :| k in m && m[k] == x;
        assert x in old(m).Values;
      }
    }

    lemma TrackedKeys()
      ensures Tracked().Keys == m.Keys
    {
      hide Message.View;
    }

    /** No tracked message changed. */
    twostate lemma Undisturbed()
      requires old(Valid()) && m == old(m) && messages == old(messages)
      requires forall k :: k in m ==> Kept(m[k])
      ensures Valid() && Tracked() == old(Tracked()) && Parts() == old(Parts())
    {
      hide Message.View, Message.Valid, Message.Footprint;
      forall k | k in m
        ensures m[k].Footprint() == old(m[k].Footprint()) && Sound(k)
      {
        assert old(Sound(k));
      }
      PartsSame();
    }

    /** The entry under `id` left the map. */
    twostate lemma Dropped(id: nat)
      requires old(Valid()) && id in old(m) && m == old(m) - {id} && messages == old(messages)
      requires forall k :: k in m ==> Kept(m[k])
      ensures Valid() && Tracked() == old(Tracked()) - {id} && Parts() <= old(Parts())
    {
      hide Message.View, Message.Valid, Message.Footprint;
      forall k | k in m
        ensures m[k].Footprint() == old(m[k].Footprint()) && Sound(k)
      {
        assert old(Sound(k));
      }
      PartsShrink();
    }

    /** A new entry joined the map. */
    twostate lemma Joined(id: nat)
      requires old(Valid()) && id !in old(m) && id in m && m == old(m)[id := m[id]] && messages == old(messages)
      requires forall k :: k in old(m) ==> Kept(old(m)[k])
      requires m[id] !in messages && forall k :: k in old(m) ==> Apart(old(m)[k], m[id])
      requires m[id].Valid() && m[id].packets != [] && KeyOf(m[id].View()) == id
      ensures Valid() && Tracked() == old(Tracked())[id := m[id].View()]
    {
      hide Message.View, Message.Valid, Message.Footprint, KeyOf, Apart;
      forall k | k in old(m)
        ensures k in m && m[k] == old(m)[k] && m[k].Footprint() == old(m[k].Footprint()) && Sound(k)
      {
        assert old(Sound(k));
      }
      forall k | k in old(m)
        ensures m[k].Footprint() !! m[id].Footprint()
      {
        ApartFootprints(m[k], m[id]);
      }
      JoinedSeparate(id);
    }

    twostate lemma JoinedParts(id: nat)
      requires id in m && m == old(m)[id := m[id]] && forall k :: k in old(m) ==> Kept(old(m)[k])
      ensures forall o :: o in Parts() ==> o in old(Parts()) || o in m[id].Footprint()
    {
      hide Message.View, Message.Valid, Message.Footprint;
      forall o | o in Parts()
        ensures o in old(Parts()) || o in m[id].Footprint()
      {
        var x :| x in m.Values && o in x.Footprint();
        var k :| k in m && m[k] == x;
        if k != id {
          assert old(m)[k] == x && x.Footprint() == old(x.Footprint());
          assert x in old(m).Values;
        }
      }
    }

    twostate lemma JoinedSeparate(id: nat)
      requires old(Separate()) && id !in old(m) && id in m && m == old(m)[id := m[id]] && messages == old(messages)
      requires forall k :: k in old(m) ==>
                 m[k].Footprint() == old(m[k].Footprint()) && m[k].Footprint() !! m[id].Footprint()
      requires m[id] !in messages
      ensures Separate()
    {
      hide Message.Footprint;
    }

    lemma PartsAllocated()
      ensures forall o :: o in Parts() ==> allocated(o)
    {
      forall o | o in Parts()
        ensures allocated(o)
      {
        var x :| x in m.Values && o in x.Footprint();
        assert o == x || (exists p :: p in x.packets && p == o) || o == x.feedback;
      }
    }

    twostate lemma PartsOld()
      ensures forall o :: o in old(Parts()) ==> !fresh(o)
    {
      forall o | o in old(Parts())
        ensures !fresh(o)
      {
        var x :| x in old(m).Values && o in old(x.Footprint());
        assert o == x || (exists p :: p in old(x.packets) && p == o) || o == old(x.feedback);
      }
    }

    /** Only the message under `id` changed, and it took in only objects no message had. */
    twostate lemma Updated(id: nat)
      requires old(Separate()) && m == old(m) && messages == old(messages) && id in m
      requires OthersKept(id)
      requires forall o :: o in m[id].Footprint() ==> o in old(m[id].Footprint()) || o !in old(Parts())
      ensures Separate()
      ensures Tracked() == old(Tracked())[id := m[id].View()]
      ensures forall k :: k in m && k != id && old(Sound(k)) ==> Sound(k)
      ensures forall o :: o in Parts() ==> o in old(Parts()) || o in m[id].Footprint()
    {
      hide Message.View, Message.Valid, Message.Footprint;
      UpdatedParts(id);
      forall k | k in m && k != id
        ensures m[k].Footprint() !! m[id].Footprint() && m[k].Footprint() == old(m[k].Footprint())
      {
        OtherPart(k);
        assert m[k].Footprint() == old(m[k].Footprint());
        assert old(m[k].Footprint() !! m[id].Footprint());
      }
    }

    twostate lemma OtherPart(k: nat)
      requires m == old(m) && k in m
      ensures forall o :: o in old(m[k].Footprint()) ==> o in old(Parts())
    {
      hide Message.Footprint;
      assert m[k] in old(m).Values;
    }

    twostate lemma UpdatedParts(id: nat)
      requires m == old(m) && id in m && OthersKept(id)
      ensures forall o :: o in Parts() ==> o in old(Parts()) || o in m[id].Footprint()
    {
      hide Message.View, Message.Valid, Message.Footprint;
      forall o | o in Parts()
        ensures o in old(Parts()) || o in m[id].Footprint()
      {
        var x :| x in m.Values && o in x.Footprint();
        var k :| k in m && m[k] == x;
        if k != id {
          assert x.Footprint() == old(x.Footprint());
          assert x in old(m).Values;
        }
      }
    }

    /** The entry under `id` left the map for the channel. */
    twostate lemma Removed(id: nat)
      requires old(Valid()) && id in old(m)
      requires m == old(m) - {id} && messages == old(messages) + [old(m)[id]]
      requires OthersKept(id)
      ensures Valid()
      ensures Tracked() == old(Tracked()) - {id} && Parts() <= old(Parts())
    {
      hide Message.View, Message.Valid, Message.Footprint;
      forall k | k in m
        ensures m[k].Footprint() == old(m[k].Footprint()) && Sound(k) && m[k] !in messages
      {
        assert old(Sound(k));
        assert old(m[k].Footprint() !! m[id].Footprint());
      }
      PartsShrink();
    }

    constructor (cfg: Config)
      ensures Valid() && View() == INIT && this.cfg == cfg && m == map[] && messages == []
    {
      this.cfg := cfg;
      m, messages, emitted, expired, duplicates := map[], [], [], [], [];
    }

    lemma AllApart(id: nat)
      requires Separate() && id in m
      ensures forall k :: k in m && k != id ==> Apart(m[k], m[id])
    {
      forall k | k in m && k != id
        ensures Apart(m[k], m[id])
      {
        ApartFootprints(m[k], m[id]);
      }
    }

    /** `delete(parser.m, m.packets[0].MessageID())` needs the ID; asking for it changes nothing. */
    method FirstKey(msg: Message, ghost id: nat) returns (key: nat)
      requires Valid() && id in m && m[id] == msg
      modifies msg.packets
      ensures Valid() && Tracked() == old(Tracked()) && key == id == KeyOf(msg.View()) && msg.View() == old(msg.View())
      ensures Parts() == old(Parts())
    {
      hide Message.View, Message.Footprint, Message.Valid, MessageId, KeyOf;
      assert Sound(id);
      AllApart(id);
      key := msg.FirstID();
      forall k | k in m && k != id
        ensures Kept(m[k])
      {
        KeptBy(m[k]);
      }
      FootprintSame(msg);
      Updated(id);
      PartsSame();
    }

    /** `Emit`. */
    method Emit(msg: Message, ghost id: nat)
      requires Valid() && id in m && m[id] == msg
      modifies this`m, this`messages, this`emitted, msg.packets
      ensures Valid() && View() == Parser.Emit(old(View()), old(msg.View()))
      ensures m == old(m) - {id} && messages == old(messages) + [msg] && Parts() <= old(Parts())
    {
      hide Message.View, Valid, Tracked, KeyOf;
      var key := FirstKey(msg, id);
      Send(msg, key);
    }

    /** `parser.End(m)` on a tracked message. */
    method Hint(msg: Message, ghost id: nat) returns (full: bool)
      requires Valid() && id in m && m[id] == msg
      modifies msg`feedback, msg.feedback
      ensures Valid() && msg.packets == old(msg.packets)
      ensures (msg.View(), full) == EndHint(old(msg.View()))
      ensures Tracked() == old(Tracked())[id := msg.View()]
      ensures forall o :: o in Parts() ==> o in old(Parts()) || fresh(o)
    {
      hide Message.View, Message.Footprint, Message.Valid, EndHint;
      PartOf(id);
      assert Sound(id);
      AllApart(id);
      ViewPackets(msg);
      HintKey(msg.View());
      full := EndHintOn(msg);
      forall k | k in m && k != id
        ensures Kept(m[k])
      {
        KeptBy(m[k]);
      }
      FootprintGrows(msg);
      PartsOld();
      Updated(id);
    }

    /** `m.add` on a tracked message, or on the new one under `id`. */
    method AddTo(msg: Message, ghost id: nat, pckt: Packet) returns (added: bool)
      requires Separate() && id in m && m[id] == msg && msg.Valid()
      requires forall k :: k in m && k != id ==> Sound(k)
      requires msg.packets != [] ==> KeyOf(msg.View()) == id
      requires pckt.Valid() && pckt !in Parts() && MessageId(pckt.View()) == id
      modifies msg`packets, msg`Length, msg`LostData, msg`End
      ensures Valid()
      ensures added == !HasSeq(old(msg.View().packets), pckt.Seq)
      ensures msg.View() == Add(old(msg.View()), pckt.View())
      ensures Tracked() == old(Tracked())[id := msg.View()]
      ensures msg.feedback == old(msg.feedback) && forall p :: p in msg.packets ==> p in old(msg.packets) || p == pckt
      ensures forall o :: o in Parts() ==> o in old(Parts()) || o == pckt
    {
      hide Message.View, Message.Footprint, Message.Valid, Packet.View, Packet.Valid, Add, HasSeq, MessageId, KeyOf;
      AllApart(id);
      PartOf(id);
      ViewPackets(msg);
      AddKey(msg.View(), pckt.View(), id);
      ViewOf(msg, pckt);
      added := msg.Add(pckt);
      forall k | k in m && k != id
        ensures Kept(m[k])
      {
        KeptBy(m[k]);
      }
      FootprintGained(msg, pckt);
      Updated(id);
      ViewPackets(msg);
    }

    /** The entry under `key` leaves the map; its message is held by the caller alone. */
    method Detach(msg: Message, key: nat)
      requires Valid() && key in m && m[key] == msg
      modifies this`m
      ensures Valid() && Tracked() == old(Tracked()) - {key} && m == old(m) - {key} && Parts() <= old(Parts())
      ensures Loose(msg) && msg.Valid() && msg.packets != []
    {
      hide Message.View, Message.Footprint, Message.Valid, Tracked, KeyOf;
      assert Sound(key);
      AllApart(key);
      m := m - {key};
      forall k | k in m
        ensures Kept(m[k])
      {
        KeptBy(m[k]);
      }
      Dropped(key);
    }

    /** `msg` shares nothing with the tracked messages and was not sent. */
    ghost predicate Loose(msg: Message)
      reads this, m.Values, msg
    {
      msg !in messages && forall k :: k in m ==> Apart(m[k], msg)
    }

    /** The Acks move, and with them the ID of the first packet. */
    method ShiftLoose(msg: Message) returns (key: nat)
      requires Valid() && Loose(msg) && msg.Valid() && msg.packets != []
      modifies msg.packets
      ensures Valid() && Tracked() == old(Tracked()) && Loose(msg) && msg.Valid()
      ensures Parts() == old(Parts()) && msg.Footprint() == old(msg.Footprint())
      ensures msg.View() == Rekeyed(old(msg.View())) && key == KeyOf(msg.View())
    {
      hide Message.View, Message.Footprint, Message.Valid, Tracked, KeyOf, Rekeyed;
      msg.ShiftAcks();
      key := msg.FirstID();
      forall k | k in m
        ensures Kept(m[k])
      {
        KeptBy(m[k]);
      }
      Undisturbed();
      FootprintSame(msg);
    }

    method Attach(msg: Message, key: nat)
      requires Valid() && Loose(msg) && msg.Valid() && msg.packets != []
      requires key == KeyOf(msg.View()) && key !in m
      modifies this`m
      ensures Valid() && Tracked() == old(Tracked())[key := msg.View()] && m == old(m)[key := msg]
      ensures forall o :: o in Parts() ==> o in old(Parts()) || o in old(msg.Footprint())
    {
      hide Message.View, Message.Footprint, Message.Valid, Tracked, KeyOf;
      m := m[key := msg];
      forall k | k in old(m)
        ensures Kept(old(m)[k])
      {
        KeptBy(old(m)[k]);
      }
      KeptBy(msg);
      Joined(key);
      JoinedParts(key);
    }

    /** `Fix100Continue`, where no other message is tracked under the shifted ID. */
    method Fix100Continue(msg: Message, ghost id: nat)
      requires Valid() && id in m && m[id] == msg
      requires !Merges(Tracked(), msg.View())
      modifies this`m, msg.packets
      ensures Valid() && View() == Parser.Fix100Continue(old(View()), old(msg.View()))
      ensures Parts() <= old(Parts())
    {
      hide Message.View, Message.Footprint, Message.Valid, Valid, Tracked, KeyOf, Rekeyed, Parts;
      ViewContinue(msg);
      PartOf(id);
      if msg.feedback != null && msg.feedback.Continue100 {
        var key := FirstKey(msg, id);
        Detach(msg, key);
        TrackedKeys();
        var next := ShiftLoose(msg);
        Attach(msg, next);
      }
    }

    method Send(msg: Message, key: nat)
      requires Valid() && key in m && m[key] == msg
      modifies this`m, this`messages, this`emitted
      ensures Valid()
      ensures View() == old(View()).(tracked := old(Tracked()) - {key}, emitted := old(emitted) + [msg.View()])
      ensures m == old(m) - {key} && messages == old(messages) + [msg] && Parts() <= old(Parts())
    {
      hide Message.View, Message.Footprint, Message.Valid, Valid, Tracked;
      m := m - {key};
      messages := messages + [msg];
      emitted := emitted + [msg.View()];
      forall k | k in m
        ensures Kept(m[k])
      {
        KeptBy(m[k]);
      }
      Removed(key);
    }

    ghost method Skip(p: Pkt)
      requires Valid()
      modifies this`duplicates
      ensures Valid() && View() == old(View()).(duplicates := old(duplicates) + [p]) && Parts() == old(Parts())
    {
      hide Valid, Tracked;
      duplicates := duplicates + [p];
      forall k | k in m
        ensures Kept(m[k])
      {
        KeptBy(m[k]);
      }
      Undisturbed();
    }

    /** `addPacket`. */
    method AddPacket(msg: Message, ghost id: nat, pckt: Packet)
      requires Separate() && id in m && m[id] == msg && msg.Valid()
      requires forall k :: k in m && k != id ==> Sound(k)
      requires msg.packets != [] ==> KeyOf(msg.View()) == id
      requires pckt.Valid() && pckt !in Parts() && MessageId(pckt.View()) == id
      requires !AddMerges(Tracked(), id, msg.View(), pckt.View())
      modifies this`m, this`messages, this`emitted, this`duplicates, msg, msg.packets, msg.feedback, pckt
      ensures Valid() && View() == Parser.AddPacket(old(View()), id, old(msg.View()), old(pckt.View()))
      ensures forall o :: o in Parts() ==> o in old(Parts()) || o == pckt || fresh(o)
    {
      hide Message.View, Message.Footprint, Message.Valid, Packet.View, Packet.Valid, Add, HasSeq, MessageId, KeyOf,
           Valid, Tracked, Separate, Parts, EndHint, Merges, AddMerges, Parser.Fix100Continue;
      ghost var v, p := msg.View(), pckt.View();
      ViewOf(msg, pckt);
      var added := AddTo(msg, id, pckt);
      if !added {
        AddSame(v, p);
        Skip(p);
        return;
      }
      AddKey(v, p, id);
      NoMerge(old(Tracked()), id, v, p);
      ghost var before: map<nat, Msg> := old(Tracked());
      var full := Hint(msg, id);
      assert before[id := Add(v, p)][id := msg.View()] == before[id := msg.View()];
      assert forall i :: 0 <= i < |msg.packets| ==> msg.packets[i] == pckt || msg.packets[i] in old(msg.packets);
      if full {
        Emit(msg, id);
      } else {
        Fix100Continue(msg, id);
      }
    }

    /** The direction a tracked message gets from the packet, if it has none yet. */
    method Direct(msg: Message, ghost id: nat, pckt: Packet)
      requires Valid() && id in m && m[id] == msg
      modifies msg`Direction
      ensures Valid() && unchanged(this) && Parts() == old(Parts())
      ensures msg.View() == var v := old(msg.View());
                            if v.direction == DirUnknown then v.(direction := StartHint(pckt.View())) else v
      ensures Tracked() == old(Tracked())[id := msg.View()]
    {
      hide Message.View, Message.Footprint, Message.Valid, StartHint, KeyOf;
      assert Sound(id);
      AllApart(id);
      ViewFields(msg);
      DirectionKey(msg.View());
      if msg.Direction == DirUnknown {
        var hint := StartHintOn(pckt);
        if hint != DirUnknown {
          msg.SetDirection(hint);
        }
      }
      forall k | k in m && k != id
        ensures Kept(m[k])
      {
        KeptBy(m[k]);
      }
      FootprintSameParts(msg);
      Updated(id);
      PartsSame();
    }

    /** `parser.m[id] = new(Message)`: the new message is in the map before its first packet. */
    method Open(id: nat, direction: Dir, start: nat) returns (msg: Message)
      requires Valid() && id !in m
      modifies this`m
      ensures fresh(msg) && msg.Valid() && msg.packets == [] && msg.feedback == null
      ensures m == old(m)[id := msg] && Separate() && forall k :: k in m && k != id ==> Sound(k)
      ensures msg.View() == Msg([], FRESH, 0, 0, start, 0, direction, false)
      ensures Tracked() == old(Tracked())[id := msg.View()]
      ensures forall o :: o in Parts() ==> o in old(Parts()) || fresh(o)
    {
      hide Message.View, Message.Valid, KeyOf;
      PartsOld();
      msg := new Message(direction, start);
      m := m[id := msg];
      forall k | k in old(m)
        ensures Kept(old(m)[k])
      {
        KeptBy(old(m)[k]);
      }
      Opened(id);
    }

    twostate lemma OpenedTracked(id: nat)
      requires id !in old(m) && id in m && m == old(m)[id := m[id]]
      requires forall k :: k in old(m) ==> Kept(old(m)[k])
      ensures Tracked() == old(Tracked())[id := m[id].View()]
    {
      hide Message.View, Message.Footprint, Message.Valid;
      forall k | k in old(m)
        ensures k in m && m[k] == old(m)[k] && m[k].View() == old(m[k].View())
      {
        assert Kept(old(m)[k]);
      }
    }

    /** A message without packets joined the map. */
    twostate lemma Opened(id: nat)
      requires old(Valid()) && id !in old(m) && id in m && m == old(m)[id := m[id]] && messages == old(messages)
      requires forall k :: k in old(m) ==> Kept(old(m)[k])
      requires fresh(m[id]) && m[id].packets == [] && m[id].feedback == null
      ensures Separate() && forall k :: k in m && k != id ==> Sound(k)
      ensures Tracked() == old(Tracked())[id := m[id].View()]
      ensures forall o :: o in Parts() ==> o in old(Parts()) || fresh(o)
    {
      hide Message.View, Message.Valid, KeyOf, Tracked;
      OpenedTracked(id);
      PartsOld();
      assert m[id].Footprint() == {m[id]};
      forall k | k in old(m)
        ensures k in m && m[k] == old(m)[k] && m[k].Footprint() == old(m[k].Footprint()) && Sound(k)
        ensures m[k].Footprint() !! m[id].Footprint()
      {
        assert old(Sound(k));
        assert old(m[k]) in old(m).Values;
        assert forall o :: o in old(m[k].Footprint()) ==> o in old(Parts());
      }
    }

    /** The two cases of `processPacket`. */
    method ProcessKnown(pckt: Packet, id: nat)
      requires Valid() && pckt.Valid() && pckt !in Parts() && id == MessageId(pckt.View()) && id in m
      requires !ProcessMerges(View(), pckt.View())
      modifies this`m, this`messages, this`emitted, this`duplicates, m[id], m[id].packets, m[id].feedback, pckt
      ensures Valid() && View() == Parser.ProcessPacket(old(View()), old(pckt.View()))
      ensures forall o :: o in Parts() ==> o in old(Parts()) || o == pckt || fresh(o)
    {
      hide Message.View, Message.Footprint, Message.Valid, Packet.View, Packet.Valid, MessageId, StartHint, KeyOf,
           AddMerges, Parser.AddPacket, Tracked, Separate, Parts, Apart;
      var msg := m[id];
      ghost var st, p := View(), pckt.View();
      TrackedAt(id);
      Direct(msg, id, pckt);
      OverwritesAdd(st, id, msg.View(), msg.View(), p);
      assert Sound(id);
      AddPacket(msg, id, pckt);
    }

    method ProcessNew(pckt: Packet, id: nat)
      requires Valid() && pckt.Valid() && pckt !in Parts() && id == MessageId(pckt.View()) && id !in m
      requires !ProcessMerges(View(), pckt.View())
      modifies this`m, this`messages, this`emitted, this`duplicates, pckt
      ensures Valid() && View() == Parser.ProcessPacket(old(View()), old(pckt.View()))
      ensures forall o :: o in Parts() ==> o in old(Parts()) || o == pckt || fresh(o)
    {
      hide Message.View, Message.Footprint, Message.Valid, Packet.View, Packet.Valid, MessageId, StartHint, KeyOf,
           AddMerges, Parser.AddPacket, Tracked, Separate, Parts, Apart, Valid;
      ghost var st, p := View(), pckt.View();
      TrackedKeys();
      DirectionNotInId(p, StartHint(p));
      Hinted(pckt);
      var msg := Open(id, pckt.Direction, pckt.Timestamp);
      OverwritesAdd(st, id, msg.View(), msg.View(), pckt.View());
      AddPacket(msg, id, pckt);
    }

    /** `pckt.Direction` from the start hint; the packet belongs to no message yet. */
    method Hinted(pckt: Packet)
      requires Valid() && pckt.Valid() && pckt !in Parts()
      modifies pckt`Direction
      ensures Valid() && View() == old(View()) && pckt !in Parts() && pckt.Valid()
      ensures pckt.View() == var p := old(pckt.View());
                             if p.direction == DirUnknown then p.(direction := StartHint(p)) else p
      ensures pckt.Direction == pckt.View().direction && pckt.Timestamp == pckt.View().time
    {
      hide Message.View, Message.Footprint, Message.Valid, StartHint, KeyOf, Tracked, Packet.Valid, MessageId;
      if pckt.Direction == DirUnknown {
        var hint := StartHintOn(pckt);
        if hint != DirUnknown {
          pckt.Mark(hint);
        }
      }
      forall k | k in m
        ensures Kept(m[k])
      {
        OutsideOf(k, pckt);
        KeptBy(m[k]);
      }
      Undisturbed();
    }

    lemma OutsideOf(k: nat, pckt: Packet)
      requires k in m && pckt !in Parts()
      ensures pckt !in m[k].packets
    {
      PartOf(k);
    }

    /** `processPacket`, where it does not come to a merge in `Fix100Continue`. */
    method ProcessPacket(pckt: Packet)
      requires Valid() && pckt.Valid() && pckt !in Parts()
      requires !ProcessMerges(View(), pckt.View())
      modifies this`m, this`messages, this`emitted, this`duplicates, Parts(), pckt
      ensures Valid() && View() == Parser.ProcessPacket(old(View()), old(pckt.View()))
      ensures forall o :: o in Parts() ==> o in old(Parts()) || o == pckt || fresh(o)
    {
      hide Message.View, Message.Footprint, Message.Valid, MessageId, Packet.View, Packet.Valid, Tracked, ProcessMerges,
           Parser.ProcessPacket, Parts, Valid;
      var id := ArrivalID(pckt);
      if id in m {
        PartOf(id);
        ProcessKnown(pckt, id);
      } else {
        ProcessNew(pckt, id);
      }
    }

    method ArrivalID(pckt: Packet) returns (id: nat)
      requires Valid() && pckt.Valid() && pckt !in Parts()
      modifies pckt`messageID
      ensures Valid() && View() == old(View()) && Parts() == old(Parts())
      ensures id == MessageId(pckt.View()) && pckt.Valid() && pckt.View() == old(pckt.View())
    {
      hide Message.View, Message.Footprint, Message.Valid, MessageId, Packet.Valid, Tracked, KeyOf;
      id := pckt.MessageID();
      forall k | k in m
        ensures Kept(m[k])
      {
        OutsideOf(k, pckt);
        KeptBy(m[k]);
      }
      Undisturbed();
    }

    lemma TrackedAt(id: nat)
      requires id in m
      ensures id in Tracked() && Tracked()[id] == m[id].View()
    {
      hide Message.View;
    }

    /** The body of `timer`'s loop. */
    method TimeOutEntry(key: nat, now: nat)
      requires Valid() && key in m
      modifies this`m, this`messages, this`emitted, this`expired, m[key], m[key].packets
      ensures Valid() && View() == TimeOut(cfg, old(View()), now, key)
      ensures (m == old(m) || m == old(m) - {key}) && Parts() <= old(Parts())
    {
      hide Message.View, Message.Footprint, Message.Valid, KeyOf, Tracked, Valid, Parts, Separate;
      var msg := m[key];
      TrackedAt(key);
      ViewFields(msg);
      if now - msg.End > cfg.messageExpire {
        ghost var t := Tracked();
        MarkTimedOut(msg, key);
        MapDrop(t, key, msg.View());
        if cfg.allowIncomplete {
          Emit(msg, key);
        } else {
          ghost var v := msg.View();
          var id := FirstKey(msg, key);
          Detach(msg, id);
          Expire(v);
        }
      }
    }

    /** `timer`: the entries are visited in some order, which Go leaves open. */
    method Timer(now: nat) returns (ghost order: seq<nat>)
      requires Valid()
      modifies this`m, this`messages, this`emitted, this`expired, Parts()
      ensures Valid() && View() == Parser.Timer(cfg, old(View()), now, order) && Parts() <= old(Parts())
      ensures forall k :: k in order <==> k in old(m)
      ensures forall i, j :: 0 <= i < j < |order| ==> order[i] != order[j]
    {
      hide Valid, View, Parts, TimeOut;
      order := [];
      var keys := m.Keys;
      while keys != {}
        invariant Valid() && View() == Parser.Timer(cfg, old(View()), now, order)
        invariant Parts() <= old(Parts())
        invariant keys <= m.Keys
        invariant forall k :: k in order || k in keys <==> k in old(m)
        invariant forall k :: k in order ==> k !in keys
        invariant forall i, j :: 0 <= i < j < |order| ==> order[i] != order[j]
        decreases keys
      {
        var key :| key in keys;
        PartOf(key);
        TimeOutEntry(key, now);
        assert (order + [key])[..|order|] == order;
        order := order + [key];
        keys := keys - {key};
      }
    }

    method MarkTimedOut(msg: Message, key: nat)
      requires Valid() && key in m && m[key] == msg
      modifies msg`TimedOut
      ensures Valid() && msg.View() == old(msg.View()).(timedOut := true) && KeyOf(msg.View()) == key
      ensures Tracked() == old(Tracked())[key := msg.View()] && Parts() == old(Parts())
    {
      hide Message.View, Message.Footprint, Message.Valid, KeyOf;
      assert Sound(key);
      AllApart(key);
      DirectionKey(msg.View());
      msg.SetTimedOut();
      forall k | k in m && k != key
        ensures Kept(m[k])
      {
        KeptBy(m[k]);
      }
      FootprintSameParts(msg);
      Updated(key);
      PartsSame();
    }

    ghost method Expire(v: Msg)
      requires Valid()
      modifies this`expired
      ensures Valid() && View() == old(View()).(expired := old(expired) + [v]) && Parts() == old(Parts())
    {
      hide Valid, Tracked;
      expired := expired + [v];
      forall k | k in m
        ensures Kept(m[k])
      {
        KeptBy(m[k]);
      }
      Undisturbed();
    }
  }

  /** `AddPacket` stores the message itself, so what was stored before does not matter. */
  lemma OverwritesAdd(st: State, id: nat, x: Msg, m: Msg, p: Pkt)
    ensures AddPacket(st.(tracked := st.tracked[id := x]), id, m, p) == AddPacket(st, id, m, p)
    ensures AddMerges(st.tracked[id := x], id, m, p) == AddMerges(st.tracked, id, m, p)
  {
    hide HasSeq, EndHint, Add, MessageId, Merges, Parser.Fix100Continue;
    MapTwice(st.tracked, id, x, m);
    AddNonEmpty(m, p);
    MapTwice(st.tracked, id, x, EndHint(Add(m, p)).0);
  }

  lemma AddNonEmpty(m: Msg, p: Pkt)
    ensures Add(m, p).packets != []
  {}

  lemma MapDrop(t: map<nat, Msg>, id: nat, x: Msg)
    ensures t[id := x] - {id} == t - {id} && t - {id} - {id} == t - {id}
  {}

  lemma MapTwice(t: map<nat, Msg>, id: nat, x: Msg, y: Msg)
    ensures t[id := x][id := y] == t[id := y]
  {}

  /** `http1StartHint`. */
  method StartHintOn(pckt: Packet) returns (d: Dir)
    ensures d == StartHint(pckt.View())
  {
    hide HasRequestTitle, HasResponseTitle;
    if HasRequestTitle(pckt.Payload) {
      return DirIncoming;
    }
    if HasResponseTitle(pckt.Payload) {
      return DirOutcoming;
    }
    d := DirUnknown;
  }

  twostate lemma FootprintSameParts(x: Message)
    requires x.packets == old(x.packets) && x.feedback == old(x.feedback)
    ensures x.Footprint() == old(x.Footprint())
  {}

  lemma ViewFields(x: Message)
    ensures x.View().direction == x.Direction && x.View().end == x.End
    ensures x.View().(direction := x.Direction) == x.View()
  {
    hide Views, HTTPState.View;
  }

  lemma DirectionKey(v: Msg)
    ensures forall d :: KeyOf(v.(direction := d)) == KeyOf(v)
    ensures forall late :: KeyOf(v.(timedOut := late)) == KeyOf(v)
  {
    hide MessageId;
  }

  lemma ViewContinue(x: Message)
    ensures x.View().framing.continue100 <==> x.feedback != null && x.feedback.Continue100
  {
    hide Views;
  }

  lemma ViewOf(x: Message, p: Packet)
    ensures x.View().packets == Views(x.packets) && p.View().seqNo == p.Seq
  {
    hide Views, HTTPState.View;
  }

  lemma AddSame(v: Msg, p: Pkt)
    requires HasSeq(v.packets, p.seqNo)
    ensures Add(v, p) == v
  {}

  twostate lemma FootprintGained(x: Message, new p: Packet)
    requires x.feedback == old(x.feedback) && forall q :: q in x.packets ==> q in old(x.packets) || q == p
    ensures forall o :: o in x.Footprint() ==> o in old(x.Footprint()) || o == p
  {}

  lemma ViewPackets(x: Message)
    ensures |x.View().packets| == |x.packets|
  {
    hide Views, HTTPState.View;
  }

  twostate lemma FootprintGrows(x: Message)
    requires x.packets == old(x.packets) && (x.feedback == old(x.feedback) || fresh(x.feedback))
    ensures forall o :: o in x.Footprint() ==> o in old(x.Footprint()) || fresh(o)
  {}

  twostate lemma FootprintSame(x: Message)
    requires unchanged(x)
    ensures x.Footprint() == old(x.Footprint())
  {}
}
