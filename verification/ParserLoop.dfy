/** tcp_message.go: the parser's loop over captured frames and ticks, tied to the laws of its runs. */
module ParserLoop {
  import opened Bytes
  import opened Packets
  import opened Parser
  import opened ParserLaws
  import opened ShiftLaws
  import PacketParser
  import opened ParserObject

  /** One turn of the `select` loop: a captured frame or a tick. */
  datatype Input =
    | Frame(data: seq<byte>, linkLen: nat, time: nat, length: int, captured: int, spare: nat)
    | Clock(now: nat)

  /** Where the listener expects requests. */
  datatype Listener = Listener(ports: seq<uint16>, ips: seq<seq<byte>>)

  const V4_IN_V6: seq<byte> := [0, 0, 0, 0, 0, 0, 0, 0, 0, 0, 0xff, 0xff]

  /** `IP.Equal`: an IPv4 address equals its IPv6 form. */
  predicate SameIP(a: seq<byte>, b: seq<byte>) {
    || a == b
    || (|a| == 4 && |b| == 16 && b == V4_IN_V6 + a)
    || (|a| == 16 && |b| == 4 && a == V4_IN_V6 + b)
  }

  /** Two addresses are the same exactly if their 16-byte forms are. */
  lemma SameForms(a: seq<byte>, b: seq<byte>)
    requires |a| in {4, 16} && |b| in {4, 16}
    ensures SameIP(a, b) <==> To16(a) == To16(b)
  {
    if |a| == 4 && |b| == 4 {
      assert To16(a)[12..] == a && To16(b)[12..] == b;
    }
  }

  /** The 16-byte form of an address: an IPv4 address behind ten zero bytes and two bytes 255. */
  function To16(ip: seq<byte>): seq<byte> {
    if |ip| == 4 then seq(10, _ => 0) + [255, 255] + ip else ip
  }

  predicate Addressed(l: Listener, p: Pkt) {
    p.dstPort in l.ports && exists i :: 0 <= i < |l.ips| && SameIP(p.dstIP, l.ips[i])
  }

  function Marked(l: Listener, p: Pkt): Pkt {
    if Addressed(l, p) then p.(direction := DirIncoming) else p
  }

  function ParsedFrame(f: Input): PacketParser.Result<Pkt>
    requires f.Frame?
  {
    PacketParser.Parse(f.data, f.linkLen, f.time, f.length, f.captured, f.spare, false)
  }

  /** `parsePacket`: what does not parse is dropped, and what is addressed to the listener is incoming. */
  function Heard(l: Listener, x: Input): seq<Event> {
    match x
    case Clock(now) => [Tick(now, [])]
    case Frame(_, _, _, _, _, _) =>
      match ParsedFrame(x)
      case Ok(p) => [Arrive(Marked(l, p))]
      case _ => []
  }

  function AllHeard(l: Listener, xs: seq<Input>): seq<Event> {
    if xs == [] then [] else AllHeard(l, xs[..|xs| - 1]) + Heard(l, xs[|xs| - 1])
  }

  /** An event without the order in which its tick ranged over the map. */
  function Unordered(ev: Event): Event {
    match ev
    case Arrive(p) => ev
    case Tick(now, _) => Tick(now, [])
  }

  function AllUnordered(evs: seq<Event>): (r: seq<Event>)
    ensures |r| == |evs|
  {
    if evs == [] then [] else AllUnordered(evs[..|evs| - 1]) + [Unordered(evs[|evs| - 1])]
  }

  lemma UnorderedPush(evs: seq<Event>, ev: Event)
    ensures AllUnordered(evs + [ev]) == AllUnordered(evs) + [Unordered(ev)]
  {
    assert (evs + [ev])[..|evs|] == evs;
  }

  lemma RunPush(cfg: Config, evs: seq<Event>, ev: Event)
    ensures Run(cfg, INIT, evs + [ev]) == Step(cfg, Run(cfg, INIT, evs), ev)
  {
    hide Step;
    assert (evs + [ev])[..|evs|] == evs;
  }

  /** The frames parse in finitely many steps. */
  predicate Finite(x: Input) {
    x.Frame? ==> !ParsedFrame(x).Endless?
  }

  /** Whatever the orders of the ticks, no two messages are merged. */
  ghost predicate NeverMerges(cfg: Config, l: Listener, xs: seq<Input>) {
    forall evs :: AllUnordered(evs) == AllHeard(l, xs) ==> Unmerged(cfg, INIT, evs)
  }

  /** The payloads have no Expect line. */
  predicate CalmInput(x: Input) {
    x.Frame? && ParsedFrame(x).Ok? ==> Calm(ParsedFrame(x).value)
  }

  method Mark(l: Listener, pckt: Packet)
    requires pckt.Valid()
    modifies pckt`Direction
    ensures pckt.Valid()
    ensures pckt.View() == Marked(l, old(pckt.View()))
  {
    hide Packet.Valid, SameIP;
    ghost var p := pckt.View();
    if pckt.DstPort in l.ports {
      for i := 0 to |l.ips|
        invariant pckt.Valid() && pckt.View() == p
        invariant forall j :: 0 <= j < i ==> !SameIP(p.dstIP, l.ips[j])
      {
        if SameIP(pckt.DstIP, l.ips[i]) {
          pckt.Mark(DirIncoming);
          break;
        }
      }
    }
  }

  /** `wait` on a new parser: at every end of input its map and logs are those of a run over the parsed
      frames and the ticks, each tick in some order of the map; and what every such run keeps, they keep. */
  method Wait(parser: MessageParser, l: Listener, xs: seq<Input>) returns (ghost evs: seq<Event>)
    requires parser.Valid() && parser.View() == INIT && parser.m == map[]
    requires forall i :: 0 <= i < |xs| ==> Finite(xs[i])
    requires NeverMerges(parser.cfg, l, xs)
    modifies parser
    ensures AllUnordered(evs) == AllHeard(l, xs)
    ensures parser.Valid() && parser.View() == Run(parser.cfg, INIT, evs)
    ensures SoundState(parser.View()) && Content(parser.View()) == Came(evs)
    ensures (forall i :: 0 <= i < |xs| ==> CalmInput(xs[i])) ==>
              Inv(parser.View()) && forall key :: Held(parser.View(), key) == Arrived(evs, key)
  {
    hide *;
    evs := [];
    NothingYet(parser, l);
    for i := 0 to |xs|
      invariant parser.Valid() && parser.View() == Run(parser.cfg, INIT, evs)
      invariant forall o :: o in parser.Parts() ==> fresh(o)
      invariant AllUnordered(evs) == AllHeard(l, xs[..i])
    {
      ghost var st := parser.View();
      ghost var before := evs;
      HeardPush(l, xs, i);
      match xs[i]
      case Clock(now) =>
        ghost var order := parser.Timer(now);
        evs := evs + [Tick(now, order)];
        Ticked(parser.cfg, l, before, now, order, st, xs[i]);
      case Frame(data, linkLen, time, length, captured, spare) =>
        FrameParses(xs[i]);
        ghost var parts := parser.Parts();
        parser.PartsAllocated();
        var pckt, err := PacketParser.ParsePacket(data, linkLen, time, length, captured, spare, false);
        if pckt != null {
          assert pckt !in parts && parser.Parts() == parts;
          Mark(l, pckt);
          assert parser.Parts() == parts && parser.Valid() && parser.View() == st;
          ghost var p := pckt.View();
          HeardIs(l, xs[i], p);
          NoMergeNow(parser.cfg, l, xs, i, before, p);
          parser.ProcessPacket(pckt);
          evs := evs + [Arrive(p)];
          Arrived1(parser.cfg, before, p, st);
        } else {
          assert parser.Parts() == parts;
          NotHeard(l, xs[i]);
        }
    }
    assert xs[..|xs|] == xs;
    NeverUnmerged(parser.cfg, l, xs, evs);
    RunSound(parser.cfg, evs);
    RunContent(parser.cfg, evs);
    if forall i :: 0 <= i < |xs| ==> CalmInput(xs[i]) {
      CalmHeard(l, xs, evs);
      CalmIsQuiet(parser.cfg, evs);
      RunKeeps(parser.cfg, evs);
      forall key
        ensures Held(parser.View(), key) == Arrived(evs, key)
      {
        RunConserves(parser.cfg, evs, key);
      }
    }
  }

  // ----- inputs that merge nothing ----------------------------------------------------------------

  lemma NeverUnmerged(cfg: Config, l: Listener, xs: seq<Input>, evs: seq<Event>)
    requires NeverMerges(cfg, l, xs) && AllUnordered(evs) == AllHeard(l, xs)
    ensures Unmerged(cfg, INIT, evs)
  {
    hide Unmerged, AllUnordered, AllHeard;
  }

  lemma UnmergedFront(cfg: Config, evs: seq<Event>, ev: Event)
    requires Unmerged(cfg, INIT, evs + [ev])
    ensures Unmerged(cfg, INIT, evs)
    ensures ev.Arrive? ==> !ProcessMerges(Run(cfg, INIT, evs), ev.pckt)
  {
    hide ProcessMerges, Run;
    assert (evs + [ev])[..|evs|] == evs;
  }

  lemma HeardOne(l: Listener, x: Input)
    ensures |Heard(l, x)| <= 1 && AllUnordered(Heard(l, x)) == Heard(l, x)
  {
    hide Addressed, PacketParser.Parse;
    var h := Heard(l, x);
    if h != [] {
      assert h == [] + [h[0]];
      UnorderedPush([], h[0]);
    }
  }

  lemma {:induction false} UnorderedJoin(a: seq<Event>, b: seq<Event>)
    ensures AllUnordered(a + b) == AllUnordered(a) + AllUnordered(b)
  {
    hide AllUnordered;
    if b == [] {
      assert a + b == a && AllUnordered(b) == [];
    } else {
      var front, ev := b[..|b| - 1], b[|b| - 1];
      UnorderedJoin(a, front);
      UnorderedPush(a + front, ev);
      UnorderedPush(front, ev);
      assert a + b == (a + front) + [ev] && b == front + [ev];
    }
  }

  /** Inputs that never merge do not merge on the way either. */
  lemma {:induction false} StillNever(cfg: Config, l: Listener, xs: seq<Input>, i: nat)
    requires NeverMerges(cfg, l, xs) && i <= |xs|
    ensures NeverMerges(cfg, l, xs[..i])
    decreases |xs| - i
  {
    hide AllHeard, AllUnordered, Heard, Unmerged;
    if i == |xs| {
      assert xs[..i] == xs;
    } else {
      StillNever(cfg, l, xs, i + 1);
      HeardPush(l, xs, i);
      HeardOne(l, xs[i]);
      var h := Heard(l, xs[i]);
      forall evs | AllUnordered(evs) == AllHeard(l, xs[..i])
        ensures Unmerged(cfg, INIT, evs)
      {
        UnorderedJoin(evs, h);
        if h == [] {
          assert evs + h == evs;
        } else {
          assert evs + h == evs + [h[0]];
          UnmergedFront(cfg, evs, h[0]);
        }
      }
    }
  }

  lemma NoMergeNow(cfg: Config, l: Listener, xs: seq<Input>, i: nat, evs: seq<Event>, p: Pkt)
    requires NeverMerges(cfg, l, xs) && i < |xs| && AllUnordered(evs) == AllHeard(l, xs[..i])
    requires Heard(l, xs[i]) == [Arrive(p)]
    ensures !ProcessMerges(Run(cfg, INIT, evs), p)
  {
    hide *;
    StillNever(cfg, l, xs, i + 1);
    HeardPush(l, xs, i);
    UnorderedPush(evs, Arrive(p));
    UnorderedArrival(p);
    NeverUnmerged(cfg, l, xs[..i + 1], evs + [Arrive(p)]);
    UnmergedFront(cfg, evs, Arrive(p));
  }

  lemma UnorderedArrival(p: Pkt)
    ensures Unordered(Arrive(p)) == Arrive(p)
  {}

  /** What is heard of calm inputs is calm. */
  lemma {:induction false} CalmHeard(l: Listener, xs: seq<Input>, evs: seq<Event>)
    requires AllUnordered(evs) == AllHeard(l, xs) && forall i :: 0 <= i < |xs| ==> CalmInput(xs[i])
    ensures CalmEvents(evs)
  {
    hide Calm, Heard, CalmInput;
    CalmAllHeard(l, xs);
    UnorderedAt(evs);
    forall i | 0 <= i < |evs| && evs[i].Arrive?
      ensures Calm(evs[i].pckt)
    {
      assert AllUnordered(evs)[i] == evs[i];
    }
  }

  lemma {:induction false} UnorderedAt(evs: seq<Event>)
    ensures forall i :: 0 <= i < |evs| ==> AllUnordered(evs)[i] == Unordered(evs[i])
  {
    hide Unordered;
    if evs != [] {
      UnorderedAt(evs[..|evs| - 1]);
    }
  }

  lemma {:induction false} CalmAllHeard(l: Listener, xs: seq<Input>)
    requires forall i :: 0 <= i < |xs| ==> CalmInput(xs[i])
    ensures CalmEvents(AllHeard(l, xs))
  {
    hide Calm, Heard, CalmInput;
    if xs != [] {
      CalmAllHeard(l, xs[..|xs| - 1]);
      CalmOne(l, xs[|xs| - 1]);
    }
  }

  lemma CalmOne(l: Listener, x: Input)
    requires CalmInput(x)
    ensures CalmEvents(Heard(l, x))
  {
    hide PacketParser.Parse, Addressed;
    if x.Frame? && ParsedFrame(x).Ok? {
      SameCalm(ParsedFrame(x).value, DirIncoming);
    }
  }

  /** Inputs without Expect lines never merge. */
  lemma CalmNeverMerges(cfg: Config, l: Listener, xs: seq<Input>)
    requires forall i :: 0 <= i < |xs| ==> CalmInput(xs[i])
    ensures NeverMerges(cfg, l, xs)
  {
    hide AllUnordered, AllHeard, Unmerged, CalmInput, CalmEvents;
    forall evs | AllUnordered(evs) == AllHeard(l, xs)
      ensures Unmerged(cfg, INIT, evs)
    {
      CalmHeard(l, xs, evs);
      CalmIsQuiet(cfg, evs);
      QuietUnmerged(cfg, INIT, evs);
    }
  }

  // ----- one turn ---------------------------------------------------------------------------------

  lemma NothingYet(parser: MessageParser, l: Listener)
    requires parser.m == map[]
    ensures parser.Parts() == {} && Run(parser.cfg, INIT, []) == INIT
    ensures AllUnordered([]) == [] && AllHeard(l, []) == []
  {}

  lemma HeardPush(l: Listener, xs: seq<Input>, i: nat)
    requires i < |xs|
    ensures AllHeard(l, xs[..i + 1]) == AllHeard(l, xs[..i]) + Heard(l, xs[i])
  {
    hide Heard;
    assert xs[..i + 1][..i] == xs[..i];
  }

  lemma Ticked(cfg: Config, l: Listener, evs: seq<Event>, now: nat, order: seq<nat>, st: State, x: Input)
    requires st == Run(cfg, INIT, evs) && x == Clock(now)
    ensures var evs1 := evs + [Tick(now, order)];
            && Run(cfg, INIT, evs1) == Timer(cfg, st, now, order)
            && AllUnordered(evs1) == AllUnordered(evs) + Heard(l, x)
  {
    hide Run, Timer, AllUnordered;
    RunPush(cfg, evs, Tick(now, order));
    UnorderedPush(evs, Tick(now, order));
  }

  lemma Arrived1(cfg: Config, evs: seq<Event>, p: Pkt, st: State)
    requires st == Run(cfg, INIT, evs)
    ensures var evs1 := evs + [Arrive(p)];
            && Run(cfg, INIT, evs1) == ProcessPacket(st, p)
            && AllUnordered(evs1) == AllUnordered(evs) + [Arrive(p)]
  {
    hide Run, ProcessPacket, AllUnordered;
    RunPush(cfg, evs, Arrive(p));
    UnorderedPush(evs, Arrive(p));
  }

  lemma FrameParses(x: Input)
    requires Finite(x) && x.Frame?
    ensures !PacketParser.Parse(x.data, x.linkLen, x.time, x.length, x.captured, x.spare, false).Endless?
  {
    hide PacketParser.Parse;
  }

  lemma HeardIs(l: Listener, x: Input, p: Pkt)
    requires x.Frame?
    requires var r := PacketParser.Parse(x.data, x.linkLen, x.time, x.length, x.captured, x.spare, false);
             r.Ok? && p == Marked(l, r.value)
    ensures Heard(l, x) == [Arrive(p)]
  {
    hide PacketParser.Parse, Addressed;
  }

  lemma SameCalm(p: Pkt, d: Dir)
    ensures Calm(p.(direction := d)) == Calm(p)
  {}

  lemma NotHeard(l: Listener, x: Input)
    requires x.Frame?
    requires !PacketParser.Parse(x.data, x.linkLen, x.time, x.length, x.captured, x.spare, false).Ok?
    ensures Heard(l, x) == []
  {
    hide PacketParser.Parse;
  }
}
