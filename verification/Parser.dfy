/** tcp_message.go: the message parser as a state machine over its two atomic steps, one packet and one
    tick of the timer, with the HTTP hints of ip_listener.go. */
module Parser {
  import opened Packets
  import opened Titles
  import opened FullPayload
  import opened Messages

  datatype Config = Config(messageExpire: nat, allowIncomplete: bool)

  /** The map of tracked messages, and logs of what left it: the messages sent to the channel, the
      messages dropped by the timer and the packets skipped as duplicates. */
  datatype State = State(
    tracked: map<nat, Msg>,
    emitted: seq<Msg>,
    expired: seq<Msg>,
    duplicates: seq<Pkt>)

  const INIT := State(map[], [], [], [])

  /** One turn of the `select` loop. A tick carries the order in which Go ranges over the map. */
  datatype Event = Arrive(pckt: Pkt) | Tick(now: nat, order: seq<nat>)

  /** The map key a message is removed by: the ID of its first packet. */
  function KeyOf(m: Msg): nat {
    if m.packets == [] then 0 else MessageId(m.packets[0])
  }

  // ----- the hints ----------------------------------------------------------------------------

  /** `http1StartHint` as the direction it leads to. */
  function StartHint(p: Pkt): Dir {
    if HasRequestTitle(p.payload) then DirIncoming
    else if HasResponseTitle(p.payload) then DirOutcoming
    else DirUnknown
  }

  /** `http1EndHint`: the message with its protocol state after the call, and the answer. */
  function EndHint(m: Msg): (Msg, bool)
    requires m.packets != []
  {
    if MissingChunk(m.packets) then (m, false)
    else
      var (framing, full) := Check(m.framing, Payloads(m.packets));
      (m.(framing := framing), full)
  }

  // ----- packets ------------------------------------------------------------------------------

  function ShiftAll(ps: seq<Pkt>): (r: seq<Pkt>)
    ensures |r| == |ps|
  {
    seq(|ps|, i requires 0 <= i < |ps| => Shifted(ps[i]))
  }

  function Rekeyed(m: Msg): Msg {
    m.(packets := ShiftAll(m.packets))
  }

  function Emit(st: State, m: Msg): State {
    st.(tracked := st.tracked - {KeyOf(m)}, emitted := st.emitted + [m])
  }

  /** The merge of `Fix100Continue` with the message `next` it finds under the shifted ID, when that is a
      single packet which completes `m` or is there already: `m` is put back into the map even if it
      has just been sent. (Longer merges shift the Acks again for every packet; see the README.) */
  function MergeNext(st: State, m: Msg, next: Msg): State {
    if |next.packets| == 1 && !HasSeq(m.packets, next.packets[0].seqNo)
       && Add(m, next.packets[0]).packets != [] && EndHint(Add(m, next.packets[0])).1 then
      var grown := EndHint(Add(m, next.packets[0])).0;
      var sent := Emit(st, grown);
      sent.(tracked := sent.tracked[KeyOf(grown) := grown])
    else
      st.(tracked := st.tracked[KeyOf(m) := m])
  }

  /** `Fix100Continue` finds another message under the shifted ID. */
  predicate Merges(tracked: map<nat, Msg>, m: Msg) {
    m.framing.continue100 && KeyOf(Rekeyed(m)) in tracked - {KeyOf(m)}
  }

  /** `Fix100Continue`: the message moves to the ID its Acks have once shifted. */
  function Fix100Continue(st: State, m: Msg): State {
    if !m.framing.continue100 then st
    else
      var rest := st.tracked - {KeyOf(m)};
      var moved := Rekeyed(m);
      if KeyOf(moved) in rest then MergeNext(st.(tracked := rest), moved, rest[KeyOf(moved)])
      else st.(tracked := rest[KeyOf(moved) := moved])
  }

  /** `addPacket` on the message `m` stored under `id`. */
  function AddPacket(st: State, id: nat, m: Msg, p: Pkt): State {
    if HasSeq(m.packets, p.seqNo) then
      st.(tracked := st.tracked[id := m], duplicates := st.duplicates + [p])
    else
      var (m1, full) := EndHint(Add(m, p));
      var st1 := st.(tracked := st.tracked[id := m1]);
      if full then Emit(st1, m1) else Fix100Continue(st1, m1)
  }

  /** Adding `p` leaves `m` incomplete and asking for a 100-continue: `Fix100Continue` moves it. */
  predicate AddShifts(m: Msg, p: Pkt) {
    && !HasSeq(m.packets, p.seqNo) && Add(m, p).packets != []
    && var (m1, full) := EndHint(Add(m, p));
    !full && m1.framing.continue100
  }

  /** The ID it moves to. */
  function ShiftedKey(m: Msg, p: Pkt): nat
    requires Add(m, p).packets != []
  {
    KeyOf(Rekeyed(EndHint(Add(m, p)).0))
  }

  /** Adding `p` to the message under `id` would make `Fix100Continue` merge two messages. */
  predicate AddMerges(tracked: map<nat, Msg>, id: nat, m: Msg, p: Pkt) {
    AddShifts(m, p) && var m1 := EndHint(Add(m, p)).0; Merges(tracked[id := m1], m1)
  }

  lemma NoMerge(tracked: map<nat, Msg>, id: nat, m: Msg, p: Pkt)
    requires !AddMerges(tracked, id, m, p) && !HasSeq(m.packets, p.seqNo) && Add(m, p).packets != []
    ensures var (m1, full) := EndHint(Add(m, p)); !full ==> !Merges(tracked[id := m1], m1)
  {
    hide EndHint, Add, HasSeq, KeyOf, Rekeyed;
  }

  function NewMessage(p: Pkt): Msg {
    Msg([], FRESH, 0, 0, p.time, 0, p.direction, false)
  }

  /** The message `p` joins and `p` as it joins it, with the direction marks the title gives them. */
  function Joining(st: State, p: Pkt): (Msg, Pkt) {
    var id := MessageId(p);
    if id in st.tracked then
      var m := st.tracked[id];
      (if m.direction == DirUnknown then m.(direction := StartHint(p)) else m, p)
    else
      var p1 := if p.direction == DirUnknown then p.(direction := StartHint(p)) else p;
      (NewMessage(p1), p1)
  }

  /** `processPacket`. */
  function ProcessPacket(st: State, p: Pkt): State {
    var (m, p1) := Joining(st, p);
    AddPacket(st, MessageId(p), m, p1)
  }

  /** Processing `p` makes `Fix100Continue` move a message. */
  predicate Shifts(st: State, p: Pkt) {
    var (m, p1) := Joining(st, p);
    AddShifts(m, p1)
  }

  /** Processing `p` would make `Fix100Continue` merge two messages. */
  predicate ProcessMerges(st: State, p: Pkt) {
    var (m, p1) := Joining(st, p);
    AddMerges(st.tracked, MessageId(p), m, p1)
  }

  /** No merge without a move. */
  lemma MergeShifts(st: State, p: Pkt)
    requires ProcessMerges(st, p)
    ensures Shifts(st, p)
  {
    hide AddShifts, Joining, Merges;
  }

  // ----- ticks --------------------------------------------------------------------------------

  predicate Overdue(cfg: Config, m: Msg, now: nat) {
    now - m.end > cfg.messageExpire
  }

  /** The body of `timer`'s loop on the entry under `key`, if it is still there. */
  function TimeOut(cfg: Config, st: State, now: nat, key: nat): State {
    if key !in st.tracked || !Overdue(cfg, st.tracked[key], now) then st
    else
      var m := st.tracked[key].(timedOut := true);
      var st1 := if cfg.allowIncomplete then Emit(st, m) else st.(expired := st.expired + [m]);
      st1.(tracked := st1.tracked - {KeyOf(m)})
  }

  function Timer(cfg: Config, st: State, now: nat, order: seq<nat>): State {
    if order == [] then st else TimeOut(cfg, Timer(cfg, st, now, order[..|order| - 1]), now, order[|order| - 1])
  }

  // ----- runs ---------------------------------------------------------------------------------

  function Step(cfg: Config, st: State, ev: Event): State {
    match ev
    case Arrive(p) => ProcessPacket(st, p)
    case Tick(now, order) => Timer(cfg, st, now, order)
  }

  function Run(cfg: Config, st: State, evs: seq<Event>): State {
    if evs == [] then st else Step(cfg, Run(cfg, st, evs[..|evs| - 1]), evs[|evs| - 1])
  }

  // ----- identities --------------------------------------------------------------------------

  lemma AddKey(m: Msg, p: Pkt, id: nat)
    requires MessageId(p) == id && (m.packets != [] ==> KeyOf(m) == id)
    ensures Add(m, p).packets != [] && KeyOf(Add(m, p)) == id
  {
    hide MessageId;
  }

  lemma HintKey(m: Msg)
    requires m.packets != []
    ensures EndHint(m).0.packets == m.packets && KeyOf(EndHint(m).0) == KeyOf(m)
    ensures Rekeyed(EndHint(m).0).packets != []
  {
    hide Check, MissingChunk, MessageId;
  }
}
