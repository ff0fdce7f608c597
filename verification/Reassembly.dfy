/** Whole-run reassembly: a request or a response delivered in any order, with repeats, between any other traffic, is
    emitted exactly once, when its last segment arrives, with its original bytes. */
module Reassembly {
  import opened Bytes
  import opened Packets
  import opened Titles
  import opened FullPayload
  import opened FullPayloadLaws
  import opened Messages
  import opened MessageLaws
  import opened StreamLaws
  import opened Parser
  import opened ParserLaws

  // ----- the request and its delivery -----------------------------------------------------------

  /** A segment as the client sent it: what `add` and the end hint look at, the rest left blank. */
  function Segment(seqNo: uint32, payload: seq<byte>): Pkt {
    Pkt(DirUnknown, 0, [], [], 0, 0, 0, seqNo, false, false, false, false, 0, 0, payload, 0)
  }

  /** The segment a packet carries, whenever and however it was captured. */
  function Bare(p: Pkt): Pkt {
    Segment(p.seqNo, p.payload)
  }

  /** Segment `i` ends in what the end hint takes for the end of a chunked body, and is not a header
      section alone. */
  predicate Marked(segs: seq<Pkt>, i: nat)
    requires i < |segs|
  {
    HasSuffix(segs[i].payload, EndMark(segs[0].payload)) &&
    (i == 0 ==> |segs[0].payload| > HeadersEnd(segs[0].payload))
  }

  /** The last segment ends the body, and none before it seems to: as many bytes as declared, or, when
      chunked, a mark at the end of the last segment only. */
  predicate Finishes(segs: seq<Pkt>)
    requires segs != []
  {
    var p := segs[0].payload;
    if SaysChunked(p) then forall i :: 0 <= i < |segs| ==> (Marked(segs, i) <==> i == |segs| - 1)
    else SumLength(segs) == HeadersEnd(p) + DeclaredLength(p)
  }

  /** A request or a response cut into the segments `segs`: the title and the header section are in the
      first segment, no later segment starts like an HTTP message, the last one finishes it, and no Seq
      wraps. */
  predicate HttpMessage(segs: seq<Pkt>) {
    && segs != []
    && (forall i :: 0 <= i < |segs| ==> segs[i] == Bare(segs[i]) && segs[i].payload != [])
    && Contiguous(segs) && Short(segs)
    && HasTitle(segs[0].payload) && HeadersEnd(segs[0].payload) != -1
    && !SaysContinue(segs[0].payload)
    && (forall i :: 1 <= i < |segs| ==> !HasTitle(segs[i].payload))
    && Finishes(segs)
  }

  predicate Request(segs: seq<Pkt>) {
    HttpMessage(segs) && HasRequestTitle(segs[0].payload)
  }

  predicate Response(segs: seq<Pkt>) {
    HttpMessage(segs) && !HasRequestTitle(segs[0].payload)
  }

  /** The side it was sent from, by its title: requests come in, responses go out. */
  function Side(segs: seq<Pkt>): Dir
    requires segs != []
  {
    if HasRequestTitle(segs[0].payload) then DirIncoming else DirOutcoming
  }

  /** With `p` arrived: a first copy is noted with its capture time, later copies change nothing. */
  function Noted(got: map<Pkt, nat>, p: Pkt): map<Pkt, nat> {
    if Bare(p) in got then got else got[Bare(p) := p.time]
  }

  /** The segments that arrived under `key`, each with the capture time of its first copy. */
  function Got(evs: seq<Event>, key: nat): map<Pkt, nat> {
    if evs == [] then map[]
    else
      var got, ev := Got(evs[..|evs| - 1], key), evs[|evs| - 1];
      if ev.Arrive? && MessageId(ev.pckt) == key then Noted(got, ev.pckt) else got
  }

  /** The capture time of the first packet that arrived under `key`. */
  function Opening(evs: seq<Event>, key: nat): nat {
    if evs == [] then 0
    else
      var before, ev := evs[..|evs| - 1], evs[|evs| - 1];
      if Got(before, key) == map[] && ev.Arrive? && MessageId(ev.pckt) == key then ev.pckt.time
      else Opening(before, key)
  }

  predicate AllOf(segs: seq<Pkt>, got: map<Pkt, nat>) {
    forall i :: 0 <= i < |segs| ==> segs[i] in got
  }

  /** `p` is a copy of some segment, not marked for the other side; its capture time, lost bytes, flags
      and endpoints do not matter. Only the copy of the first segment that is kept must have no spare
      capacity behind its payload. */
  predicate CopyOf(segs: seq<Pkt>, got: map<Pkt, nat>, p: Pkt)
    requires segs != []
  {
    && Bare(p) in segs && (p.direction == DirUnknown || p.direction == Side(segs))
    && (Bare(p) == segs[0] && Bare(p) !in got ==> p.spare == 0)
  }

  /** A packet of other traffic: it joins a message under another ID, and should that message ask for a
      100-continue it moves to yet another one that is free. */
  predicate Aside(st: State, p: Pkt, key: nat) {
    MessageId(p) != key &&
    (Shifts(st, p) ==>
       !ProcessMerges(st, p) && var (m, p1) := Joining(st, p); Add(m, p1).packets != [] && ShiftedKey(m, p1) != key)
  }

  /** A run that delivers, under `key`, copies of the segments of the request and nothing else, beside
      other traffic; every tick finds some delivered segment no older than the expiry. */
  predicate Delivers(cfg: Config, segs: seq<Pkt>, key: nat, st: State, evs: seq<Event>)
    requires segs != []
  {
    evs == [] ||
    var before, ev := evs[..|evs| - 1], evs[|evs| - 1];
    && Delivers(cfg, segs, key, st, before)
    && var got := Got(before, key);
    match ev
    case Arrive(p) => if MessageId(p) == key then CopyOf(segs, got, p) else Aside(Run(cfg, st, before), p, key)
    case Tick(now, _) => got == map[] || exists s :: s in got && now <= got[s] + cfg.messageExpire
  }

  // ----- segments without a gap --------------------------------------------------------------------

  function Bares(ps: seq<Pkt>): (r: seq<Pkt>)
    ensures |r| == |ps|
    ensures forall i :: 0 <= i < |ps| ==> r[i] == Bare(ps[i])
  {
    seq(|ps|, i requires 0 <= i < |ps| => Bare(ps[i]))
  }

  lemma BaresAlike(ps: seq<Pkt>)
    ensures Payloads(Bares(ps)) == Payloads(ps)
    ensures Contiguous(Bares(ps)) == Contiguous(ps)
    ensures Sorted(Bares(ps)) == Sorted(ps)
  {
    var r := Bares(ps);
    assert forall i :: 0 <= i < |ps| ==> r[i].seqNo == ps[i].seqNo && r[i].payload == ps[i].payload;
  }

  lemma {:induction false} SegmentsAscend(segs: seq<Pkt>, i: nat, j: nat)
    requires Contiguous(segs) && (forall k :: 0 <= k < |segs| ==> segs[k].payload != []) && i < j < |segs|
    ensures segs[i].seqNo + |segs[i].payload| <= segs[j].seqNo
    decreases j
  {
    assert segs[j].seqNo == segs[j - 1].seqNo + |segs[j - 1].payload|;
    if i < j - 1 {
      SegmentsAscend(segs, i, j - 1);
    }
  }

  lemma MessageSorted(segs: seq<Pkt>)
    requires HttpMessage(segs)
    ensures Sorted(segs)
  {
    hide HasTitle, HeadersEnd, SaysChunked, SaysContinue, DeclaredLength, MessageId, SumLength;
    forall i, j | 0 <= i < j < |segs|
      ensures segs[i].seqNo < segs[j].seqNo
    {
      SegmentsAscend(segs, i, j);
    }
  }

  lemma SortedDistinct(segs: seq<Pkt>, i: nat, j: nat)
    requires Sorted(segs) && i < |segs| && j < |segs| && segs[i].seqNo == segs[j].seqNo
    ensures i == j
  {}

  /** Ascending segments without a gap are neighbours in the request. */
  lemma {:induction false} NeighboursOf(ps: seq<Pkt>, segs: seq<Pkt>) returns (a: nat)
    requires ps != [] && Sorted(ps) && Contiguous(ps) && Sorted(segs) && Contiguous(segs)
    requires forall p :: p in ps ==> p in segs
    ensures a + |ps| <= |segs| && ps == segs[a..a + |ps|]
  {
    hide Sorted, Contiguous;
    if |ps| == 1 {
      assert ps[0] in ps;
      a := PositionOf(segs, ps[0]);
      assert segs[a..a + 1] == [segs[a]];
    } else {
      var front, last := ps[..|ps| - 1], ps[|ps| - 1];
      FrontOf(ps);
      assert forall p :: p in front ==> p in ps;
      a := NeighboursOf(front, segs);
      assert last in ps;
      var k := PositionOf(segs, last);
      assert segs[a..a + |front|][|front| - 1] == segs[a + |front| - 1];
      NextSegment(segs, a + |front| - 1, k);
      SliceGrows(segs, a, a + |front|);
    }
  }

  lemma SliceGrows(segs: seq<Pkt>, a: nat, b: nat)
    requires a <= b < |segs|
    ensures segs[a..b + 1] == segs[a..b] + [segs[b]]
  {}

  lemma FrontOf(ps: seq<Pkt>)
    requires |ps| > 1 && Sorted(ps) && Contiguous(ps)
    ensures Sorted(ps[..|ps| - 1]) && Contiguous(ps[..|ps| - 1]) && ps == ps[..|ps| - 1] + [ps[|ps| - 1]]
    ensures ps[|ps| - 1].seqNo == ps[|ps| - 2].seqNo + |ps[|ps| - 2].payload|
    ensures ps[|ps| - 2].seqNo < ps[|ps| - 1].seqNo
  {
    var last := |ps| - 2;
    assert ps[last + 1].seqNo == ps[last].seqNo + |ps[last].payload|;
  }

  lemma SortedIndex(segs: seq<Pkt>, i: nat, k: nat)
    requires Sorted(segs) && i < |segs| && k < |segs| && segs[i].seqNo < segs[k].seqNo
    ensures i < k
  {}

  /** A segment that begins where segment `i` ends is the next one. */
  lemma NextSegment(segs: seq<Pkt>, i: nat, k: nat)
    requires Sorted(segs) && Contiguous(segs) && i < |segs| && k < |segs|
    requires segs[k].seqNo == segs[i].seqNo + |segs[i].payload| && segs[i].seqNo < segs[k].seqNo
    ensures k == i + 1
  {
    SortedIndex(segs, i, k);
    assert segs[i + 1].seqNo == segs[i].seqNo + |segs[i].payload|;
    SortedDistinct(segs, i + 1, k);
  }

  // ----- what the end hint says about segments of the request ----------------------------------------

  lemma {:induction false} TotalOfPayloads(ps: seq<Pkt>)
    ensures Total(Payloads(ps)) == SumLength(ps)
  {
    if ps != [] {
      PayloadsTail(ps);
      TotalOfPayloads(ps[1..]);
    }
  }

  lemma {:induction false} PrefixShorter(segs: seq<Pkt>, b: nat)
    requires b <= |segs| && forall i :: 0 <= i < |segs| ==> segs[i].payload != []
    ensures SumLength(segs[..b]) == SumLength(segs) <==> b == |segs|
    ensures SumLength(segs[..b]) <= SumLength(segs)
  {
    if b == 0 {
      assert segs[..0] == [];
    } else {
      assert segs[..b][1..] == segs[1..][..b - 1];
      PrefixShorter(segs[1..], b - 1);
    }
  }

  /** What the parser learns from the first segment. */
  function FirstLearned(segs: seq<Pkt>): Framing
    requires segs != []
  {
    Learned([segs[0].payload])
  }

  predicate KnownFraming(fr: Framing, segs: seq<Pkt>)
    requires segs != []
  {
    Erase(fr) == FRESH || Erase(fr) == FirstLearned(segs)
  }

  lemma FirstSegment(segs: seq<Pkt>)
    requires HttpMessage(segs)
    ensures var first := [segs[0].payload];
            && HasTitle(first[0]) && BodyPos(first, 0) != -1
            && !FirstLearned(segs).continue100
  {
    hide HasTitle, HeadersEnd, SaysContinue, SaysChunked, DeclaredLength, MessageId;
    var first := [segs[0].payload];
    var st := FRESH.(headerStart := HeadersStart(first[0]), body := BodyPos(first, 0), headerEnd := BodyPos(first, 0));
    ParseCalm(st, first, 0);
  }

  /** On the first `b` segments the end hint learns the header section and is content exactly with all. */
  lemma CheckPrefix(segs: seq<Pkt>, fr: Framing, b: nat)
    requires HttpMessage(segs) && KnownFraming(fr, segs) && 1 <= b <= |segs|
    ensures var (fr1, full) := Check(fr, Payloads(segs[..b]));
            KnownFraming(fr1, segs) && (full <==> b == |segs|)
  {
    hide Check, HasTitle, HeadersEnd, SaysContinue, MessageId, Learned, BodyPos, Complete, SumLength,
         HttpMessage;
    var q, first := Payloads(segs[..b]), [segs[0].payload];
    FirstSegment(segs);
    assert q[0] == segs[0].payload && first <= q;
    LearnedStable(first, q);
    FreshCheck(q);
    PrefixFull(segs, b);
    CheckErased(fr, q);
    if Erase(fr) != FRESH {
      LearnedFields(q);
      LearnedCheck(Learned(q), q);
    }
  }

  lemma PrefixFull(segs: seq<Pkt>, b: nat)
    requires HttpMessage(segs) && 1 <= b <= |segs|
    ensures Check(FRESH, Payloads(segs[..b])).1 <==> b == |segs|
  {
    hide Check, HasTitle, HttpMessage, Finishes, Payloads;
    FirstSegment(segs);
    MessageFinishes(segs);
    FinishesExactly(segs);
  }

  lemma MessageFinishes(segs: seq<Pkt>)
    requires HttpMessage(segs)
    ensures Finishes(segs) && HeadersEnd(segs[0].payload) != -1 && forall i :: 0 <= i < |segs| ==> segs[i].payload != []
  {
    hide Finishes, HasRequestTitle, HasTitle, HeadersEnd, SaysContinue, Contiguous, Short;
  }

  /** `Finishes` is exact: segments finish the request if and only if the end hint, asked after each of
      them, says yes after the last and never before. */
  lemma FinishesExactly(segs: seq<Pkt>)
    requires segs != [] && forall i :: 0 <= i < |segs| ==> segs[i].payload != []
    requires HasTitle(segs[0].payload) && HeadersEnd(segs[0].payload) != -1
    ensures Finishes(segs) <==>
              forall b | 1 <= b <= |segs| :: Check(FRESH, Payloads(segs[..b])).1 <==> b == |segs|
  {
    hide Check, HasTitle, HeadersEnd, SaysChunked, DeclaredLength, SumLength, HasSuffix, Marked, Payloads;
    forall b | 1 <= b <= |segs|
      ensures Check(FRESH, Payloads(segs[..b])).1 <==>
                if SaysChunked(segs[0].payload) then Marked(segs, b - 1)
                else SumLength(segs[..b]) == HeadersEnd(segs[0].payload) + DeclaredLength(segs[0].payload)
    {
      PrefixChecked(segs, b);
    }
    forall b | 1 <= b <= |segs|
      ensures SumLength(segs[..b]) == SumLength(segs) <==> b == |segs|
    {
      PrefixShorter(segs, b);
    }
    FinishesByAnswers(segs);
  }

  lemma FinishesByAnswers(segs: seq<Pkt>)
    requires segs != []
    requires forall b | 1 <= b <= |segs| ::
               Check(FRESH, Payloads(segs[..b])).1 <==>
                 if SaysChunked(segs[0].payload) then Marked(segs, b - 1)
                 else SumLength(segs[..b]) == HeadersEnd(segs[0].payload) + DeclaredLength(segs[0].payload)
    requires forall b | 1 <= b <= |segs| :: SumLength(segs[..b]) == SumLength(segs) <==> b == |segs|
    ensures Finishes(segs) <==>
              forall b | 1 <= b <= |segs| :: Check(FRESH, Payloads(segs[..b])).1 <==> b == |segs|
  {
    hide Check, HeadersEnd, SaysChunked, DeclaredLength, SumLength, Marked, Payloads;
    assert segs[..|segs|] == segs;
    var answers := forall b | 1 <= b <= |segs| :: Check(FRESH, Payloads(segs[..b])).1 <==> b == |segs|;
    if SaysChunked(segs[0].payload) && answers {
      forall i | 0 <= i < |segs|
        ensures Marked(segs, i) <==> i == |segs| - 1
      {
        assert Check(FRESH, Payloads(segs[..i + 1])).1 <==> Marked(segs, i + 1 - 1);
      }
    }
  }

  lemma PrefixChecked(segs: seq<Pkt>, b: nat)
    requires 1 <= b <= |segs| && forall i :: 0 <= i < |segs| ==> segs[i].payload != []
    requires HasTitle(segs[0].payload) && HeadersEnd(segs[0].payload) != -1
    ensures Check(FRESH, Payloads(segs[..b])).1 <==>
              if SaysChunked(segs[0].payload) then Marked(segs, b - 1)
              else SumLength(segs[..b]) == HeadersEnd(segs[0].payload) + DeclaredLength(segs[0].payload)
  {
    hide Check, HasTitle, HeadersEnd, SaysChunked, DeclaredLength, SumLength, Marked;
    var q := Payloads(segs[..b]);
    assert q[0] == segs[0].payload;
    if SaysChunked(q[0]) {
      MarkedPrefix(segs, b);
    } else {
      CompleteByLength(q, 0, 0);
      TotalOfPayloads(segs[..b]);
      assert Total(q[..0]) == 0;
    }
  }

  /** Of a chunked request the end hint takes the first `b` segments for all exactly if the last of them
      is marked. */
  lemma MarkedPrefix(segs: seq<Pkt>, b: nat)
    requires 1 <= b <= |segs| && forall i :: 0 <= i < |segs| ==> segs[i].payload != []
    requires HasTitle(segs[0].payload) && HeadersEnd(segs[0].payload) != -1 && SaysChunked(segs[0].payload)
    ensures Check(FRESH, Payloads(segs[..b])).1 <==> Marked(segs, b - 1)
  {
    hide Check, HasTitle, HeadersEnd, SaysChunked, SaysContinue, DeclaredLength, HasSuffix, EndMark;
    var q := Payloads(segs[..b]);
    CompleteByMark(q);
    EndInside(q[0]);
    TotalAtLeast(q);
  }

  lemma TotalAtLeast(q: seq<seq<byte>>)
    requires q != [] && forall i :: 0 <= i < |q| ==> q[i] != []
    ensures |q| == 1 ==> Total(q) == |q[0]|
    ensures |q| > 1 ==> Total(q) > |q[0]|
  {
    assert Total(q) == |q[0]| + Total(q[1..]);
    if |q| > 1 {
      assert q[1..][0] == q[1];
    } else {
      assert q[1..] == [];
    }
  }

  /** Segments that do not begin with the first are not even looked at. */
  lemma CheckMiddle(fr: Framing, payloads: seq<seq<byte>>)
    requires payloads != [] && !HasTitle(payloads[0])
    ensures Check(fr, payloads) == (fr, false)
  {
    hide HasTitle;
  }

  /** The end hint on any segments of the request that arrived. */
  lemma EndHintOnSegments(segs: seq<Pkt>, m: Msg)
    requires HttpMessage(segs) && KnownFraming(m.framing, segs)
    requires m.packets != [] && Sorted(m.packets) && forall p :: p in Bares(m.packets) ==> p in segs
    ensures var (m1, full) := EndHint(m);
            && m1 == m.(framing := m1.framing) && KnownFraming(m1.framing, segs)
            && (full <==> Bares(m.packets) == segs)
  {
    hide Check, MissingChunk, Payloads, Contiguous, HttpMessage, HasTitle, Learned;
    var ps := m.packets;
    BaresAlike(ps);
    SegmentsShort(segs, ps);
    NoGapMeansContiguous(ps);
    MessageContiguous(segs);
    if Contiguous(ps) {
      var a := NeighboursOf(Bares(ps), segs);
      var b := a + |ps|;
      if a == 0 {
        assert Bares(ps) == segs[..b];
        CheckPrefix(segs, m.framing, b);
      } else {
        PayloadsHead(segs[a..b]);
        MiddleUntitled(segs, a);
        CheckMiddle(m.framing, Payloads(ps));
        assert Bares(ps)[0] == segs[a];
        SortedDistinctFirst(segs, a);
      }
    }
  }

  lemma MessageContiguous(segs: seq<Pkt>)
    requires HttpMessage(segs)
    ensures segs != [] && Contiguous(segs) && Sorted(segs) && Short(segs)
  {
    hide HasTitle, HeadersEnd, SaysChunked, SaysContinue, DeclaredLength, MessageId, SumLength;
    MessageSorted(segs);
  }

  lemma MiddleUntitled(segs: seq<Pkt>, a: nat)
    requires HttpMessage(segs) && 1 <= a < |segs|
    ensures !HasTitle(segs[a].payload)
  {
    hide HasTitle, HeadersEnd, SaysChunked, SaysContinue, DeclaredLength, MessageId, SumLength;
  }

  lemma PayloadsHead(ps: seq<Pkt>)
    requires ps != []
    ensures Payloads(ps) != [] && Payloads(ps)[0] == ps[0].payload
  {}

  lemma SortedDistinctFirst(segs: seq<Pkt>, a: nat)
    requires Sorted(segs) && 1 <= a < |segs|
    ensures segs[a] != segs[0]
  {}

  lemma SegmentsShort(segs: seq<Pkt>, ps: seq<Pkt>)
    requires HttpMessage(segs) && forall p :: p in Bares(ps) ==> p in segs
    ensures Short(ps)
  {
    hide HasTitle, HeadersEnd, SaysChunked, SaysContinue, DeclaredLength, MessageId, SumLength;
    forall i | 0 <= i < |ps|
      ensures |ps[i].payload| < 0x1_0000_0000
    {
      assert Bares(ps)[i] in Bares(ps);
    }
  }

  // ----- the state of a request on its way ------------------------------------------------------------

  /** `m` holds the first copies of exactly the segments that arrived (none, when it is new). */
  predicate Holding(m: Msg, segs: seq<Pkt>, key: nat, got: map<Pkt, nat>)
    requires segs != []
  {
    && Sorted(m.packets) && Accounted(m)
    && (forall p :: p in m.packets ==> Held(segs, key, got, p))
    && (forall s :: s in got ==> s in Bares(m.packets))
    && KnownFraming(m.framing, segs)
    && !m.timedOut
  }

  /** `p` is a first copy that arrived. */
  predicate Held(segs: seq<Pkt>, key: nat, got: map<Pkt, nat>, p: Pkt)
    requires segs != []
  {
    MessageId(p) == key && Bare(p) in got && got[Bare(p)] == p.time && (Bare(p) == segs[0] ==> p.spare == 0)
  }

  /** The direction is never wrong, and known once the title has arrived. */
  predicate Heading(m: Msg, segs: seq<Pkt>, got: map<Pkt, nat>)
    requires segs != []
  {
    && (m.direction == DirUnknown || m.direction == Side(segs))
    && (segs[0] in got ==> m.direction == Side(segs))
  }

  /** What arrived is tracked under `key`, in a message opened at `start`. */
  predicate Partial(st: State, segs: seq<Pkt>, key: nat, got: map<Pkt, nat>, start: nat)
    requires segs != []
  {
    if got == map[] then key !in st.tracked
    else
      && key in st.tracked && st.tracked[key].start == start
      && Holding(st.tracked[key], segs, key, got) && Heading(st.tracked[key], segs, got)
  }

  /** The emitted message: one copy of each segment, in order. */
  predicate Whole(m: Msg, segs: seq<Pkt>, key: nat)
    requires segs != []
  {
    && Bares(m.packets) == segs && Accounted(m)
    && (forall p :: p in m.packets ==> MessageId(p) == key)
    && (m.packets != [] ==> m.packets[0].spare == 0)
    && m.direction == Side(segs) && !m.timedOut && !m.framing.continue100
  }

  /** `m` was opened at `start`, and its end is the latest capture time of the first copies. */
  predicate Timed(m: Msg, got: map<Pkt, nat>, start: nat) {
    && m.start == start
    && (forall s :: s in got ==> got[s] <= m.end)
    && exists s :: s in got && got[s] == m.end
  }

  lemma CopyTitle(segs: seq<Pkt>, p: Pkt)
    requires HttpMessage(segs) && Bare(p) in segs
    ensures StartHint(p) == if Bare(p) == segs[0] then Side(segs) else DirUnknown
  {
    hide HasRequestTitle, HasResponseTitle, HeadersEnd, SaysChunked, SaysContinue, DeclaredLength, SumLength;
    var i := PositionOf(segs, Bare(p));
    MessageSorted(segs);
  }

  /** A segment's Seq is there exactly when a copy of the segment is. */
  lemma SeqHeld(m: Msg, segs: seq<Pkt>, key: nat, got: map<Pkt, nat>, p: Pkt)
    requires HttpMessage(segs) && Holding(m, segs, key, got) && Bare(p) in segs
    requires forall s :: s in got ==> s in segs
    ensures HasSeq(m.packets, p.seqNo) <==> Bare(p) in got
  {
    hide HttpMessage, KnownFraming, Accounted;
    MessageContiguous(segs);
    if HasSeq(m.packets, p.seqNo) {
      var i :| 0 <= i < |m.packets| && m.packets[i].seqNo == p.seqNo;
      assert m.packets[i] in m.packets;
      SegmentBySeq(segs, Bare(m.packets[i]), Bare(p));
    }
    if Bare(p) in got {
      var i := PositionOf(Bares(m.packets), Bare(p));
      assert m.packets[i].seqNo == p.seqNo;
    }
  }

  lemma SegmentBySeq(segs: seq<Pkt>, a: Pkt, b: Pkt)
    requires Sorted(segs) && a in segs && b in segs && a.seqNo == b.seqNo
    ensures a == b
  {
    var i := PositionOf(segs, a);
    var j := PositionOf(segs, b);
    SortedDistinct(segs, i, j);
  }

  lemma AddHolding(m: Msg, segs: seq<Pkt>, key: nat, got: map<Pkt, nat>, p: Pkt)
    requires segs != [] && Holding(m, segs, key, got) && !HasSeq(m.packets, p.seqNo)
    requires MessageId(p) == key && CopyOf(segs, got, p) && Bare(p) !in got
    ensures Holding(Add(m, p), segs, key, Noted(got, p)) && Add(m, p).direction == m.direction
    ensures Add(m, p).packets != []
  {
    hide KnownFraming, Accounted, Sorted, HasSeq, MessageId, Bare;
    AddKeeps(m, p);
    HasPackets(Add(m, p), p);
    AddMembers(m, p);
  }

  lemma AddMembers(m: Msg, p: Pkt)
    requires !HasSeq(m.packets, p.seqNo)
    ensures forall q :: q in Bares(Add(m, p).packets) <==> q in Bares(m.packets) || q == Bare(p)
  {
    hide HasSeq, Place, Bares, Bare;
    var k := Place(m.packets, p.seqNo);
    var a, b := m.packets[..k], m.packets[k..];
    assert m.packets == a + b;
    BaresConcat(a, b);
    BaresConcat(a, [p]);
    BaresConcat(a + [p], b);
    assert Bares([p]) == [Bare(p)];
  }

  lemma BaresConcat(a: seq<Pkt>, b: seq<Pkt>)
    ensures Bares(a + b) == Bares(a) + Bares(b)
  {
    hide Bare;
  }

  lemma HoldingBares(m: Msg, segs: seq<Pkt>, key: nat, got: map<Pkt, nat>)
    requires segs != [] && Holding(m, segs, key, got)
    ensures forall q :: q in Bares(m.packets) <==> q in got
  {
    hide KnownFraming, Accounted, Sorted, MessageId, Bare;
    forall q | q in Bares(m.packets)
      ensures q in got
    {
      var i := PositionOf(Bares(m.packets), q);
      assert m.packets[i] in m.packets;
    }
  }

  /** `addPacket` with a copy of a segment. */
  lemma AddPacketArrival(st: State, segs: seq<Pkt>, key: nat, m: Msg, p: Pkt, got: map<Pkt, nat>)
      returns (whole: Msg)
    requires HttpMessage(segs) && MessageId(p) == key && CopyOf(segs, got, p) && Holding(m, segs, key, got)
    requires Heading(m, segs, Noted(got, p))
    requires (forall s :: s in got ==> s in segs) && !AllOf(segs, got)
    ensures var st1 := AddPacket(st, key, m, p);
            var got1 := Noted(got, p);
            && st1.tracked - {key} == st.tracked - {key} && st1.expired == st.expired
            && if AllOf(segs, got1) then
                 && st1.emitted == st.emitted + [whole] && key !in st1.tracked
                 && Whole(whole, segs, key) && Timed(whole, got1, m.start)
               else
                 st1.emitted == st.emitted && Partial(st1, segs, key, got1, m.start)
  {
    hide HttpMessage, Holding, HasSeq, Timed, EndHint, Add, MessageId, Bare, Heading, Whole;
    var got1 := Noted(got, p);
    assert Bare(p) in got1;
    whole := m;
    SeqHeld(m, segs, key, got, p);
    if HasSeq(m.packets, p.seqNo) {
      AddPacketSkips(st, key, m, p);
    } else {
      whole := EndHint(Add(m, p)).0 by { AddHolding(m, segs, key, got, p); }
      GrownArrival(st, segs, key, m, p, got);
    }
  }

  /** A first copy arrives: the message grows, and is sent exactly when it is whole. */
  lemma GrownArrival(st: State, segs: seq<Pkt>, key: nat, m: Msg, p: Pkt, got: map<Pkt, nat>)
    requires HttpMessage(segs) && MessageId(p) == key && CopyOf(segs, got, p) && Holding(m, segs, key, got)
    requires Heading(m, segs, Noted(got, p)) && !HasSeq(m.packets, p.seqNo) && Bare(p) !in got
    requires (forall s :: s in got ==> s in segs) && Add(m, p).packets != []
    ensures var (m1, full) := EndHint(Add(m, p));
            var got1 := Noted(got, p);
            && (full <==> AllOf(segs, got1))
            && AddPacket(st, key, m, p)
               == (if full then st.(tracked := st.tracked[key := m1] - {key}, emitted := st.emitted + [m1])
                   else st.(tracked := st.tracked[key := m1]))
            && Holding(m1, segs, key, got1) && Heading(m1, segs, got1)
            && (full ==> Whole(m1, segs, key) && Timed(m1, got1, m.start)) && m1.start == m.start
  {
    hide HttpMessage, Holding, HasSeq, Timed, EndHint, Add, MessageId, Bare, Heading, Whole, Bares, AllOf;
    var got1 := Noted(got, p);
    AddHolding(m, segs, key, got, p);
    var m1 := Add(m, p);
    AddStart(m, p);
    HoldingBares(m1, segs, key, got1);
    HoldingFacts(m1, segs, key, got1);
    MessageContiguous(segs);
    EndHintOnSegments(segs, m1);
    var (m2, full) := EndHint(m1);
    HoldingFraming(m1, m2.framing, segs, key, got1);
    AllHeld(m1, segs, key, got1);
    HoldingFacts(m2, segs, key, got1);
    HeadingSame(m, m2, segs, got1);
    KnownNotContinue(m2.framing, segs);
    if full {
      HoldingWhole(m2, segs, key, got1);
      HoldingTimed(m2, segs, key, got1);
    }
    AddPacketBy(st, key, m, p);
  }

  lemma AddPacketBy(st: State, id: nat, m: Msg, p: Pkt)
    requires !HasSeq(m.packets, p.seqNo) && Add(m, p).packets != [] && !EndHint(Add(m, p)).0.framing.continue100
    requires KeyOf(EndHint(Add(m, p)).0) == id
    ensures var (m1, full) := EndHint(Add(m, p));
            AddPacket(st, id, m, p)
            == if full then st.(tracked := st.tracked[id := m1] - {id}, emitted := st.emitted + [m1])
               else st.(tracked := st.tracked[id := m1])
  {
    hide HasSeq, EndHint, Add, KeyOf;
  }

  lemma HeadingSame(m: Msg, m1: Msg, segs: seq<Pkt>, got: map<Pkt, nat>)
    requires segs != [] && Heading(m, segs, got) && m1.direction == m.direction
    ensures Heading(m1, segs, got)
  {}

  lemma HoldingFacts(m: Msg, segs: seq<Pkt>, key: nat, got: map<Pkt, nat>)
    requires segs != [] && Holding(m, segs, key, got)
    ensures Sorted(m.packets) && KnownFraming(m.framing, segs) && !m.timedOut
    ensures m.packets != [] ==> KeyOf(m) == key
  {
    hide Sorted, Accounted, KnownFraming, MessageId, Bare;
    assert m.packets != [] ==> m.packets[0] in m.packets;
  }

  lemma AddStart(m: Msg, p: Pkt)
    ensures Add(m, p).start == m.start
  {}

  /** The end of a message that holds the first copies is the latest of their capture times. */
  lemma HoldingTimed(m: Msg, segs: seq<Pkt>, key: nat, got: map<Pkt, nat>)
    requires segs != [] && Holding(m, segs, key, got) && m.packets != []
    ensures Timed(m, got, m.start)
  {
    hide KnownFraming, Sorted, SumLength, SumLost, MaxTime, MessageId, Bare;
    forall s | s in got
      ensures got[s] <= m.end
    {
      var i := PositionOf(Bares(m.packets), s);
      assert m.packets[i] in m.packets;
      MaxTimeBounds(m.packets, i);
    }
    var i := MaxTimeReached(m.packets);
    assert m.packets[i] in m.packets;
    assert Bare(m.packets[i]) in got && got[Bare(m.packets[i])] == m.end;
  }

  lemma {:induction false} MaxTimeReached(ps: seq<Pkt>) returns (i: nat)
    requires ps != []
    ensures i < |ps| && ps[i].time == MaxTime(ps)
  {
    i := 0;
    if |ps| > 1 {
      var j := MaxTimeReached(ps[1..]);
      if ps[0].time <= MaxTime(ps[1..]) {
        i := j + 1;
      }
    } else {
      assert ps[1..] == [];
      assert MaxTime(ps[1..]) == 0;
    }
  }

  lemma HoldingWhole(m: Msg, segs: seq<Pkt>, key: nat, got: map<Pkt, nat>)
    requires segs != [] && Holding(m, segs, key, got) && Heading(m, segs, got) && AllOf(segs, got)
    requires Bares(m.packets) == segs && !m.framing.continue100
    ensures Whole(m, segs, key)
  {
    hide Sorted, Accounted, KnownFraming, MessageId, Bare;
    assert m.packets[0] in m.packets && Bares(m.packets)[0] == Bare(m.packets[0]);
  }

  lemma HoldingFraming(m: Msg, fr: Framing, segs: seq<Pkt>, key: nat, got: map<Pkt, nat>)
    requires segs != [] && Holding(m, segs, key, got) && KnownFraming(fr, segs)
    ensures Holding(m.(framing := fr), segs, key, got)
  {
    hide Sorted, KnownFraming, SumLength, SumLost, MaxTime, Held;
  }

  /** All segments arrived exactly when the message consists of them. */
  lemma AllHeld(m: Msg, segs: seq<Pkt>, key: nat, got: map<Pkt, nat>)
    requires segs != [] && Holding(m, segs, key, got) && Sorted(segs) && forall s :: s in got ==> s in segs
    ensures AllOf(segs, got) <==> Bares(m.packets) == segs
  {
    hide KnownFraming, Accounted, MessageId, Bare, Holding;
    HoldingBares(m, segs, key, got);
    HoldingFacts(m, segs, key, got);
    BaresAlike(m.packets);
    assert forall i :: 0 <= i < |segs| ==> segs[i] in segs;
    if AllOf(segs, got) {
      forall p
        ensures p in Bares(m.packets) <==> p in segs
      {
        if p in segs {
          var i := PositionOf(segs, p);
        }
      }
      SortedUnique(Bares(m.packets), segs);
    }
  }

  lemma KnownNotContinue(fr: Framing, segs: seq<Pkt>)
    requires HttpMessage(segs) && KnownFraming(fr, segs)
    ensures !fr.continue100
  {
    hide HttpMessage, FirstLearned;
    FirstSegment(segs);
    assert Erase(fr).continue100 == fr.continue100;
  }

  /** A copy of a segment arrives. */
  lemma Arrival(st: State, segs: seq<Pkt>, key: nat, p: Pkt, got: map<Pkt, nat>, start: nat) returns (whole: Msg)
    requires HttpMessage(segs) && MessageId(p) == key && CopyOf(segs, got, p)
    requires Partial(st, segs, key, got, start) && (forall s :: s in got ==> s in segs) && !AllOf(segs, got)
    ensures var st1 := ProcessPacket(st, p);
            var got1, start1 := Noted(got, p), if got == map[] then p.time else start;
            && st1.tracked - {key} == st.tracked - {key} && st1.expired == st.expired
            && if AllOf(segs, got1) then
                 && st1.emitted == st.emitted + [whole] && key !in st1.tracked
                 && Whole(whole, segs, key) && Timed(whole, got1, start1)
               else
                 st1.emitted == st.emitted && Partial(st1, segs, key, got1, start1)
  {
    hide HttpMessage, Holding, Timed, StartHint, MessageId, Bare, AddPacket, AllOf, Whole, Noted;
    CopyTitle(segs, p);
    if got == map[] {
      var p1 := if p.direction == DirUnknown then p.(direction := StartHint(p)) else p;
      SameBare(p, p1.direction, segs, got);
      DirectionIgnored(p, p1.direction);
      NewHolding(p1, segs, key);
      NewHeading(p, p1, segs);
      whole := AddPacketArrival(st, segs, key, NewMessage(p1), p1, got);
    } else {
      var m := st.tracked[key];
      var d := if m.direction == DirUnknown then StartHint(p) else m.direction;
      var m1 := m.(direction := d);
      HoldingDirection(m, d, segs, key, got);
      NextHeading(m, m1, p, segs, got);
      whole := AddPacketArrival(st, segs, key, m1, p, got);
    }
  }

  lemma SameBare(p: Pkt, d: Dir, segs: seq<Pkt>, got: map<Pkt, nat>)
    requires segs != [] && CopyOf(segs, got, p) && (d == DirUnknown || d == Side(segs))
    ensures var p1 := p.(direction := d);
            Bare(p1) == Bare(p) && CopyOf(segs, got, p1) && Noted(got, p1) == Noted(got, p)
  {}

  lemma NewHolding(p: Pkt, segs: seq<Pkt>, key: nat)
    requires segs != []
    ensures Holding(NewMessage(p), segs, key, map[])
  {
    hide FirstLearned, Held;
  }

  lemma NewHeading(p: Pkt, p1: Pkt, segs: seq<Pkt>)
    requires segs != [] && (p.direction == DirUnknown || p.direction == Side(segs))
    requires p1 == if p.direction == DirUnknown then p.(direction := StartHint(p)) else p
    requires StartHint(p) == if Bare(p) == segs[0] then Side(segs) else DirUnknown
    ensures Heading(NewMessage(p1), segs, Noted(map[], p1))
  {
    hide StartHint;
  }

  lemma NextHeading(m: Msg, m1: Msg, p: Pkt, segs: seq<Pkt>, got: map<Pkt, nat>)
    requires segs != [] && Heading(m, segs, got)
    requires StartHint(p) == if Bare(p) == segs[0] then Side(segs) else DirUnknown
    requires m1 == m.(direction := if m.direction == DirUnknown then StartHint(p) else m.direction)
    ensures Heading(m1, segs, Noted(got, p))
  {
    hide StartHint, Bare;
  }

  lemma HoldingDirection(m: Msg, d: Dir, segs: seq<Pkt>, key: nat, got: map<Pkt, nat>)
    requires segs != [] && Holding(m, segs, key, got)
    ensures Holding(m.(direction := d), segs, key, got)
  {
    hide Sorted, KnownFraming, SumLength, SumLost, MaxTime, Held;
  }

  // ----- other traffic --------------------------------------------------------------------------------

  /** Every other message is tracked under its own ID. */
  predicate OthersKeyed(st: State, key: nat) {
    forall k :: k in st.tracked && k != key ==> st.tracked[k].packets != [] && KeyOf(st.tracked[k]) == k
  }

  /** Nothing with ID `key` left between `before` and `after`. */
  predicate NoneLeft(before: seq<Msg>, after: seq<Msg>, key: nat) {
    before <= after && forall i :: |before| <= i < |after| ==> KeyOf(after[i]) != key
  }

  predicate Untouched(a: State, b: State, key: nat) {
    && (key in a.tracked <==> key in b.tracked)
    && (key in a.tracked ==> a.tracked[key] == b.tracked[key])
    && NoneLeft(a.emitted, b.emitted, key) && NoneLeft(a.expired, b.expired, key)
  }

  lemma StoreOther(st: State, id: nat, m: Msg, key: nat, duplicates: seq<Pkt>)
    requires OthersKeyed(st, key) && id != key && m.packets != [] && KeyOf(m) == id
    ensures var st1 := st.(tracked := st.tracked[id := m], duplicates := duplicates);
            OthersKeyed(st1, key) && Untouched(st, st1, key)
  {
    hide KeyOf;
  }

  lemma SendOther(st: State, id: nat, m: Msg, key: nat)
    requires OthersKeyed(st, key) && id != key && KeyOf(m) == id
    ensures var st1 := st.(tracked := st.tracked[id := m] - {id}, emitted := st.emitted + [m]);
            OthersKeyed(st1, key) && Untouched(st, st1, key)
  {
    hide KeyOf;
  }

  lemma MoveOther(st: State, id: nat, m: Msg, key: nat)
    requires OthersKeyed(st, key) && id != key && m.packets != [] && KeyOf(m) != key
    ensures var st1 := st.(tracked := (st.tracked - {id})[KeyOf(m) := m]);
            OthersKeyed(st1, key) && Untouched(st, st1, key)
  {
    hide KeyOf;
  }

  lemma OtherAddPacket(st: State, id: nat, m: Msg, p: Pkt, key: nat)
    requires OthersKeyed(st, key) && MessageId(p) == id && id != key
    requires m.packets != [] ==> KeyOf(m) == id
    requires AddShifts(m, p) ==>
               !AddMerges(st.tracked, id, m, p) && Add(m, p).packets != [] && ShiftedKey(m, p) != key
    ensures OthersKeyed(AddPacket(st, id, m, p), key) && Untouched(st, AddPacket(st, id, m, p), key)
  {
    hide MessageId, KeyOf, Add, HasSeq, EndHint, OthersKeyed, Untouched, ShiftAll;
    if HasSeq(m.packets, p.seqNo) {
      AddPacketSkips(st, id, m, p);
      StoreOther(st, id, m, key, st.duplicates + [p]);
    } else {
      AddKey(m, p, id);
      var (m1, full) := EndHint(Add(m, p));
      HintKey(Add(m, p));
      if full {
        SendOther(st, id, m1, key);
      } else if !m1.framing.continue100 {
        StoreOther(st, id, m1, key, st.duplicates);
      } else {
        var tracked := st.tracked[id := m1];
        assert tracked - {id} == st.tracked - {id};
        MoveOther(st, id, Rekeyed(m1), key);
      }
    }
  }

  lemma OtherPacket(st: State, p: Pkt, key: nat)
    requires OthersKeyed(st, key) && Aside(st, p, key)
    ensures OthersKeyed(ProcessPacket(st, p), key) && Untouched(st, ProcessPacket(st, p), key)
  {
    hide MessageId, AddPacket, AddShifts, AddMerges, StartHint, Untouched, ShiftedKey, Add, KeyOf, OthersKeyed;
    var (m, p1) := Joining(st, p);
    JoiningKey(st, p, key);
    OtherAddPacket(st, MessageId(p), m, p1, key);
  }

  lemma JoiningKey(st: State, p: Pkt, key: nat)
    requires OthersKeyed(st, key) && MessageId(p) != key
    ensures var (m, p1) := Joining(st, p);
            MessageId(p1) == MessageId(p) && (m.packets != [] ==> KeyOf(m) == MessageId(p))
  {
    hide MessageId, StartHint;
    DirectionIgnored(p, StartHint(p));
  }

  lemma OtherTimeOut(cfg: Config, st: State, now: nat, entry: nat, key: nat)
    requires OthersKeyed(st, key) && (key in st.tracked ==> !Overdue(cfg, st.tracked[key], now))
    ensures OthersKeyed(TimeOut(cfg, st, now, entry), key) && Untouched(st, TimeOut(cfg, st, now, entry), key)
  {
    hide Overdue, MessageId;
  }

  lemma {:induction false} OtherTimer(cfg: Config, st: State, now: nat, order: seq<nat>, key: nat)
    requires OthersKeyed(st, key) && (key in st.tracked ==> !Overdue(cfg, st.tracked[key], now))
    ensures OthersKeyed(Timer(cfg, st, now, order), key) && Untouched(st, Timer(cfg, st, now, order), key)
  {
    hide OthersKeyed, TimeOut, Overdue, KeyOf;
    if order != [] {
      var before := order[..|order| - 1];
      OtherTimer(cfg, st, now, before, key);
      var st1 := Timer(cfg, st, now, before);
      OtherTimeOut(cfg, st1, now, order[|order| - 1], key);
      UntouchedChain(st, st1, Timer(cfg, st, now, order), key);
    }
  }

  lemma UntouchedChain(a: State, b: State, c: State, key: nat)
    requires Untouched(a, b, key) && Untouched(b, c, key)
    ensures Untouched(a, c, key)
  {
    hide KeyOf;
  }

  /** Packets without an Expect line are aside, as long as no message asks for a 100-continue. */
  lemma CalmAside(st: State, p: Pkt, key: nat)
    requires CalmState(st) && Calm(p) && MessageId(p) != key
    ensures Aside(st, p, key)
  {
    hide CalmState, Calm, MessageId, Shifts, ProcessMerges;
    CalmPacket(st, p);
  }

  // ----- the run ----------------------------------------------------------------------------------------

  /** A tick that finds a delivered segment young enough does not time the request out. */
  lemma YoungEnough(cfg: Config, m: Msg, segs: seq<Pkt>, key: nat, got: map<Pkt, nat>, now: nat, s: Pkt)
    requires segs != [] && Holding(m, segs, key, got) && s in got && now <= got[s] + cfg.messageExpire
    ensures !Overdue(cfg, m, now)
  {
    hide KnownFraming, Sorted, SumLength, SumLost, MaxTime, MessageId;
    var i := PositionOf(Bares(m.packets), s);
    assert m.packets[i] in m.packets;
    MaxTimeBounds(m.packets, i);
  }

  lemma {:induction false} MaxTimeBounds(ps: seq<Pkt>, i: nat)
    requires i < |ps|
    ensures ps[i].time <= MaxTime(ps)
  {
    if i > 0 {
      MaxTimeBounds(ps[1..], i - 1);
    }
  }

  lemma {:induction false} GotSegments(cfg: Config, segs: seq<Pkt>, key: nat, st: State, evs: seq<Event>)
    requires segs != [] && Delivers(cfg, segs, key, st, evs)
    ensures forall s :: s in Got(evs, key) ==> s in segs
  {
    hide Aside, MessageId, Bare, Run;
    if evs != [] {
      GotSegments(cfg, segs, key, st, evs[..|evs| - 1]);
    }
  }

  /** Where the run starts: the ID is not in use, and every message is tracked under its own. */
  predicate Ready(st: State, key: nat) {
    key !in st.tracked && OthersKeyed(st, key)
  }

  /** Until the last segment arrives the request is held back, and nothing leaves under its ID. */
  lemma {:induction false} NotYet(cfg: Config, segs: seq<Pkt>, key: nat, st0: State, evs: seq<Event>)
    requires HttpMessage(segs) && Ready(st0, key) && Delivers(cfg, segs, key, st0, evs)
    requires !AllOf(segs, Got(evs, key))
    ensures var st := Run(cfg, st0, evs);
            && Partial(st, segs, key, Got(evs, key), Opening(evs, key)) && OthersKeyed(st, key)
            && NoneLeft(st0.emitted, st.emitted, key) && NoneLeft(st0.expired, st.expired, key)
  {
    hide HttpMessage, Partial, OthersKeyed, ProcessPacket, Timer, Aside, MessageId, Bare, KeyOf, CopyOf;
    if evs == [] {
      StartPartial(st0, segs, key);
    } else {
      var before, ev := evs[..|evs| - 1], evs[|evs| - 1];
      GotGrows(segs, evs, key);
      NotYet(cfg, segs, key, st0, before);
      GotSegments(cfg, segs, key, st0, before);
      var st := Run(cfg, st0, before);
      var got := Got(before, key);
      match ev {
        case Arrive(p) =>
          if MessageId(p) == key {
            var whole := Arrival(st, segs, key, p, got, Opening(before, key));
            OpeningStep(evs, key);
            OthersUntouched(st, ProcessPacket(st, p), key);
          } else {
            OtherPacket(st, p, key);
            PartialUntouched(st, ProcessPacket(st, p), segs, key, got, Opening(before, key));
          }
        case Tick(now, order) =>
          NotOverdue(cfg, st, segs, key, got, Opening(before, key), now);
          OtherTimer(cfg, st, now, order, key);
          PartialUntouched(st, Timer(cfg, st, now, order), segs, key, got, Opening(before, key));
      }
      NoneLeftChain(st0.emitted, st.emitted, Run(cfg, st0, evs).emitted, key);
      NoneLeftChain(st0.expired, st.expired, Run(cfg, st0, evs).expired, key);
    }
  }

  lemma GotGrows(segs: seq<Pkt>, evs: seq<Event>, key: nat)
    requires evs != []
    ensures AllOf(segs, Got(evs[..|evs| - 1], key)) ==> AllOf(segs, Got(evs, key))
  {
    hide MessageId, Bare;
  }

  lemma StartPartial(st: State, segs: seq<Pkt>, key: nat)
    requires segs != [] && Ready(st, key)
    ensures Partial(st, segs, key, map[], 0) && OthersKeyed(st, key)
  {
    hide OthersKeyed;
  }

  lemma OthersUntouched(a: State, b: State, key: nat)
    requires OthersKeyed(a, key) && a.tracked - {key} == b.tracked - {key}
    ensures OthersKeyed(b, key)
  {
    hide KeyOf;
    forall k | k in b.tracked && k != key
      ensures b.tracked[k].packets != [] && KeyOf(b.tracked[k]) == k
    {
      assert k in b.tracked - {key};
      assert k in a.tracked - {key} && (a.tracked - {key})[k] == a.tracked[k];
      assert (b.tracked - {key})[k] == b.tracked[k];
    }
  }

  lemma PartialUntouched(a: State, b: State, segs: seq<Pkt>, key: nat, got: map<Pkt, nat>, start: nat)
    requires segs != [] && Partial(a, segs, key, got, start) && Untouched(a, b, key)
    ensures Partial(b, segs, key, got, start)
    ensures NoneLeft(a.emitted, b.emitted, key) && NoneLeft(a.expired, b.expired, key)
  {
    hide Holding, Heading, NoneLeft;
  }

  lemma NotOverdue(cfg: Config, st: State, segs: seq<Pkt>, key: nat, got: map<Pkt, nat>, start: nat, now: nat)
    requires segs != [] && Partial(st, segs, key, got, start)
    requires got == map[] || exists s :: s in got && now <= got[s] + cfg.messageExpire
    ensures key in st.tracked ==> !Overdue(cfg, st.tracked[key], now)
  {
    hide Holding, Heading, Overdue;
    if got != map[] {
      var s :| s in got && now <= got[s] + cfg.messageExpire;
      YoungEnough(cfg, st.tracked[key], segs, key, got, now, s);
    }
  }

  lemma NoneLeftChain(a: seq<Msg>, b: seq<Msg>, c: seq<Msg>, key: nat)
    requires NoneLeft(a, b, key) && NoneLeft(b, c, key)
    ensures NoneLeft(a, c, key)
  {
    hide KeyOf;
  }

  /** Exactly once, and exactly when the last distinct segment arrives: that step sends one message,
      whose data are the original bytes, and forgets it. */
  lemma LastSegment(cfg: Config, segs: seq<Pkt>, key: nat, st0: State, before: seq<Event>, p: Pkt)
      returns (whole: Msg)
    requires HttpMessage(segs) && Ready(st0, key) && Delivers(cfg, segs, key, st0, before + [Arrive(p)])
    requires !AllOf(segs, Got(before, key)) && AllOf(segs, Got(before + [Arrive(p)], key))
    ensures var st, last := Run(cfg, st0, before), Run(cfg, st0, before + [Arrive(p)]);
            && NoneLeft(st0.emitted, st.emitted, key) && NoneLeft(st0.expired, st.expired, key)
            && last.emitted == st.emitted + [whole] && last.expired == st.expired
            && key !in last.tracked
            && Whole(whole, segs, key) && whole.packets != [] && KeyOf(whole) == key
            && Payloads(whole.packets) == Payloads(segs)
            && Data(whole) == Concat(Payloads(segs)) && whole.direction == Side(segs)
            && Timed(whole, Got(before + [Arrive(p)], key), Opening(before + [Arrive(p)], key))
            && Ready(last, key)
  {
    hide HttpMessage, Partial, OthersKeyed, ProcessPacket, Aside, MessageId, Bare, KeyOf, AllOf, Whole, Data, Delivers,
         CopyOf, Timed, Opening, Side;
    var evs := before + [Arrive(p)];
    assert evs[..|evs| - 1] == before;
    MessageContiguous(segs);
    DeliveredLast(cfg, segs, key, st0, evs);
    NotYet(cfg, segs, key, st0, before);
    GotSegments(cfg, segs, key, st0, before);
    var st := Run(cfg, st0, before);
    whole := Arrival(st, segs, key, p, Got(before, key), Opening(before, key));
    OpeningStep(evs, key);
    WholeSide(whole, segs, key);
    OthersUntouched(st, ProcessPacket(st, p), key);
    WholeData(whole, segs, key);
  }

  lemma OpeningStep(evs: seq<Event>, key: nat)
    requires evs != []
    ensures var before, ev := evs[..|evs| - 1], evs[|evs| - 1];
            Opening(evs, key)
            == if Got(before, key) == map[] && ev.Arrive? && MessageId(ev.pckt) == key then ev.pckt.time
               else Opening(before, key)
  {
    hide MessageId, Got;
  }

  lemma WholeSide(m: Msg, segs: seq<Pkt>, key: nat)
    requires segs != [] && Whole(m, segs, key)
    ensures m.direction == Side(segs)
  {
    hide Accounted, MessageId, Side, Bares;
  }

  lemma DeliveredLast(cfg: Config, segs: seq<Pkt>, key: nat, st: State, evs: seq<Event>)
    requires segs != [] && evs != [] && Delivers(cfg, segs, key, st, evs) && evs[|evs| - 1].Arrive?
    requires !AllOf(segs, Got(evs[..|evs| - 1], key)) && AllOf(segs, Got(evs, key))
    ensures var before, p := evs[..|evs| - 1], evs[|evs| - 1].pckt;
            && Delivers(cfg, segs, key, st, before)
            && MessageId(p) == key && CopyOf(segs, Got(before, key), p)
            && Got(evs, key) == Noted(Got(before, key), p)
  {
    hide MessageId, Aside, CopyOf, Noted;
  }

  lemma WholeData(m: Msg, segs: seq<Pkt>, key: nat)
    requires HttpMessage(segs) && Whole(m, segs, key)
    ensures m.packets != [] && KeyOf(m) == key
    ensures Payloads(m.packets) == Payloads(segs) && Data(m) == Concat(Payloads(segs))
  {
    hide HttpMessage, RawData, Accounted, Bare, MessageId;
    MessageContiguous(segs);
    BaresAlike(m.packets);
    assert m.packets[0] in m.packets;
    RawDataIsConcat(m);
  }
}
