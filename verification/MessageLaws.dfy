/** Laws of messages: order of arrival does not matter, a message without gaps is one stretch of the
    stream, and its data and identity are what they should be. */
module MessageLaws {
  import opened Bytes
  import opened Packets
  import opened FullPayload
  import opened Messages

  predicate Sorted(ps: seq<Pkt>) {
    forall i, j :: 0 <= i < j < |ps| ==> ps[i].seqNo < ps[j].seqNo
  }

  function SumLength(ps: seq<Pkt>): nat {
    if ps == [] then 0 else |ps[0].payload| + SumLength(ps[1..])
  }

  function SumLost(ps: seq<Pkt>): nat {
    if ps == [] then 0 else ps[0].lost + SumLost(ps[1..])
  }

  function MaxTime(ps: seq<Pkt>): nat {
    if ps == [] then 0
    else
      var rest := MaxTime(ps[1..]);
      if ps[0].time > rest then ps[0].time else rest
  }

  /** The statistics of a message are those of the packets it keeps. */
  predicate Accounted(m: Msg) {
    m.length == SumLength(m.packets) && m.lost == SumLost(m.packets) && m.end == MaxTime(m.packets)
  }

  // ----- one add ------------------------------------------------------------------------------

  lemma PlaceSplits(ps: seq<Pkt>, s: uint32)
    requires Sorted(ps) && !HasSeq(ps, s)
    ensures var k := Place(ps, s);
            (forall i :: 0 <= i < k ==> ps[i].seqNo < s) && (forall i :: k <= i < |ps| ==> s < ps[i].seqNo)
  {
    assert forall i :: 0 <= i < |ps| ==> ps[i].seqNo != s;
  }

  lemma InsertedSorted(ps: seq<Pkt>, p: Pkt)
    requires Sorted(ps) && !HasSeq(ps, p.seqNo)
    ensures Sorted(Inserted(ps, p))
    ensures forall q :: q in Inserted(ps, p) <==> q == p || q in ps
  {
    hide Place, HasSeq;
    PlaceSplits(ps, p.seqNo);
    var k := Place(ps, p.seqNo);
    assert ps == ps[..k] + ps[k..];
    InsertedAt(ps, p, k);
  }

  lemma InsertedAt(ps: seq<Pkt>, p: Pkt, k: nat)
    requires k <= |ps|
    ensures var r := ps[..k] + [p] + ps[k..];
            forall i :: 0 <= i < |r| ==> r[i] == if i < k then ps[i] else if i == k then p else ps[i - 1]
  {}

  lemma {:induction false} SumsInserted(a: seq<Pkt>, p: Pkt, b: seq<Pkt>)
    ensures SumLength(a + [p] + b) == SumLength(a + b) + |p.payload|
    ensures SumLost(a + [p] + b) == SumLost(a + b) + p.lost
    ensures MaxTime(a + [p] + b) == if p.time > MaxTime(a + b) then p.time else MaxTime(a + b)
  {
    if a == [] {
      assert a + [p] + b == [p] + b && a + b == b && ([p] + b)[1..] == b;
    } else {
      assert (a + [p] + b)[1..] == a[1..] + [p] + b && (a + b)[1..] == a[1..] + b;
      SumsInserted(a[1..], p, b);
    }
  }

  /** `add` keeps the packets strictly ascending and the statistics exact. */
  lemma AddKeeps(m: Msg, p: Pkt)
    requires Sorted(m.packets) && Accounted(m)
    ensures Sorted(Add(m, p).packets) && Accounted(Add(m, p))
    ensures HasSeq(Add(m, p).packets, p.seqNo)
    ensures forall q :: q in Add(m, p).packets <==> q in m.packets || (q == p && !HasSeq(m.packets, p.seqNo))
  {
    hide Place, SumLength, SumLost, MaxTime, Inserted;
    if !HasSeq(m.packets, p.seqNo) {
      InsertedSorted(m.packets, p);
      InsertedSums(m.packets, p);
      var r := Inserted(m.packets, p);
      assert p in r;
    }
  }

  lemma InsertedSums(ps: seq<Pkt>, p: Pkt)
    ensures SumLength(Inserted(ps, p)) == SumLength(ps) + |p.payload|
    ensures SumLost(Inserted(ps, p)) == SumLost(ps) + p.lost
    ensures MaxTime(Inserted(ps, p)) == Later(MaxTime(ps), p.time)
  {
    hide SumLength, SumLost, MaxTime, Place;
    var k := Place(ps, p.seqNo);
    SumsInserted(ps[..k], p, ps[k..]);
    assert ps[..k] + ps[k..] == ps;
  }

  // ----- any order of arrival -------------------------------------------------------------------

  const EMPTY := Msg([], FRESH, 0, 0, 0, 0, DirUnknown, false)

  function Feed(m: Msg, xs: seq<Pkt>): Msg {
    if xs == [] then m else Add(Feed(m, xs[..|xs| - 1]), xs[|xs| - 1])
  }

  /** `i` is the first arrival of its Seq. */
  predicate FirstOfSeq(xs: seq<Pkt>, i: int) {
    0 <= i < |xs| && forall j :: 0 <= j < i ==> xs[j].seqNo != xs[i].seqNo
  }

  /** What any arrivals leave: ascending, each Seq once, and the packet that came first with it. */
  lemma {:induction false} FeedKeepsFirsts(xs: seq<Pkt>)
    ensures var m := Feed(EMPTY, xs);
            Sorted(m.packets) && Accounted(m) && HoldsFirsts(xs, m.packets)
  {
    hide Add, Accounted, HoldsFirsts;
    if xs == [] {
      EmptyAccounted();
    } else {
      var ys, p := xs[..|xs| - 1], xs[|xs| - 1];
      FeedKeepsFirsts(ys);
      AddKeeps(Feed(EMPTY, ys), p);
      AddHoldsFirsts(ys, p, Feed(EMPTY, ys));
      assert xs == ys + [p];
    }
  }

  ghost predicate HoldsFirsts(xs: seq<Pkt>, ps: seq<Pkt>) {
    && (forall i :: FirstOfSeq(xs, i) ==> xs[i] in ps)
    && (forall p :: p in ps ==> exists i :: FirstOfSeq(xs, i) && xs[i] == p)
    && (forall i :: 0 <= i < |xs| ==> HasSeq(ps, xs[i].seqNo))
  }

  lemma AddHoldsFirsts(ys: seq<Pkt>, p: Pkt, m: Msg)
    requires Sorted(m.packets) && Accounted(m) && HoldsFirsts(ys, m.packets)
    ensures HoldsFirsts(ys + [p], Add(m, p).packets)
  {
    hide Add, Accounted, HasSeq;
    var xs, ps := ys + [p], Add(m, p).packets;
    AddKeeps(m, p);
    assert forall j :: 0 <= j < |ys| ==> xs[j] == ys[j];
    forall i | FirstOfSeq(xs, i)
      ensures xs[i] in ps
    {
      if i < |ys| {
        assert FirstOfSeq(ys, i);
      } else {
        SeqArrived(ys, m.packets, p.seqNo);
        assert forall j :: 0 <= j < |ys| ==> ys[j].seqNo != p.seqNo;
      }
    }
    forall q | q in ps
      ensures exists i :: FirstOfSeq(xs, i) && xs[i] == q
    {
      if q in m.packets {
        var i :| FirstOfSeq(ys, i) && ys[i] == q;
        assert FirstOfSeq(xs, i);
      } else {
        assert forall j :: 0 <= j < |ys| ==> HasSeq(m.packets, ys[j].seqNo);
        assert FirstOfSeq(xs, |ys|);
      }
    }
    SeqsStay(m, p);
  }

  /** A Seq the message holds has arrived. */
  lemma SeqArrived(ys: seq<Pkt>, ps: seq<Pkt>, s: uint32)
    requires HoldsFirsts(ys, ps)
    ensures HasSeq(ps, s) ==> exists j :: 0 <= j < |ys| && ys[j].seqNo == s
  {
    if HasSeq(ps, s) {
      var k :| 0 <= k < |ps| && ps[k].seqNo == s;
      assert ps[k] in ps;
    }
  }

  lemma EmptyAccounted()
    ensures Accounted(EMPTY) && Sorted(EMPTY.packets) && HoldsFirsts([], EMPTY.packets)
  {}

  lemma SeqsStay(m: Msg, p: Pkt)
    ensures forall s :: HasSeq(m.packets, s) ==> HasSeq(Add(m, p).packets, s)
  {
    hide Place;
    var r := Add(m, p).packets;
    forall s | HasSeq(m.packets, s)
      ensures HasSeq(r, s)
    {
      var i :| 0 <= i < |m.packets| && m.packets[i].seqNo == s;
      var k := Place(m.packets, p.seqNo);
      assert r == m.packets || r[if i < k then i else i + 1] == m.packets[i];
    }
  }

  /** Two ascending lists with the same members are the same list. */
  lemma {:induction false} SortedUnique(a: seq<Pkt>, b: seq<Pkt>)
    requires Sorted(a) && Sorted(b) && forall p :: p in a <==> p in b
    ensures a == b
  {
    if a == [] {
      NoMembers(b);
    } else {
      assert a[0] in b;
      assert b[0] in a;
      assert a[0].seqNo <= b[0].seqNo && b[0].seqNo <= a[0].seqNo;
      var i :| 0 <= i < |b| && b[i] == a[0];
      assert i == 0;
      forall p
        ensures p in a[1..] <==> p in b[1..]
      {
        TailMember(a, p);
        TailMember(b, p);
      }
      SortedUnique(a[1..], b[1..]);
      assert a == [a[0]] + a[1..] && b == [b[0]] + b[1..];
    }
  }

  lemma NoMembers(b: seq<Pkt>)
    ensures b == [] <==> forall p :: p !in b
  {
    assert b != [] ==> b[0] in b;
  }

  lemma TailMember(a: seq<Pkt>, p: Pkt)
    requires Sorted(a) && a != []
    ensures p in a[1..] <==> p in a && p != a[0]
  {
    assert a == [a[0]] + a[1..];
  }

  predicate SeqNames(xs: seq<Pkt>) {
    forall p, q :: p in xs && q in xs && p.seqNo == q.seqNo ==> p == q
  }

  /** Order of arrival and repetition do not matter: the same packets leave the same message. */
  lemma AnyOrder(xs: seq<Pkt>, ys: seq<Pkt>)
    requires SeqNames(xs) && forall p :: p in xs <==> p in ys
    ensures Feed(EMPTY, xs) == Feed(EMPTY, ys)
  {
    hide Feed, SumLength, SumLost, MaxTime;
    FeedMembers(xs);
    FeedMembers(ys);
    FeedRest(xs);
    FeedRest(ys);
    SortedUnique(Feed(EMPTY, xs).packets, Feed(EMPTY, ys).packets);
  }

  /** Packets with the same Seq carry the same bytes, whatever else tells them apart. */
  predicate SameBytes(xs: seq<Pkt>, ys: seq<Pkt>) {
    forall p, q :: p in xs && q in ys && p.seqNo == q.seqNo ==> p.payload == q.payload
  }

  predicate SameSeqs(xs: seq<Pkt>, ys: seq<Pkt>) {
    forall s: uint32 :: HasSeq(xs, s) <==> HasSeq(ys, s)
  }

  /** Nor does it matter which copy of a packet comes first, when it was captured or what was lost
      with it: the message has the same payloads at the same Seqs. */
  lemma AnyCopies(xs: seq<Pkt>, ys: seq<Pkt>)
    requires SameSeqs(xs, ys) && SameBytes(xs, ys)
    ensures var a, b := Feed(EMPTY, xs), Feed(EMPTY, ys);
            && a.length == b.length && |a.packets| == |b.packets|
            && forall i :: 0 <= i < |a.packets| ==>
                 a.packets[i].seqNo == b.packets[i].seqNo && a.packets[i].payload == b.packets[i].payload
  {
    hide Feed, Sorted, SumLength, SameSeqs, SameBytes, HasSeq;
    FeedHolds(xs);
    FeedHolds(ys);
    FeedAlike(xs, ys);
    SortedAlike(Feed(EMPTY, xs).packets, Feed(EMPTY, ys).packets);
  }

  lemma FeedAlike(xs: seq<Pkt>, ys: seq<Pkt>)
    requires SameSeqs(xs, ys) && SameBytes(xs, ys) && Held(xs, Feed(EMPTY, xs)) && Held(ys, Feed(EMPTY, ys))
    ensures SameSeqs(Feed(EMPTY, xs).packets, Feed(EMPTY, ys).packets)
    ensures SameBytes(Feed(EMPTY, xs).packets, Feed(EMPTY, ys).packets)
  {
    hide Feed, HasSeq, Sorted, SumLength;
  }

  /** Every packet held arrived, and every Seq that arrived is held. */
  predicate Held(xs: seq<Pkt>, m: Msg) {
    && Sorted(m.packets) && m.length == SumLength(m.packets)
    && SameSeqs(xs, m.packets) && forall p :: p in m.packets ==> p in xs
  }

  lemma FeedHolds(xs: seq<Pkt>)
    ensures Held(xs, Feed(EMPTY, xs))
  {
    hide Feed, Sorted, SumLength, SumLost, MaxTime, HasSeq, HoldsFirsts;
    FeedKeepsFirsts(xs);
    FirstsCover(xs, Feed(EMPTY, xs).packets);
  }

  lemma FirstsCover(xs: seq<Pkt>, ps: seq<Pkt>)
    requires HoldsFirsts(xs, ps)
    ensures SameSeqs(xs, ps) && forall p :: p in ps ==> p in xs
  {
    forall s: uint32
      ensures HasSeq(xs, s) <==> HasSeq(ps, s)
    {
      if HasSeq(ps, s) {
        var k :| 0 <= k < |ps| && ps[k].seqNo == s;
        assert ps[k] in ps;
        var i :| FirstOfSeq(xs, i) && xs[i] == ps[k];
        assert HasSeq(xs, s);
      }
    }
  }

  /** Ascending packets with the same Seqs and bytes agree one by one. */
  lemma {:induction false} SortedAlike(a: seq<Pkt>, b: seq<Pkt>)
    requires Sorted(a) && Sorted(b) && SameSeqs(a, b) && SameBytes(a, b)
    ensures |a| == |b| && SumLength(a) == SumLength(b)
    ensures forall i :: 0 <= i < |a| ==> a[i].seqNo == b[i].seqNo && a[i].payload == b[i].payload
  {
    hide SumLength, SameSeqs, SameBytes, Sorted, HasSeq;
    SeqsSwap(a, b);
    if b != [] {
      LeastSeq(b, a);
    }
    if a != [] {
      LeastSeq(a, b);
      TailAlike(a, b);
      SortedAlike(a[1..], b[1..]);
      SumTail(a);
      SumTail(b);
      assert a == [a[0]] + a[1..] && b == [b[0]] + b[1..];
    }
  }

  lemma SeqsSwap(a: seq<Pkt>, b: seq<Pkt>)
    requires SameSeqs(a, b)
    ensures SameSeqs(b, a)
  {
    hide HasSeq;
  }

  lemma LeastSeq(a: seq<Pkt>, b: seq<Pkt>)
    requires Sorted(b) && SameSeqs(a, b) && a != []
    ensures b != [] && b[0].seqNo <= a[0].seqNo
  {
    assert a[0].seqNo == a[0].seqNo && HasSeq(a, a[0].seqNo);
    assert HasSeq(b, a[0].seqNo);
  }

  lemma TailSeqs(a: seq<Pkt>, s: uint32)
    requires Sorted(a) && a != []
    ensures HasSeq(a[1..], s) <==> HasSeq(a, s) && s != a[0].seqNo
  {
    assert a == [a[0]] + a[1..];
    assert forall i :: 0 <= i < |a| - 1 ==> a[1..][i] == a[i + 1];
    if HasSeq(a, s) && s != a[0].seqNo {
      var i :| 0 <= i < |a| && a[i].seqNo == s;
      assert a[1..][i - 1] == a[i];
    }
  }

  lemma TailAlike(a: seq<Pkt>, b: seq<Pkt>)
    requires a != [] && b != [] && a[0].seqNo == b[0].seqNo
    requires Sorted(a) && Sorted(b) && SameSeqs(a, b) && SameBytes(a, b)
    ensures a[0].payload == b[0].payload
    ensures Sorted(a[1..]) && Sorted(b[1..]) && SameSeqs(a[1..], b[1..]) && SameBytes(a[1..], b[1..])
  {
    hide HasSeq;
    assert a[0] in a && b[0] in b;
    forall s: uint32
      ensures HasSeq(a[1..], s) <==> HasSeq(b[1..], s)
    {
      TailSeqs(a, s);
      TailSeqs(b, s);
    }
  }

  lemma SumTail(a: seq<Pkt>)
    requires a != []
    ensures SumLength(a) == |a[0].payload| + SumLength(a[1..])
  {}

  /** When a Seq names its packet, the message holds exactly the packets that arrived. */
  lemma FeedMembers(xs: seq<Pkt>)
    requires SeqNames(xs)
    ensures var m := Feed(EMPTY, xs);
            Sorted(m.packets) && Accounted(m) && forall p :: p in m.packets <==> p in xs
  {
    hide Feed, Accounted;
    FeedKeepsFirsts(xs);
    var m := Feed(EMPTY, xs);
    forall p | p in xs
      ensures p in m.packets
    {
      var k :| 0 <= k < |xs| && xs[k] == p;
      var i := FirstWith(xs, p.seqNo);
      assert xs[i] in xs;
    }
  }

  lemma {:induction false} FirstWith(xs: seq<Pkt>, s: uint32) returns (i: nat)
    requires HasSeq(xs, s)
    ensures FirstOfSeq(xs, i) && xs[i].seqNo == s
  {
    i := 0;
    while xs[i].seqNo != s
      invariant i < |xs| && forall j :: 0 <= j < i ==> xs[j].seqNo != s
      decreases |xs| - i
    {
      i := i + 1;
    }
  }

  lemma {:induction false} FeedRest(xs: seq<Pkt>)
    ensures var m := Feed(EMPTY, xs);
            m == EMPTY.(packets := m.packets, length := m.length, lost := m.lost, end := m.end)
  {
    hide HasSeq, Inserted;
    if xs != [] {
      FeedRest(xs[..|xs| - 1]);
    }
  }
}
