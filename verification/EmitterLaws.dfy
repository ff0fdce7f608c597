/** What `CopyMulty` guarantees over whole runs. */
module EmitterLaws {
  import opened Bytes
  import opened RecordLog
  import opened Emitter

  function Act(c: Settings, s: State, a: Arrival): Action {
    if s.failed then Nothing else Classify(c, s.pending, a.msg)
  }

  // ----- counting ------------------------------------------------------------------------

  /** A round filters a request whose identifier is pending already. */
  predicate Refilters(c: Settings, s: State, a: Arrival) {
    Act(c, s, a).Filter? && Act(c, s, a).id in s.pending
  }

  /** The entries a round's clean-up removes. */
  function CleanedBy(c: Settings, s: State, a: Arrival): int {
    match Act(c, s, a)
    case Filter(_) => 0
    case Suppress(_) => 0
    case _ => |s.pending| - |Step(c, s, a).pending|
  }

  /** How many rounds filtered a request, filtered one again, suppressed a response, and how many
      entries were cleaned up. */
  datatype Tally = Tally(filtered: nat, again: nat, suppressed: nat, cleaned: int)

  function Count(c: Settings, s: State, src: seq<Arrival>): Tally {
    if src == [] then Tally(0, 0, 0, 0)
    else
      var t := Count(c, s, src[..|src| - 1]);
      var before, a := Run(c, s, src[..|src| - 1]), src[|src| - 1];
      Tally(t.filtered + (if Act(c, before, a).Filter? then 1 else 0),
            t.again + (if Refilters(c, before, a) then 1 else 0),
            t.suppressed + (if Act(c, before, a).Suppress? then 1 else 0),
            t.cleaned + CleanedBy(c, before, a))
  }

  lemma MapSizes(m: map<seq<byte>, int>, id: seq<byte>, v: int)
    ensures |m[id := v]| == |m| + if id in m then 0 else 1
    ensures id in m ==> |m - {id}| == |m| - 1
  {
    assert m[id := v].Keys == m.Keys + {id};
    assert |m.Keys| == |m| && |m[id := v].Keys| == |m[id := v]|;
    if id in m {
      Removed(m, id);
    }
  }

  /** What one round does to the counter and to the number of pending identifiers. */
  lemma StepCounts(c: Settings, s: State, a: Arrival)
    ensures var t := Step(c, s, a);
            && t.filteredCount - |t.pending|
               == s.filteredCount - |s.pending| + (if Refilters(c, s, a) then 1 else 0)
            && |t.pending| == |s.pending|
               + (if Act(c, s, a).Filter? then 1 else 0) - (if Refilters(c, s, a) then 1 else 0)
               - (if Act(c, s, a).Suppress? then 1 else 0) - CleanedBy(c, s, a)
  {
    hide Step, Classify, GiveTo, Kept;
    if s.failed {
      StepFailed(c, s, a);
    } else {
      StepBy(c, s, a);
      match Classify(c, s.pending, a.msg)
      case Filter(id) => MapSizes(s.pending, id, a.stamp);
      case Suppress(id) =>
        SuppressPending(c, s.pending, a.msg);
        MapSizes(s.pending, id, 0);
      case _ =>
    }
  }

  lemma SuppressPending(c: Settings, pending: map<seq<byte>, int>, msg: Option<Record>)
    requires Classify(c, pending, msg).Suppress?
    ensures Classify(c, pending, msg).id in pending
  {
    hide PayloadMeta;
  }

  lemma StepFailed(c: Settings, s: State, a: Arrival)
    requires s.failed
    ensures Step(c, s, a) == s
  {}

  /** In every run the counter exceeds the number of pending identifiers by the number of requests
      filtered while their identifier was pending, so it never goes negative; and every filtered
      request is pending, was filtered again, had a response suppressed, or was cleaned up. */
  lemma {:induction false} CounterAccounts(c: Settings, outputs: nat, start: int, src: seq<Arrival>)
    ensures var s := Run(c, Start(outputs, start), src);
            var t := Count(c, Start(outputs, start), src);
            && s.filteredCount == |s.pending| + t.again
            && t.filtered == |s.pending| + t.again + t.suppressed + t.cleaned
            && t.cleaned >= 0
  {
    hide Step, Act, Refilters, CleanedBy;
    if src != [] {
      CounterAccounts(c, outputs, start, src[..|src| - 1]);
      var s := Run(c, Start(outputs, start), src[..|src| - 1]);
      StepCounts(c, s, src[|src| - 1]);
      CleanedSome(c, s, src[|src| - 1]);
    }
  }

  lemma CleanedSome(c: Settings, s: State, a: Arrival)
    ensures CleanedBy(c, s, a) >= 0
  {
    hide PayloadMeta, GiveTo, Kept;
    if !s.failed {
      StepBy(c, s, a);
      KeptSize(s.pending, a.now);
    }
  }

  lemma KeptSize(m: map<seq<byte>, int>, now: int)
    ensures |Kept(m, now)| <= |m|
  {
    assert Kept(m, now).Keys <= m.Keys;
    Subset(Kept(m, now).Keys, m.Keys);
    assert |m.Keys| == |m| && |Kept(m, now).Keys| == |Kept(m, now)|;
  }

  lemma {:induction false} Subset(a: set<seq<byte>>, b: set<seq<byte>>)
    requires a <= b
    ensures |a| <= |b|
  {
    if a != {} {
      var x :| x in a;
      Subset(a - {x}, b - {x});
    }
  }

  // ----- which responses are suppressed ------------------------------------------------------

  /** The state in which round `i` begins. */
  function Before(c: Settings, s: State, src: seq<Arrival>, i: nat): State
    requires i <= |src|
  {
    Run(c, s, src[..i])
  }

  /** The data of a message as far as they fit the buffer. */
  function Fitting(c: Settings, data: seq<byte>): seq<byte> {
    if |data| <= c.bufferSize then data else data[..c.bufferSize]
  }

  /** Round `i` brings a message with the identifier `id`, a request or not. */
  predicate Brings(src: seq<Arrival>, i: nat, request: bool, id: seq<byte>)
    requires i < |src|
  {
    && src[i].msg.Some? && src[i].msg.value.data != []
    && var meta := src[i].msg.value.meta;
    && (request <==> meta != [] && [meta[0]] == Ascii("1"))
    && |PayloadMeta(meta)| >= 3 && PayloadMeta(meta)[1] == id
  }

  /** Round `i` filters a request `id`: the modifier leaves nothing of it. */
  predicate Filters(c: Settings, s: State, src: seq<Arrival>, i: nat, id: seq<byte>)
    requires i < |src|
  {
    && !Before(c, s, src, i).failed && c.hasModifier
    && Brings(src, i, true, id) && c.rewrite(Fitting(c, src[i].msg.value.data)) == []
  }

  /** Round `i` suppresses a response `id`: its request is pending. */
  predicate Suppresses(c: Settings, s: State, src: seq<Arrival>, i: nat, id: seq<byte>)
    requires i < |src|
  {
    && !Before(c, s, src, i).failed && c.hasModifier
    && Brings(src, i, false, id) && id in Before(c, s, src, i).pending
  }

  /** Round `i` hands a message to the outputs: a well-formed one that is neither filtered nor suppressed. */
  predicate Hands(c: Settings, s: State, src: seq<Arrival>, i: nat)
    requires i < |src|
  {
    && !Before(c, s, src, i).failed && src[i].msg.Some? && src[i].msg.value.data != []
    && var meta := PayloadMeta(src[i].msg.value.meta);
    |meta| >= 3 && !Filters(c, s, src, i, meta[1]) && !Suppresses(c, s, src, i, meta[1])
  }

  /** What is handed over then: the message with its meta data unchanged, its data as far as they fit, and
      rewritten if it is a request and there is a modifier. */
  function HandedOver(c: Settings, src: seq<Arrival>, i: nat): Record
    requires i < |src| && src[i].msg.Some?
  {
    var m := src[i].msg.value;
    var data := Fitting(c, m.data);
    Record(m.meta, if c.hasModifier && m.meta != [] && [m.meta[0]] == Ascii("1") then c.rewrite(data) else data)
  }

  /** Round `i` reaches the clean-up: it brings nothing, or hands its message to outputs that do not fail. */
  predicate GoesThrough(c: Settings, s: State, src: seq<Arrival>, i: nat)
    requires i < |src|
  {
    && !Before(c, s, src, i).failed
    && (src[i].msg == None || src[i].msg.value.data == []
        || (Hands(c, s, src, i) && forall w: nat :: w < |Before(c, s, src, i).received| ==> w !in src[i].failing))
  }

  /** The clean-up is due: a thousand requests, or a multiple, are counted as filtered, and the last one is
      more than a minute ago. */
  predicate Due(c: Settings, s: State, src: seq<Arrival>, i: nat)
    requires i < |src|
  {
    var b := Before(c, s, src, i);
    b.filteredCount > 0 && b.filteredCount % 1000 == 0 && src[i].now > b.lastClean + 60_000_000_000
  }

  /** Round `i` ends with a clean-up that finds the entry of `id` more than a minute old. */
  predicate Expires(c: Settings, s: State, src: seq<Arrival>, i: nat, id: seq<byte>)
    requires i < |src|
  {
    var b := Before(c, s, src, i);
    && GoesThrough(c, s, src, i) && Due(c, s, src, i)
    && id in b.pending && src[i].now > b.pending[id] + 60_000_000_000
  }

  /** What the four predicates say about the step of the machine. */
  lemma ActMeans(c: Settings, s: State, src: seq<Arrival>, i: nat)
    requires i < |src| && !Before(c, s, src, i).failed
    ensures var act := Act(c, Before(c, s, src, i), src[i]);
            && (forall id :: act == Filter(id) <==> Filters(c, s, src, i, id))
            && (forall id :: act == Suppress(id) <==> Suppresses(c, s, src, i, id))
            && (act.Deliver? <==> Hands(c, s, src, i))
            && (act.Deliver? ==> src[i].msg.Some? && act.msg == HandedOver(c, src, i))
            && (act.Nothing? <==> src[i].msg == None || src[i].msg.value.data == [])
  {
    hide Before, PayloadMeta;
    var b, a := Before(c, s, src, i), src[i];
    if a.msg.Some? && a.msg.value.data != [] && |PayloadMeta(a.msg.value.meta)| >= 3 {
      var meta := a.msg.value.meta;
      RequestByte(meta);
      var id := PayloadMeta(meta)[1];
      assert Brings(src, i, IsRequestPayload(meta), id);
    }
  }

  lemma RequestByte(meta: seq<byte>)
    ensures IsRequestPayload(meta) <==> meta != [] && [meta[0]] == Ascii("1")
  {
    assert Ascii("1") == [49];
  }

  /** Round `i` neither uses up nor cleans up the entry of `id`, nor makes a new one. */
  predicate Leaves(c: Settings, s: State, src: seq<Arrival>, i: nat, id: seq<byte>)
    requires i < |src|
  {
    !Filters(c, s, src, i, id) && !Suppresses(c, s, src, i, id) && !Expires(c, s, src, i, id)
  }

  /** One round: an entry is there afterwards if the round made it, or if it was there and the round
      leaves it; and then its time is the one it had. */
  lemma PendingStep(c: Settings, s: State, src: seq<Arrival>, i: nat, id: seq<byte>)
    requires i < |src|
    ensures var b, t := Before(c, s, src, i), Before(c, s, src, i + 1);
            && (id in t.pending <==>
                  Filters(c, s, src, i, id) || (id in b.pending && Leaves(c, s, src, i, id)))
            && (id in t.pending ==> t.pending[id] == if Filters(c, s, src, i, id) then src[i].stamp else b.pending[id])
  {
    hide *;
    RunStep(c, s, src, i);
    BeforeIs(c, s, src, i);
    BeforeIs(c, s, src, i + 1);
    var b, a := Before(c, s, src, i), src[i];
    LeavesIs(c, s, src, i, id);
    if b.failed {
      AfterFailure(c, b, a);
      NothingInFailure(c, s, src, i, id);
    } else {
      StepBy(c, b, a);
      ActIs(c, b, a);
      ActMeans(c, s, src, i);
      PendingBy(c, s, src, i, id);
    }
  }

  lemma BeforeIs(c: Settings, s: State, src: seq<Arrival>, i: nat)
    requires i <= |src|
    ensures Before(c, s, src, i) == Run(c, s, src[..i])
  {
    hide Run;
  }

  lemma ActIs(c: Settings, s: State, a: Arrival)
    requires !s.failed
    ensures Act(c, s, a) == Classify(c, s.pending, a.msg)
  {
    hide Classify;
  }

  lemma LeavesIs(c: Settings, s: State, src: seq<Arrival>, i: nat, id: seq<byte>)
    requires i < |src|
    ensures Leaves(c, s, src, i, id) <==>
              !Filters(c, s, src, i, id) && !Suppresses(c, s, src, i, id) && !Expires(c, s, src, i, id)
  {
    hide Filters, Suppresses, Expires;
  }

  lemma NothingInFailure(c: Settings, s: State, src: seq<Arrival>, i: nat, id: seq<byte>)
    requires i < |src| && Before(c, s, src, i).failed
    ensures !Filters(c, s, src, i, id) && !Suppresses(c, s, src, i, id) && !Expires(c, s, src, i, id)
  {
    hide Before, Brings, Hands;
  }

  /** What the step does to the entry of `id`. */
  lemma PendingBy(c: Settings, s: State, src: seq<Arrival>, i: nat, id: seq<byte>)
    requires i < |src| && !Before(c, s, src, i).failed
    ensures var b, a := Before(c, s, src, i), src[i];
            var t := Step(c, b, a);
            && (id in t.pending <==>
                  Act(c, b, a) == Filter(id)
                  || (id in b.pending && Act(c, b, a) != Suppress(id) && !Expires(c, s, src, i, id)))
            && (id in t.pending ==> t.pending[id] == if Act(c, b, a) == Filter(id) then a.stamp else b.pending[id])
  {
    hide Before, Classify, GiveTo, Step, Brings, Filters, Suppresses, Hands;
    var b, a := Before(c, s, src, i), src[i];
    StepBy(c, b, a);
    ActMeans(c, s, src, i);
    match Classify(c, b.pending, a.msg)
    case Deliver(m) => GiveToReaches(b.received, m, a.failing, |b.received|);
    case _ =>
  }

  lemma AfterFailure(c: Settings, s: State, a: Arrival)
    requires s.failed
    ensures Step(c, s, a) == s
  {}

  /** Round `j` filtered a request `id`, and its entry has not been touched since. */
  predicate Open(c: Settings, s: State, src: seq<Arrival>, id: seq<byte>, j: nat, i: nat)
    requires j < i <= |src|
  {
    Filters(c, s, src, j, id) && forall k :: j < k < i ==> Leaves(c, s, src, k, id)
  }

  /** An identifier is pending exactly when a request with it was filtered whose entry no response
      has used up and no clean-up has removed since; the entry's time is that request's. */
  lemma {:induction false} PendingMeans(c: Settings, s: State, src: seq<Arrival>, i: nat, id: seq<byte>)
    requires s.pending == map[] && i <= |src|
    ensures id in Before(c, s, src, i).pending <==> exists j: nat :: j < i && Open(c, s, src, id, j, i)
    ensures forall j: nat :: j < i && Open(c, s, src, id, j, i) ==>
              id in Before(c, s, src, i).pending && Before(c, s, src, i).pending[id] == src[j].stamp
  {
    hide Filters, Leaves, Before;
    if i == 0 {
      assert Before(c, s, src, 0) == s by { FirstRound(c, s, src); }
    } else {
      PendingMeans(c, s, src, i - 1, id);
      PendingStep(c, s, src, i - 1, id);
      forall j: nat | j < i
        ensures Open(c, s, src, id, j, i) <==>
                  if j == i - 1 then Filters(c, s, src, j, id)
                  else Open(c, s, src, id, j, i - 1) && Leaves(c, s, src, i - 1, id)
      {
        if j < i - 1 {
          OpenStep(c, s, src, id, j, i - 1);
        }
      }
      LeavesFilters(c, s, src, i - 1, id);
    }
  }

  lemma FirstRound(c: Settings, s: State, src: seq<Arrival>)
    ensures Before(c, s, src, 0) == s
  {}

  lemma LeavesFilters(c: Settings, s: State, src: seq<Arrival>, i: nat, id: seq<byte>)
    requires i < |src|
    ensures Leaves(c, s, src, i, id) ==> !Filters(c, s, src, i, id)
  {
    hide Filters, Suppresses, Expires;
  }

  lemma OpenStep(c: Settings, s: State, src: seq<Arrival>, id: seq<byte>, j: nat, i: nat)
    requires j < i < |src|
    ensures Open(c, s, src, id, j, i + 1) <==> Open(c, s, src, id, j, i) && Leaves(c, s, src, i, id)
  {
    hide Filters, Leaves;
  }

  /** A response is suppressed exactly when a request with its identifier was filtered whose entry
      no other response has used up and no clean-up has removed. */
  lemma SuppressedExactly(c: Settings, outputs: nat, start: int, src: seq<Arrival>, i: nat, id: seq<byte>)
    requires i < |src| && c.hasModifier && Brings(src, i, false, id)
    requires !Before(c, Start(outputs, start), src, i).failed
    ensures Suppresses(c, Start(outputs, start), src, i, id)
            <==> exists j: nat :: j < i && Open(c, Start(outputs, start), src, id, j, i)
  {
    hide Open, Run, PayloadMeta;
    PendingMeans(c, Start(outputs, start), src, i, id);
  }

  /** No clean-up removes an entry a minute old or younger, and the clean-up that is due removes every older
      one and starts the next minute. */
  lemma CleansWhenDue(c: Settings, s: State, src: seq<Arrival>, i: nat)
    requires i < |src|
    ensures var b, t := Before(c, s, src, i), Before(c, s, src, i + 1);
            && (GoesThrough(c, s, src, i) && Due(c, s, src, i) ==>
                  t.lastClean == src[i].cleaned
                  && t.filteredCount == b.filteredCount - (|b.pending| - |t.pending|)
                  && forall id :: id in t.pending <==>
                       id in b.pending && src[i].now <= b.pending[id] + 60_000_000_000)
            && (!(GoesThrough(c, s, src, i) && Due(c, s, src, i)) ==> t.lastClean == b.lastClean)
  {
    hide *;
    RunStep(c, s, src, i);
    BeforeIs(c, s, src, i);
    BeforeIs(c, s, src, i + 1);
    var b, a := Before(c, s, src, i), src[i];
    if b.failed {
      AfterFailure(c, b, a);
      ThroughUnfailed(c, s, src, i);
    } else {
      StepBy(c, b, a);
      ActIs(c, b, a);
      ActMeans(c, s, src, i);
      CleanedWhen(c, s, src, i);
    }
  }

  lemma ThroughUnfailed(c: Settings, s: State, src: seq<Arrival>, i: nat)
    requires i < |src| && Before(c, s, src, i).failed
    ensures !GoesThrough(c, s, src, i)
  {
    hide Before, Hands;
  }

  lemma CleanedWhen(c: Settings, s: State, src: seq<Arrival>, i: nat)
    requires i < |src| && !Before(c, s, src, i).failed
    ensures var b := Before(c, s, src, i);
            var t := Step(c, b, src[i]);
            && (GoesThrough(c, s, src, i) && Due(c, s, src, i) ==>
                  t.lastClean == src[i].cleaned
                  && t.filteredCount == b.filteredCount - (|b.pending| - |t.pending|)
                  && forall id :: id in t.pending <==>
                       id in b.pending && src[i].now <= b.pending[id] + 60_000_000_000)
            && (!(GoesThrough(c, s, src, i) && Due(c, s, src, i)) ==> t.lastClean == b.lastClean)
  {
    hide Before, Classify, GiveTo, Step, Brings, Filters, Suppresses, Hands;
    var b, a := Before(c, s, src, i), src[i];
    StepBy(c, b, a);
    ActMeans(c, s, src, i);
    match Classify(c, b.pending, a.msg)
    case Deliver(m) => GiveToReaches(b.received, m, a.failing, |b.received|);
    case _ =>
  }

  /** No clean-up removes an entry that is a minute old or younger. */
  lemma YoungKept(c: Settings, s: State, src: seq<Arrival>, i: nat, id: seq<byte>)
    requires i < |src| && id in Before(c, s, src, i).pending
    requires src[i].now - Before(c, s, src, i).pending[id] <= MINUTE
    requires !Suppresses(c, s, src, i, id)
    ensures id in Before(c, s, src, i + 1).pending
  {
    hide Filters, Suppresses, Before, GoesThrough, Due;
    PendingStep(c, s, src, i, id);
  }

  // ----- what the outputs receive --------------------------------------------------------------

  /** The messages handed to the outputs, in order. */
  function Delivered(c: Settings, s: State, src: seq<Arrival>): seq<Record> {
    if src == [] then []
    else
      var before := Delivered(c, s, src[..|src| - 1]);
      match Act(c, Run(c, s, src[..|src| - 1]), src[|src| - 1])
      case Deliver(m) => before + [m]
      case _ => before
  }

  /** The messages of the rounds that hand one over, in order. */
  function AllHanded(c: Settings, s: State, src: seq<Arrival>, n: nat): seq<Record>
    requires n <= |src|
  {
    if n == 0 then []
    else AllHanded(c, s, src, n - 1)
         + if Hands(c, s, src, n - 1) && src[n - 1].msg.Some? then [HandedOver(c, src, n - 1)] else []
  }

  lemma {:induction false} DeliveredIsHanded(c: Settings, s: State, src: seq<Arrival>, n: nat)
    requires n <= |src| && !Run(c, s, src[..n]).failed
    ensures Delivered(c, s, src[..n]) == AllHanded(c, s, src, n)
  {
    hide Act, Hands, HandedOver, Step;
    if n > 0 {
      assert src[..n][..n - 1] == src[..n - 1];
      RunStep(c, s, src, n - 1);
      if Run(c, s, src[..n - 1]).failed {
        AfterFailure(c, Run(c, s, src[..n - 1]), src[n - 1]);
      } else {
        DeliveredIsHanded(c, s, src, n - 1);
        BeforeIs(c, s, src, n - 1);
        ActMeans(c, s, src, n - 1);
        if Hands(c, s, src, n - 1) {
          HandsSome(c, s, src, n - 1);
        }
      }
    }
  }

  lemma HandsSome(c: Settings, s: State, src: seq<Arrival>, i: nat)
    requires i < |src| && Hands(c, s, src, i)
    ensures src[i].msg.Some?
  {
    hide Filters, Suppresses, Before;
  }

  /** While no output fails, every output has received, in order, the messages of exactly the rounds that
      hand one over: well-formed ones that are neither filtered nor suppressed, with unchanged meta data,
      cut to the buffer, requests as the modifier rewrote them. */
  lemma AllReceive(c: Settings, outputs: nat, start: int, src: seq<Arrival>)
    ensures var s := Run(c, Start(outputs, start), src);
            && |s.received| == outputs
            && (!s.failed ==> forall w :: 0 <= w < outputs ==>
                                s.received[w] == AllHanded(c, Start(outputs, start), src, |src|))
  {
    hide Run, Start, Delivered, AllHanded;
    SameForAll(c, outputs, start, src);
    assert src[..|src|] == src;
    if !Run(c, Start(outputs, start), src).failed {
      DeliveredIsHanded(c, Start(outputs, start), src, |src|);
    }
  }

  /** `GiveTo` reaches the outputs up to the first failing one. */
  lemma {:induction false} GiveToReaches(received: seq<seq<Record>>, m: Record, failing: set<nat>, n: nat)
    requires n <= |received|
    ensures var (given, failed) := GiveTo(received, m, failing, n);
            && (failed <==> exists w: nat :: w < n && w in failing)
            && forall w: nat :: w < |received| ==>
                 given[w] == if w < n && (forall x: nat :: x < w ==> x !in failing)
                             then received[w] + [m] else received[w]
  {
    if n > 0 {
      GiveToReaches(received, m, failing, n - 1);
    }
  }

  lemma CleanUpDelivers(s: State, a: Arrival)
    ensures CleanUp(s, a).received == s.received && CleanUp(s, a).failed == s.failed
  {
    hide Kept;
  }

  /** While no output fails, every output has received the same messages in the same order. */
  lemma {:induction false} SameForAll(c: Settings, outputs: nat, start: int, src: seq<Arrival>)
    ensures var s := Run(c, Start(outputs, start), src);
            && |s.received| == outputs
            && (!s.failed ==> forall w :: 0 <= w < outputs ==>
                                s.received[w] == Delivered(c, Start(outputs, start), src))
  {
    hide Classify, CleanUp, GiveTo, Step;
    if src != [] {
      var s0 := Start(outputs, start);
      var t, a := src[..|src| - 1], src[|src| - 1];
      SameForAll(c, outputs, start, t);
      var s := Run(c, s0, t);
      if s.failed {
        AfterFailure(c, s, a);
      } else {
        StepBy(c, s, a);
        CleanUpDelivers(s, a);
        match Classify(c, s.pending, a.msg)
        case Deliver(m) =>
          GiveToReaches(s.received, m, a.failing, outputs);
          CleanUpDelivers(s.(received := GiveTo(s.received, m, a.failing, outputs).0), a);
        case _ =>
      }
    }
  }

  /** The outputs up to `f` have received `all`, those behind it everything but the last message. */
  predicate CutAt(received: seq<seq<Record>>, all: seq<Record>, f: nat)
    requires all != []
  {
    f < |received| &&
    forall w :: 0 <= w < |received| ==> received[w] == if w <= f then all else all[..|all| - 1]
  }

  /** When an output ends the loop, it and the outputs before it have received everything, and those
      behind it everything but the last message. */
  lemma {:induction false} EndedEarly(c: Settings, outputs: nat, start: int, src: seq<Arrival>)
    requires Run(c, Start(outputs, start), src).failed
    ensures var all := Delivered(c, Start(outputs, start), src);
            all != [] && exists f: nat :: CutAt(Run(c, Start(outputs, start), src).received, all, f)
  {
    hide Classify, CleanUp, GiveTo, Step, CutAt;
    var s0 := Start(outputs, start);
    if src != [] {
      var t, a := src[..|src| - 1], src[|src| - 1];
      var s := Run(c, s0, t);
      if s.failed {
        AfterFailure(c, s, a);
        EndedEarly(c, outputs, start, t);
      } else {
        SameForAll(c, outputs, start, t);
        FailsHere(c, s, a, Delivered(c, s0, t));
      }
    }
  }

  lemma FailsHere(c: Settings, s: State, a: Arrival, all: seq<Record>)
    requires !s.failed && Step(c, s, a).failed
    requires forall w :: 0 <= w < |s.received| ==> s.received[w] == all
    ensures Act(c, s, a).Deliver?
    ensures exists f: nat :: CutAt(Step(c, s, a).received, all + [Act(c, s, a).msg], f)
  {
    hide Classify, CleanUp, GiveTo, Step;
    StepBy(c, s, a);
    CleanUpDelivers(s, a);
    match Classify(c, s.pending, a.msg)
    case Deliver(m) =>
      var n := |s.received|;
      GiveToReaches(s.received, m, a.failing, n);
      CleanUpDelivers(s.(received := GiveTo(s.received, m, a.failing, n).0), a);
      var f := FirstOf(a.failing, n);
      assert (all + [m])[..|all|] == all;
      assert CutAt(Step(c, s, a).received, all + [m], f);
    case _ =>
  }

  lemma FirstOf(failing: set<nat>, n: nat) returns (f: nat)
    requires exists w: nat :: w < n && w in failing
    ensures f < n && f in failing && forall x: nat :: x < f ==> x !in failing
  {
    f := 0;
    while f !in failing
      invariant f < n && forall x: nat :: x < f ==> x !in failing
      invariant exists w: nat :: f <= w < n && w in failing
      decreases n - f
    {
      f := f + 1;
    }
  }
}
