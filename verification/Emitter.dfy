/** emitter.go: `CopyMulty` copies one input to several outputs and filters as the modifier says. */
module Emitter {
  import opened Bytes
  import opened RecordLog

  /** `rewrite` is the modifier's `Rewrite`; it returns nothing for a request that is filtered out. */
  datatype Settings = Settings(bufferSize: nat, hasModifier: bool, rewrite: seq<byte> -> seq<byte>)

  /** One round of the loop: what the input returned, the clock as the round would read it when it
      filters (`stamp`), when it looks for old entries (`now`) and when it has cleaned (`cleaned`),
      and which outputs would answer this message with an error that ends the loop. */
  datatype Arrival = Arrival(msg: Option<Record>, stamp: int, now: int, cleaned: int, failing: set<nat>)

  /** The loop's variables, what each output was given, and whether an output ended the loop. */
  datatype State = State(filteredCount: int, lastClean: int, pending: map<seq<byte>, int>,
                         received: seq<seq<Record>>, failed: bool)

  const MINUTE: int := 60_000_000_000

  /** What a round does with its message. */
  datatype Action = Nothing | Malformed | Filter(id: seq<byte>) | Suppress(id: seq<byte>) | Deliver(msg: Record)

  function Truncated(c: Settings, m: Record): Record {
    if |m.data| > c.bufferSize then m.(data := m.data[..c.bufferSize]) else m
  }

  predicate IsRequestPayload(meta: seq<byte>) {
    meta != [] && meta[0] == REQUEST_PAYLOAD
  }

  function Classify(c: Settings, pending: map<seq<byte>, int>, msg: Option<Record>): Action {
    if msg == None || msg.value.data == [] then Nothing
    else
      var m := Truncated(c, msg.value);
      var meta := PayloadMeta(m.meta);
      if |meta| < 3 then Malformed
      else if !c.hasModifier then Deliver(m)
      else if IsRequestPayload(m.meta) then
        var data := c.rewrite(m.data);
        if data == [] then Filter(meta[1]) else Deliver(m.(data := data))
      else if meta[1] in pending then Suppress(meta[1])
      else Deliver(m)
  }

  function Kept(pending: map<seq<byte>, int>, now: int): map<seq<byte>, int> {
    map id | id in pending && now - pending[id] <= MINUTE :: pending[id]
  }

  predicate CleansNow(s: State, a: Arrival) {
    s.filteredCount > 0 && s.filteredCount % 1000 == 0 && a.now - s.lastClean > MINUTE
  }

  function CleanUp(s: State, a: Arrival): State {
    if !CleansNow(s, a) then s
    else
      var kept := Kept(s.pending, a.now);
      s.(filteredCount := s.filteredCount - (|s.pending| - |kept|), lastClean := a.cleaned, pending := kept)
  }

  /** The outputs up to the first failing one are given `m`. */
  function GiveTo(received: seq<seq<Record>>, m: Record, failing: set<nat>, n: nat): (r: (seq<seq<Record>>, bool))
    requires n <= |received|
    ensures |r.0| == |received|
  {
    if n == 0 then (received, false)
    else
      var (given, failed) := GiveTo(received, m, failing, n - 1);
      if failed then (given, true)
      else (given[n - 1 := given[n - 1] + [m]], n - 1 in failing)
  }

  function Step(c: Settings, s: State, a: Arrival): State {
    if s.failed then s
    else
      match Classify(c, s.pending, a.msg)
      case Nothing => CleanUp(s, a)
      case Malformed => s
      case Filter(id) => s.(filteredCount := s.filteredCount + 1, pending := s.pending[id := a.stamp])
      case Suppress(id) => s.(filteredCount := s.filteredCount - 1, pending := s.pending - {id})
      case Deliver(m) =>
        var (given, failed) := GiveTo(s.received, m, a.failing, |s.received|);
        if failed then s.(received := given, failed := true)
        else CleanUp(s.(received := given), a)
  }

  function Start(outputs: nat, now: int): State {
    State(0, now, map[], seq(outputs, i => []), false)
  }

  /** The state after a number of rounds. */
  function Run(c: Settings, s: State, src: seq<Arrival>): State {
    if src == [] then s else Step(c, Run(c, s, src[..|src| - 1]), src[|src| - 1])
  }

  lemma RunStep(c: Settings, s: State, src: seq<Arrival>, i: nat)
    requires i < |src|
    ensures Run(c, s, src[..i + 1]) == Step(c, Run(c, s, src[..i]), src[i])
  {
    assert src[..i + 1][..i] == src[..i];
  }

  // ----- the loop -----------------------------------------------------------------------

  /** The clean-up loop, in whatever order the map is walked. */
  method RemoveOld(pending: map<seq<byte>, int>, filteredCount: int, now: int)
    returns (kept: map<seq<byte>, int>, count: int)
    ensures kept == Kept(pending, now)
    ensures count == filteredCount - (|pending| - |kept|)
  {
    kept, count := pending, filteredCount;
    var keys := pending.Keys;
    while keys != {}
      invariant keys <= kept.Keys <= pending.Keys
      invariant forall id :: id in kept ==> kept[id] == pending[id]
      invariant forall id :: id in pending && id !in keys ==> (id in kept <==> now - pending[id] <= MINUTE)
      invariant count == filteredCount - (|pending| - |kept|)
      decreases |keys|
    {
      var k :| k in keys;
      keys := keys - {k};
      if now - kept[k] > MINUTE {
        Removed(kept, k);
        kept := kept - {k};
        count := count - 1;
      }
    }
  }

  lemma Removed(m: map<seq<byte>, int>, k: seq<byte>)
    requires k in m
    ensures |m - {k}| == |m| - 1
  {
    assert (m - {k}).Keys == m.Keys - {k};
    assert |m.Keys| == |m|;
    assert |(m - {k}).Keys| == |m - {k}|;
  }

  /** The writing loop; it stops at the first output whose error is not that of a closed pipe. */
  method WriteAll(received: seq<seq<Record>>, m: Record, failing: set<nat>)
    returns (given: seq<seq<Record>>, failed: bool)
    ensures (given, failed) == GiveTo(received, m, failing, |received|)
  {
    given, failed := received, false;
    var i := 0;
    while i < |received|
      invariant 0 <= i <= |received| && |given| == |received|
      invariant (given, failed) == GiveTo(received, m, failing, i) && !failed
    {
      given := given[i := given[i] + [m]];
      if i in failing {
        failed := true;
        Stopped(received, m, failing, i + 1, |received|);
        return;
      }
      i := i + 1;
    }
  }

  lemma {:induction false} Stopped(received: seq<seq<Record>>, m: Record, failing: set<nat>, i: nat, n: nat)
    requires i <= n <= |received| && GiveTo(received, m, failing, i).1
    ensures GiveTo(received, m, failing, n) == GiveTo(received, m, failing, i)
  {
    if i < n {
      Stopped(received, m, failing, i, n - 1);
    }
  }

  /** `CopyMulty` over the rounds up to the one in which the input reports an error. */
  method CopyMulty(c: Settings, src: seq<Arrival>, outputs: nat, start: int)
    returns (received: seq<seq<Record>>, failed: bool, filteredCount: int, filteredRequests: map<seq<byte>, int>)
    ensures var s := Run(c, Start(outputs, start), src);
            && received == s.received && failed == s.failed
            && filteredCount == s.filteredCount && filteredRequests == s.pending
  {
    hide Step, Run, PayloadMeta, GiveTo, Kept;
    filteredCount := 0;
    var lastCleanTime := start;
    filteredRequests := map[];
    received, failed := seq(outputs, i => []), false;
    ghost var s0 := Start(outputs, start);
    assert Run(c, s0, []) == s0 by { NoRounds(c, s0); }
    for i := 0 to |src|
      invariant !failed
      invariant Run(c, s0, src[..i]) == State(filteredCount, lastCleanTime, filteredRequests, received, failed)
    {
      ghost var s := State(filteredCount, lastCleanTime, filteredRequests, received, failed);
      var a := src[i];
      RunStep(c, s0, src, i);
      StepBy(c, s, a);
      ghost var action := Classify(c, filteredRequests, a.msg);
      if a.msg.Some? && |a.msg.value.data| > 0 {
        var msg := a.msg.value;
        if |msg.data| > c.bufferSize {
          msg := msg.(data := msg.data[..c.bufferSize]);
        }
        var meta := PayloadMeta(msg.meta);
        if |meta| < 3 {
          continue;
        }
        var requestID := meta[1];
        if c.hasModifier {
          if IsRequestPayload(msg.meta) {
            msg := msg.(data := c.rewrite(msg.data));
            if |msg.data| == 0 {
              filteredRequests := filteredRequests[requestID := a.stamp];
              filteredCount := filteredCount + 1;
              continue;
            }
          } else if requestID in filteredRequests {
            filteredRequests := filteredRequests - {requestID};
            filteredCount := filteredCount - 1;
            continue;
          }
        }
        received, failed := WriteAll(received, msg, a.failing);
        if failed {
          EndedBy(c, s0, src, i + 1);
          return;
        }
      }
      if filteredCount > 0 && filteredCount % 1000 == 0 {
        if a.now - lastCleanTime > MINUTE {
          filteredRequests, filteredCount := RemoveOld(filteredRequests, filteredCount, a.now);
          lastCleanTime := a.cleaned;
        }
      }
    }
    assert src[..|src|] == src;
  }

  lemma NoRounds(c: Settings, s: State)
    ensures Run(c, s, []) == s
  {}

  lemma StepBy(c: Settings, s: State, a: Arrival)
    requires !s.failed
    ensures match Classify(c, s.pending, a.msg)
            case Nothing => Step(c, s, a) == CleanUp(s, a)
            case Malformed => Step(c, s, a) == s
            case Filter(id) =>
              Step(c, s, a) == s.(filteredCount := s.filteredCount + 1, pending := s.pending[id := a.stamp])
            case Suppress(id) =>
              Step(c, s, a) == s.(filteredCount := s.filteredCount - 1, pending := s.pending - {id})
            case Deliver(m) =>
              var (given, failed) := GiveTo(s.received, m, a.failing, |s.received|);
              Step(c, s, a)
              == if failed then s.(received := given, failed := true) else CleanUp(s.(received := given), a)
  {
    hide Classify, CleanUp, GiveTo;
  }

  /** Once an output failed nothing changes any more. */
  lemma {:induction false} EndedBy(c: Settings, s: State, src: seq<Arrival>, i: nat)
    requires i <= |src| && Run(c, s, src[..i]).failed
    ensures Run(c, s, src) == Run(c, s, src[..i])
  {
    hide Classify, CleanUp, GiveTo;
    if i == |src| {
      assert src[..i] == src;
    } else {
      assert src[..|src| - 1][..i] == src[..i];
      EndedBy(c, s, src[..|src| - 1], i);
    }
  }
}
