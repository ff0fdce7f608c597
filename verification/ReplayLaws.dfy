/** What a replay of several record logs sends, in which order, and at what pace. */
module ReplayLaws {
  import opened Bytes
  import opened Decimal
  import opened RecordLog
  import opened LogLaws
  import opened Replay

  /** The records an emission takes from one file, in order. */
  function FromFile(out: seq<Item>, file: nat): seq<Parsed> {
    if out == [] then []
    else (if out[0].file == file then [out[0].record] else []) + FromFile(out[1..], file)
  }

  lemma FromFileCons(x: Item, out: seq<Item>, file: nat)
    ensures FromFile([x] + out, file) == (if x.file == file then [x.record] else []) + FromFile(out, file)
  {
    assert ([x] + out)[1..] == out;
  }

  // ----- the choice ---------------------------------------------------------------------

  /** The chosen record is the earliest, and the first of the earliest. */
  lemma {:induction false} BestIs(qs: seq<Reading>, n: nat)
    requires n <= |qs|
    ensures Best(qs, n) == None ==> forall j :: 0 <= j < n ==> qs[j].records == []
    ensures Best(qs, n).Some? ==>
              var i := Best(qs, n).value;
              forall j :: 0 <= j < n && qs[j].records != [] ==>
                qs[i].records[0].timestamp <= qs[j].records[0].timestamp
                && (j < i ==> qs[i].records[0].timestamp < qs[j].records[0].timestamp)
  {
    if n > 0 {
      BestIs(qs, n - 1);
    }
  }

  /** No record behind a good one is malformed. */
  predicate Sound(q: Reading) {
    q.ok || q.records == []
  }

  // ----- conservation -------------------------------------------------------------------

  /** A replay comes to its end exactly when no record of any file is malformed behind a good one;
      it then sends every record of every file exactly once, in the order of its file. */
  lemma {:induction false} EachOnce(qs: seq<Reading>)
    ensures Merge(qs).ok <==> forall j :: 0 <= j < |qs| ==> Sound(qs[j])
    ensures Merge(qs).ok ==> forall j :: 0 <= j < |qs| ==> FromFile(Merge(qs).out, j) == qs[j].records
    ensures forall x :: x in Merge(qs).out ==> x.file < |qs|
    decreases Total(qs)
  {
    hide Best, Total, FromFile;
    BestIs(qs, |qs|);
    match Best(qs, |qs|)
    case None =>
      NothingSent();
    case Some(i) =>
      if !Fails(qs[i]) {
        var next := qs[i := Tail(qs[i])];
        TotalUpdate(qs, i, Tail(qs[i]));
        EachOnce(next);
        MergeCons(qs, i);
        KeptOk(qs, i);
        forall j | 0 <= j < |qs|
          ensures FromFile(Merge(qs).out, j)
               == (if j == i then [qs[i].records[0]] else []) + FromFile(Merge(next).out, j)
        {
          FromFileCons(Item(i, qs[i].records[0]), Merge(next).out, j);
        }
        assert qs[i].records == [qs[i].records[0]] + next[i].records;
        assert Merge(qs).ok ==> forall j :: 0 <= j < |qs| ==> FromFile(Merge(next).out, j) == next[j].records;
      }
  }

  lemma NothingSent()
    ensures forall j :: FromFile([], j) == []
  {}

  lemma MergeCons(qs: seq<Reading>, i: nat)
    requires Best(qs, |qs|) == Some(i) && !Fails(qs[i])
    ensures var later := Merge(qs[i := Tail(qs[i])]);
            Merge(qs) == Emission([Item(i, qs[i].records[0])] + later.out, later.ok)
  {
    hide Best, Total;
  }

  lemma KeptOk(qs: seq<Reading>, i: nat)
    requires i < |qs| && qs[i].records != [] && !Fails(qs[i])
    ensures var next := qs[i := Tail(qs[i])];
            (forall j :: 0 <= j < |qs| ==> Sound(qs[j])) <==> forall j :: 0 <= j < |next| ==> Sound(next[j])
  {
    hide Sound;
    var next := qs[i := Tail(qs[i])];
    TailSound(qs[i]);
    assert forall j :: 0 <= j < |qs| && j != i ==> next[j] == qs[j];
    if forall j :: 0 <= j < |next| ==> Sound(next[j]) {
      forall j | 0 <= j < |qs|
        ensures Sound(qs[j])
      {
        assert Sound(next[j]);
      }
    }
  }

  lemma TailSound(q: Reading)
    requires q.records != [] && !Fails(q)
    ensures Sound(Tail(q)) <==> Sound(q)
  {}

  // ----- order --------------------------------------------------------------------------

  predicate InOrder(ts: seq<int64>) {
    forall i, j :: 0 <= i < j < |ts| ==> ts[i] <= ts[j]
  }

  predicate Chronological(rs: seq<Parsed>) {
    forall i, j :: 0 <= i < j < |rs| ==> rs[i].timestamp <= rs[j].timestamp
  }

  /** Every record still to come is at least as late as `t`. */
  predicate NotBefore(qs: seq<Reading>, t: int) {
    forall j, k :: 0 <= j < |qs| && 0 <= k < |qs[j].records| ==> t <= qs[j].records[k].timestamp
  }

  lemma HeadFirst(qs: seq<Reading>, i: nat)
    requires Best(qs, |qs|) == Some(i)
    requires forall j :: 0 <= j < |qs| ==> Chronological(qs[j].records)
    ensures NotBefore(qs, qs[i].records[0].timestamp)
  {
    hide Best;
    BestIs(qs, |qs|);
    var t := qs[i].records[0].timestamp;
    forall j, k | 0 <= j < |qs| && 0 <= k < |qs[j].records|
      ensures t <= qs[j].records[k].timestamp
    {
      assert t <= qs[j].records[0].timestamp <= qs[j].records[k].timestamp;
    }
  }

  lemma TailInOrder(qs: seq<Reading>, i: nat, t: int)
    requires i < |qs| && qs[i].records != [] && NotBefore(qs, t)
    requires forall j :: 0 <= j < |qs| ==> Chronological(qs[j].records)
    ensures var next := qs[i := Tail(qs[i])];
            NotBefore(next, t) && forall j :: 0 <= j < |next| ==> Chronological(next[j].records)
  {
    var next := qs[i := Tail(qs[i])];
    var rs, tail := qs[i].records, next[i].records;
    assert forall k :: 0 <= k < |tail| ==> tail[k] == rs[k + 1];
    assert Chronological(rs);
    assert Chronological(tail);
  }

  /** If every file is in order, so is the replay. */
  lemma {:induction false} MergeInOrder(qs: seq<Reading>, t: int)
    requires forall j :: 0 <= j < |qs| ==> Chronological(qs[j].records)
    requires NotBefore(qs, t)
    ensures InOrder(Stamps(Merge(qs).out))
    ensures forall k :: 0 <= k < |Merge(qs).out| ==> t <= Stamps(Merge(qs).out)[k]
    decreases Total(qs)
  {
    hide Best, Total, Chronological, NotBefore;
    match Best(qs, |qs|)
    case None =>
    case Some(i) =>
      if !Fails(qs[i]) {
        var next := qs[i := Tail(qs[i])];
        var head := qs[i].records[0];
        HeadFirst(qs, i);
        TailInOrder(qs, i, head.timestamp);
        TotalUpdate(qs, i, Tail(qs[i]));
        MergeInOrder(next, head.timestamp);
        MergeCons(qs, i);
        StampsCons(Item(i, head), Merge(next).out);
        Reached(qs, t, i);
      }
  }

  lemma Reached(qs: seq<Reading>, t: int, i: nat)
    requires NotBefore(qs, t) && i < |qs| && qs[i].records != []
    ensures t <= qs[i].records[0].timestamp
  {}

  // ----- pace ---------------------------------------------------------------------------

  function Sum(xs: seq<int>): int {
    if xs == [] then 0 else xs[0] + Sum(xs[1..])
  }

  /** The time between neighbours fits a timestamp. */
  predicate GapsFit(ts: seq<int64>) {
    forall i :: 0 <= i < |ts| - 1 ==> FitsGap(ts[i + 1] as int - ts[i])
  }

  predicate FitsGap(d: int) {
    -0x8000_0000_0000_0000 <= d < 0x8000_0000_0000_0000
  }

  /** The time behind records stamped -1: such a stamp stands for no record, so no pause follows it. */
  function Skipped(ts: seq<int64>): int {
    if |ts| < 2 then 0 else (if ts[0] == -1 then ts[1] as int + 1 else 0) + Skipped(ts[1..])
  }

  /** Every record stamped -1 but the last is followed by another one. */
  predicate NothingSkipped(ts: seq<int64>) {
    forall i :: 0 <= i < |ts| - 1 && ts[i] == -1 ==> ts[i + 1] == -1
  }

  lemma GapsTail(last: int64, ts: seq<int64>)
    requires GapsFit([last] + ts) && ts != []
    ensures FitsGap(ts[0] as int - last) && GapsFit([ts[0]] + ts[1..])
    ensures Skipped([last] + ts) == (if last == -1 then ts[0] as int + 1 else 0) + Skipped([ts[0]] + ts[1..])
  {
    var all := [last] + ts;
    assert all[1] == ts[0];
    assert [ts[0]] + ts[1..] == all[1..];
    assert FitsGap(all[1] as int - all[0]);
  }

  lemma SumCons(x: int, xs: seq<int>)
    ensures Sum([x] + xs) == x + Sum(xs)
  {
    assert ([x] + xs)[1..] == xs;
  }

  /** At speed 1 the pauses add up to the time from the first to the last record, less what is skipped. */
  lemma {:induction false} SleepsTelescope(ts: seq<int64>, last: int64)
    requires GapsFit([last] + ts)
    ensures Sum(Sleeps(ts, last, 1.0))
         == (if ts == [] then 0 else ts[|ts| - 1] as int - last) - Skipped([last] + ts)
  {
    hide GapsFit, Skipped;
    if ts == [] {
      OneSkipsNothing(last);
    } else {
      GapsTail(last, ts);
      SleepsTelescope(ts[1..], ts[0]);
      if ts[1..] == [] {
        OneSkipsNothing(ts[0]);
      }
      FirstPause(ts, last, 1.0);
    }
  }

  /** The first pause and the others. */
  lemma FirstPause(ts: seq<int64>, last: int64, speed: real)
    requires speed != 0.0 && ts != [] && FitsGap(ts[0] as int - last)
    ensures Sum(Sleeps(ts, last, speed))
         == (if last == -1 then 0 else Pause(ts[0] as int - last, speed)) + Sum(Sleeps(ts[1..], ts[0], speed))
  {
    hide Pause, Sum;
    var later := Sleeps(ts[1..], ts[0], speed);
    WrapFits(ts[0] as int - last);
    SumCons(Pause(ts[0] as int - last, speed), later);
    assert [] + later == later;
  }

  lemma OneSkipsNothing(t: int64)
    ensures Skipped([t] + []) == 0
  {}

  /** How long a whole replay at speed 1 pauses. */
  lemma ReplayTime(ts: seq<int64>)
    requires GapsFit(ts) && ts != []
    ensures Sum(Sleeps(ts, -1, 1.0)) == ts[|ts| - 1] as int - ts[0] - Skipped(ts)
  {
    hide GapsFit, Skipped;
    assert [ts[0]] + ts[1..] == ts;
    SleepsTelescope(ts[1..], ts[0]);
    assert Sleeps(ts, -1, 1.0) == Sleeps(ts[1..], ts[0], 1.0);
  }

  /** A replay at speed 1 takes as long as the recording exactly when the times skipped cancel out; for
      records in order, exactly when every record stamped -1 but the last is followed by another one. */
  lemma ReplayTakesAsLong(ts: seq<int64>)
    requires GapsFit(ts) && ts != []
    ensures Sum(Sleeps(ts, -1, 1.0)) == ts[|ts| - 1] as int - ts[0] <==> Skipped(ts) == 0
    ensures InOrder(ts) ==> (Skipped(ts) == 0 <==> NothingSkipped(ts))
  {
    hide GapsFit, Skipped, NothingSkipped, InOrder;
    ReplayTime(ts);
    if InOrder(ts) {
      SkippedInOrder(ts);
    }
  }

  lemma {:induction false} SkippedInOrder(ts: seq<int64>)
    requires InOrder(ts)
    ensures Skipped(ts) >= 0 && (Skipped(ts) == 0 <==> NothingSkipped(ts))
  {
    if |ts| >= 2 {
      var tail := ts[1..];
      assert ts[0] <= ts[1];
      assert forall i :: 0 <= i < |tail| ==> tail[i] == ts[i + 1];
      SkippedInOrder(tail);
      NothingSkippedTail(ts);
    }
  }

  lemma NothingSkippedTail(ts: seq<int64>)
    requires |ts| >= 2
    ensures NothingSkipped(ts) <==> (ts[0] == -1 ==> ts[1] == -1) && NothingSkipped(ts[1..])
  {
    var tail := ts[1..];
    assert forall i :: 0 <= i < |tail| ==> tail[i] == ts[i + 1];
    if (ts[0] == -1 ==> ts[1] == -1) && NothingSkipped(tail) {
      forall i | 0 <= i < |ts| - 1 && ts[i] == -1
        ensures ts[i + 1] == -1
      {
        if i > 0 {
          assert tail[i - 1] == -1 && tail[i] == -1;
        }
      }
    }
  }

  /** The failing case: the pause behind the second of three records is left out. */
  lemma PauseLost()
    ensures Sum(Sleeps([-2, -1, 5], -1, 1.0)) == 1
  {
    var ts: seq<int64> := [-2, -1, 5];
    assert ts[1..] == [-1, 5] && ts[1..][1..] == [5];
    ReplayTime(ts);
  }

  /** A replay of files in order, at speed 1, takes as long as its records span exactly when no record but
      the last is stamped -1, unless another such record follows. */
  lemma FilesTakeAsLong(qs: seq<Reading>)
    requires forall j :: 0 <= j < |qs| ==> Chronological(qs[j].records)
    requires GapsFit(Stamps(Merge(qs).out)) && Merge(qs).out != []
    ensures var ts := Stamps(Merge(qs).out);
            Sum(Sleeps(ts, -1, 1.0)) == ts[|ts| - 1] as int - ts[0] <==> NothingSkipped(ts)
  {
    hide *;
    StampsStart(qs);
    MergeInOrder(qs, -0x8000_0000_0000_0000);
    ReplayTakesAsLong(Stamps(Merge(qs).out));
  }

  lemma StampsStart(qs: seq<Reading>)
    ensures NotBefore(qs, -0x8000_0000_0000_0000)
  {}

  lemma PauseBounds(d: int64, speed: real)
    requires d >= 0 && speed > 0.0
    ensures d as real / speed - 1.0 < Pause(d, speed) as real <= d as real / speed
  {
    assert d as real / speed >= 0.0;
  }

  lemma DivAdd(a: int, b: int, speed: real)
    requires speed > 0.0
    ensures a as real / speed + b as real / speed == (a + b) as real / speed
  {}

  /** At any speed the pauses fall short of the scaled time that is not skipped by less than one
      nanosecond each. */
  lemma {:induction false} SleepsScale(ts: seq<int64>, last: int64, speed: real)
    requires speed > 0.0 && GapsFit([last] + ts) && ts != []
    requires InOrder([last] + ts)
    ensures var total := (ts[|ts| - 1] as int - last - Skipped([last] + ts)) as real / speed;
            total - |ts| as real < Sum(Sleeps(ts, last, speed)) as real <= total
  {
    hide *;
    GapsTail(last, ts);
    OrderTail(last, ts);
    FirstPause(ts, last, speed);
    var rest := ts[1..];
    var d, later := if last == -1 then 0 else ts[0] as int - last, Sum(Sleeps(rest, ts[0], speed));
    var first := if last == -1 then 0 else Pause(ts[0] as int - last, speed);
    PauseBounds(ts[0] as int - last, speed);
    var gap := (if rest == [] then 0 else rest[|rest| - 1] as int - ts[0]) - Skipped([ts[0]] + rest);
    if rest == [] {
      OneSkipsNothing(ts[0]);
      NoPauses(ts[0], speed);
    } else {
      SleepsScale(rest, ts[0], speed);
    }
    DivAdd(d, gap, speed);
    DivNothing(speed);
  }

  lemma DivNothing(speed: real)
    requires speed > 0.0
    ensures 0 as real / speed == 0.0
  {}

  lemma NoPauses(last: int64, speed: real)
    requires speed != 0.0
    ensures Sum(Sleeps([], last, speed)) == 0
  {}

  lemma OrderTail(last: int64, ts: seq<int64>)
    requires InOrder([last] + ts) && ts != []
    ensures last <= ts[0] && InOrder([ts[0]] + ts[1..])
  {
    var all := [last] + ts;
    assert all[0] <= all[1];
    assert [ts[0]] + ts[1..] == ts;
    assert forall i :: 0 <= i < |ts| ==> ts[i] == all[i + 1];
  }

  // ----- from captured messages to the replay ---------------------------------------------

  predicate Loggable(ms: seq<Captured>) {
    forall m :: m in ms ==> m.Clean() && !HoldsMarker(m.Rec().Content() + [LF])
  }

  /** Replaying the logs of several runs of the output sends, of each of them, exactly the requests
      it received, in order and unchanged. */
  lemma LogsReplayed(logs: seq<seq<Captured>>, qs: seq<Reading>)
    requires |qs| == |logs|
    requires forall i :: 0 <= i < |logs| ==> Loggable(logs[i]) && qs[i] == ReadBack(Log(Requests(Recs(logs[i]))))
    ensures Merge(qs).ok
    ensures forall i :: 0 <= i < |logs| ==> FromFile(Merge(qs).out, i) == AllExpected(OnlyRequests(logs[i]))
  {
    hide Merge, ReadBack, Log, Requests, Recs, OnlyRequests, AllExpected, FromFile, HoldsMarker;
    forall i | 0 <= i < |logs|
      ensures qs[i] == Reading(AllExpected(OnlyRequests(logs[i])), true)
    {
      OnlyRequestsOf(logs[i]);
      LogRoundTrip(logs[i]);
    }
    EachOnce(qs);
  }

  /** Files that cannot be opened are passed over: the replay is that of the others. */
  lemma FilesReplayed(files: seq<Option<seq<byte>>>, logs: seq<seq<Captured>>)
    requires |files| == |logs|
    requires forall i :: 0 <= i < |files| ==>
               files[i] == None || (Loggable(logs[i]) && files[i] == Some(Log(Requests(Recs(logs[i])))))
    ensures forall i :: 0 <= i < |files| ==> Starts(Opened(files)[i])
    ensures Merge(Opened(files)).ok
    ensures forall i :: 0 <= i < |files| ==>
              FromFile(Merge(Opened(files)).out, i)
              == if files[i] == None then [] else AllExpected(OnlyRequests(logs[i]))
  {
    hide *;
    var qs := Opened(files);
    var read := seq(|logs|, i requires 0 <= i < |logs| => if files[i] == None then [] else logs[i]);
    forall i | 0 <= i < |logs|
      ensures Loggable(read[i]) && qs[i] == ReadBack(Log(Requests(Recs(read[i])))) && Starts(qs[i])
    {
      OpenedIs(files, i);
      if files[i] == None {
        NothingLogged();
        NoneStarts();
      } else {
        OnlyRequestsOf(logs[i]);
        LogLoggable(logs[i]);
        ReadStarts(Requests(Recs(logs[i])), qs[i], AllExpected(OnlyRequests(logs[i])));
      }
    }
    LogsReplayed(read, qs);
    forall i | 0 <= i < |logs|
      ensures FromFile(Merge(qs).out, i) == if files[i] == None then [] else AllExpected(OnlyRequests(logs[i]))
    {
      NothingExpected();
    }
  }

  /** A file that begins with an end-of-record line cannot be started: its first record has no fields. */
  lemma EmptyRecordFails(rest: seq<byte>)
    ensures ReadBack(MARKER + rest) == Reading([], false) && !Starts(ReadBack(MARKER + rest))
  {
    hide ReadBack, NextChunk;
    var s := MARKER + rest;
    var k := |MARKER| - 1;
    assert s[k] == LF && LF !in s[..k] by { MarkerEnds(); assert s[..k] == MARKER[..k]; }
    IndexByteIs(s, LF, k);
    NextChunkBy([], s, k);
    assert s[..k + 1] == MARKER && s[k + 1..] == rest;
    ReadBackBy(s);
    EmptyIsMalformed();
  }

  lemma MarkerEnds()
    ensures var k := |MARKER| - 1; k >= 0 && MARKER[k] == LF && LF !in MARKER[..k]
  {}

  lemma OpenedIs(files: seq<Option<seq<byte>>>, i: nat)
    requires i < |files|
    ensures Opened(files)[i] == if files[i] == None then Reading([], true) else ReadBack(files[i].value)
  {
    hide ReadBack;
  }

  lemma NothingLogged()
    ensures Loggable([]) && ReadBack(Log(Requests(Recs([])))) == Reading([], true)
  {}

  lemma NoneStarts()
    ensures Starts(Reading([], true))
  {}

  lemma NothingExpected()
    ensures AllExpected(OnlyRequests([])) == []
  {}

  lemma LogLoggable(ms: seq<Captured>)
    requires Loggable(ms)
    ensures ReadBack(Log(Requests(Recs(ms)))) == Reading(AllExpected(OnlyRequests(ms)), true)
  {
    hide ReadBack, Log, Requests, Recs, OnlyRequests, AllExpected, HoldsMarker;
    OnlyRequestsOf(ms);
    LogRoundTrip(ms);
  }

  lemma ReadStarts(rs: seq<Record>, q: Reading, expected: seq<Parsed>)
    requires q == Reading(expected, true)
    ensures Starts(q)
  {}

  lemma {:induction false} OnlyRequestsOf(ms: seq<Captured>)
    ensures forall m :: m in OnlyRequests(ms) ==> m in ms
  {
    if ms != [] {
      OnlyRequestsOf(ms[1..]);
    }
  }
}
