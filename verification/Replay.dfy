/** input_file.go: merging several record logs into one replay in timestamp order. */
module Replay {
  import opened Bytes
  import opened Decimal
  import opened RecordLog

  // ----- the merge on what the readers have to hand out -----------------------------------

  /** A record and the file it comes from. */
  datatype Item = Item(file: nat, record: Parsed)

  /** What is sent, and whether the end is reached without failing on a malformed record. */
  datatype Emission = Emission(out: seq<Item>, ok: bool)

  /** The first of the earliest current records among the first `n` readers. */
  function Best(qs: seq<Reading>, n: nat): (r: Option<nat>)
    requires n <= |qs|
    ensures r.Some? ==> r.value < n && qs[r.value].records != []
  {
    if n == 0 then None
    else
      var b := Best(qs, n - 1);
      if qs[n - 1].records == [] then b
      else if b == None || qs[n - 1].records[0].timestamp < qs[b.value].records[0].timestamp then Some(n - 1)
      else b
  }

  function Total(qs: seq<Reading>): nat {
    if qs == [] then 0 else |qs[0].records| + Total(qs[1..])
  }

  lemma {:induction false} TotalUpdate(qs: seq<Reading>, i: nat, r: Reading)
    requires i < |qs|
    ensures Total(qs[i := r]) == Total(qs) - |qs[i].records| + |r.records|
  {
    if i == 0 {
      assert qs[0 := r][1..] == qs[1..];
    } else {
      assert qs[i := r][1..] == qs[1..][i - 1 := r];
      TotalUpdate(qs[1..], i - 1, r);
    }
  }

  function Tail(q: Reading): Reading
    requires q.records != []
  {
    Reading(q.records[1..], q.ok)
  }

  /** The reader fails when it moves on from its last good record to a malformed one. */
  predicate Fails(q: Reading) {
    |q.records| == 1 && !q.ok
  }

  function Merge(qs: seq<Reading>): Emission
    decreases Total(qs)
  {
    match Best(qs, |qs|)
    case None => Emission([], true)
    case Some(i) =>
      if Fails(qs[i]) then Emission([], false)
      else
        TotalUpdate(qs, i, Tail(qs[i]));
        var later := Merge(qs[i := Tail(qs[i])]);
        Emission([Item(i, qs[i].records[0])] + later.out, later.ok)
  }

  // ----- pacing ---------------------------------------------------------------------------

  /** Conversion of a real number to an integer, truncating. */
  function Trunc(x: real): int {
    if x >= 0.0 then x.Floor else -(-x).Floor
  }

  /** The pause requested between two records. */
  function Pause(diff: int64, speed: real): int
    requires speed != 0.0
  {
    if speed == 1.0 then diff else Trunc(diff as real / speed)
  }

  /** `lastTime` is -1 while there is no earlier record. */
  function Sleeps(ts: seq<int64>, last: int64, speed: real): seq<int>
    requires speed != 0.0
  {
    if ts == [] then []
    else (if last != -1 then [Pause(Wrap64(ts[0] - last), speed)] else []) + Sleeps(ts[1..], ts[0], speed)
  }

  function Stamps(items: seq<Item>): (r: seq<int64>)
    ensures |r| == |items|
  {
    seq(|items|, i requires 0 <= i < |items| => items[i].record.timestamp)
  }

  function Payloads(items: seq<Item>): (r: seq<seq<byte>>)
    ensures |r| == |items|
  {
    seq(|items|, i requires 0 <= i < |items| => items[i].record.data)
  }

  // ----- the input ------------------------------------------------------------------------

  /** What each of the readers has to hand out; a file that could not be opened has no reader. */
  ghost function Views(readers: seq<FileReader?>): (r: seq<Reading>)
    reads set i | 0 <= i < |readers| :: readers[i]
    ensures |r| == |readers|
  {
    seq(|readers|, i requires 0 <= i < |readers| reads set i | 0 <= i < |readers| :: readers[i] =>
      if readers[i] == null then Reading([], true) else readers[i].Upcoming())
  }

  ghost predicate Apart(readers: seq<FileReader?>) {
    forall i, j :: 0 <= i < j < |readers| && readers[i] != null ==> readers[i] != readers[j]
  }

  /** What reading each of the files yields. */
  function Opened(files: seq<Option<seq<byte>>>): (r: seq<Reading>)
    ensures |r| == |files|
  {
    seq(|files|, i requires 0 <= i < |files| =>
      match files[i] case None => Reading([], true) case Some(contents) => ReadBack(contents))
  }

  /** Its first record, if any, can be read. */
  predicate Starts(q: Reading) {
    q.ok || q.records != []
  }

  class FileInput {
    var readers: seq<FileReader?>
    var speedFactor: real

    constructor ()
      ensures readers == [] && speedFactor == 1.0
    {
      readers, speedFactor := [], 1.0;
    }

    /** `init` on the contents of the matching files; a file that cannot be opened has none. `ok` is
        false where the first record of a file makes the original fail. */
    method Init(files: seq<Option<seq<byte>>>) returns (found: bool, ok: bool)
      modifies this
      ensures speedFactor == old(speedFactor)
      ensures found == (files != []) && (!found ==> ok && readers == old(readers))
      ensures found ==> ok == forall i :: 0 <= i < |files| ==> Starts(Opened(files)[i])
      ensures found && ok ==> Apart(readers) && Views(readers) == Opened(files)
      ensures found && ok ==> forall i :: 0 <= i < |readers| && readers[i] != null ==> fresh(readers[i])
    {
      hide ReadBack;
      if files == [] {
        return false, true;
      }
      found, ok := true, true;
      var rs: seq<FileReader?> := [];
      for k := 0 to |files|
        invariant |rs| == k && readers == old(readers) && speedFactor == old(speedFactor)
        invariant forall i :: 0 <= i < k ==> Starts(Opened(files)[i])
        invariant forall i :: 0 <= i < k && rs[i] != null ==> fresh(rs[i])
        invariant forall i :: 0 <= i < k ==> Views(rs)[i] == Opened(files)[i]
        invariant Apart(rs)
      {
        ghost var before := Views(rs);
        var r: FileReader? := null;
        if files[k].Some? {
          r, ok := NewFileReader(files[k].value);
          if !ok {
            assert !Starts(Opened(files)[k]);
            return;
          }
        }
        assert Views(rs) == before;
        rs := rs + [r];
        assert forall i :: 0 <= i < k ==> Views(rs)[i] == before[i];
      }
      readers := rs;
    }

    /** `nextReader`; nil when every reader is closed. */
    method NextReader() returns (next: FileReader?, ghost at: nat)
      ensures next == null <==> Best(Views(readers), |readers|) == None
      ensures next != null ==>
                && Best(Views(readers), |readers|) == Some(at)
                && next == readers[at] && next.open
    {
      hide ReadBack;
      next, at := null, 0;
      for k := 0 to |readers|
        invariant next == null <==> Best(Views(readers), k) == None
        invariant next != null ==> Best(Views(readers), k) == Some(at) && next == readers[at] && next.open
      {
        var r := readers[k];
        if r == null || !r.open {
          continue;
        }
        if next == null || r.timestamp < next.timestamp {
          next, at := r, k;
        }
      }
    }

    /** `ReadPayload` of the chosen reader: only its own view moves on. */
    method Take(reader: FileReader, ghost at: nat) returns (payload: seq<byte>, ok: bool)
      requires Apart(readers) && at < |readers| && readers[at] == reader && reader.open
      modifies reader
      ensures var qs := old(Views(readers));
              && qs[at].records != [] && payload == qs[at].records[0].data && ok == !Fails(qs[at])
              && (ok ==> Views(readers) == qs[at := Tail(qs[at])])
    {
      hide ReadBack;
      ghost var qs := Views(readers);
      payload, ok := reader.ReadPayload();
      assert forall i :: 0 <= i < |readers| && i != at ==> Views(readers)[i] == qs[i];
    }

    /** `emit` without looping: the payloads sent and the pauses requested between them. */
    method Emit() returns (sent: seq<seq<byte>>, sleeps: seq<int>, ok: bool)
      requires Apart(readers) && speedFactor != 0.0
      modifies set i | 0 <= i < |readers| && readers[i] != null :: readers[i]
      ensures var e := Merge(old(Views(readers)));
              && ok == e.ok && sent == Payloads(e.out)
              && (ok ==> sleeps == Sleeps(Stamps(e.out), -1, speedFactor))
    {
      hide *;
      sent, sleeps, ok := [], [], true;
      var lastTime: int64 := -1;
      ghost var e := Merge(Views(readers));
      ghost var done: seq<Item> := [];
      assert Payloads([]) == [] by { NoPayloads(); }
      TrackStarts(Views(readers), speedFactor);
      while true
        invariant ok && sent == Payloads(done)
        invariant OnTrack(e, Views(readers), done, sleeps, lastTime, speedFactor)
        decreases Total(Views(readers))
      {
        ghost var qs := Views(readers);
        var reader, at := NextReader();
        if reader == null {
          TrackEnds(e, qs, done, sleeps, lastTime, speedFactor);
          break;
        }
        CurrentRecord(readers, at);
        TrackSteps(e, qs, at, done, sleeps, lastTime, speedFactor);
        if lastTime != -1 {
          var diff := Wrap64(reader.timestamp - lastTime);
          sleeps := sleeps + [Pause(diff, speedFactor)];
        }
        lastTime := reader.timestamp;
        var payload;
        payload, ok := Take(reader, at);
        if !ok {
          break;
        }
        PayloadsAppend(done, Item(at, qs[at].records[0]));
        done := done + [Item(at, qs[at].records[0])];
        sent := sent + [payload];
      }
    }
  }

  /** With `done` sent and `qs` still to be read, the whole emission is `e`; so are its pauses. */
  predicate OnTrack(e: Emission, qs: seq<Reading>, done: seq<Item>, sleeps: seq<int>, last: int64, speed: real)
    requires speed != 0.0
  {
    && e == Emission(done + Merge(qs).out, Merge(qs).ok)
    && Sleeps(Stamps(e.out), -1, speed) == sleeps + Sleeps(Stamps(Merge(qs).out), last, speed)
  }

  lemma TrackStarts(qs: seq<Reading>, speed: real)
    requires speed != 0.0
    ensures OnTrack(Merge(qs), qs, [], [], -1, speed)
  {
    hide Merge, Sleeps, Stamps;
    assert [] + Merge(qs).out == Merge(qs).out;
  }

  lemma TrackEnds(e: Emission, qs: seq<Reading>, done: seq<Item>, sleeps: seq<int>, last: int64, speed: real)
    requires speed != 0.0 && OnTrack(e, qs, done, sleeps, last, speed) && Best(qs, |qs|) == None
    ensures e == Emission(done, true) && Sleeps(Stamps(e.out), -1, speed) == sleeps
  {
    hide Merge, Sleeps, Stamps, Best;
    MergeEnd(qs, last, speed);
    assert done + [] == done;
  }

  lemma TrackSteps(e: Emission, qs: seq<Reading>, i: nat, done: seq<Item>, sleeps: seq<int>, last: int64,
                   speed: real)
    requires speed != 0.0 && OnTrack(e, qs, done, sleeps, last, speed) && Best(qs, |qs|) == Some(i)
    ensures i < |qs| && qs[i].records != []
    ensures Fails(qs[i]) ==> e == Emission(done, false)
    ensures !Fails(qs[i]) ==>
              var x := Item(i, qs[i].records[0]);
              var t := x.record.timestamp;
              && Total(qs[i := Tail(qs[i])]) < Total(qs)
              && OnTrack(e, qs[i := Tail(qs[i])], done + [x],
                         if last != -1 then sleeps + [Pause(Wrap64(t - last), speed)] else sleeps, t, speed)
  {
    hide Merge, Sleeps, Stamps, Best, Total, Pause, Wrap64, Fails, Tail;
    MergeStep(qs, i, last, speed);
    if Fails(qs[i]) {
      assert done + [] == done;
    } else {
      var x := Item(i, qs[i].records[0]);
      var t := x.record.timestamp;
      var later := Merge(qs[i := Tail(qs[i])]).out;
      PushFirst(done, x, later);
      if last != -1 {
        PushFirst(sleeps, Pause(Wrap64(t - last), speed), Sleeps(Stamps(later), t, speed));
      }
    }
  }

  lemma PushFirst<T>(done: seq<T>, x: T, later: seq<T>)
    ensures done + ([x] + later) == done + [x] + later
  {}

  lemma NoPayloads()
    ensures Payloads([]) == []
  {}

  lemma PayloadsAppend(done: seq<Item>, x: Item)
    ensures Payloads(done + [x]) == Payloads(done) + [x.record.data]
  {}

  lemma CurrentRecord(readers: seq<FileReader?>, at: nat)
    requires at < |readers| && readers[at] != null && readers[at].open
    ensures Views(readers)[at].records != []
    ensures Views(readers)[at].records[0] == Parsed(readers[at].data, readers[at].timestamp)
  {
    hide ReadBack;
  }

  lemma MergeEnd(qs: seq<Reading>, last: int64, speed: real)
    requires Best(qs, |qs|) == None && speed != 0.0
    ensures Merge(qs) == Emission([], true) && Sleeps(Stamps([]), last, speed) == []
  {}

  lemma MergeStep(qs: seq<Reading>, i: nat, last: int64, speed: real)
    requires Best(qs, |qs|) == Some(i) && speed != 0.0
    ensures i < |qs| && qs[i].records != []
    ensures Fails(qs[i]) ==> Merge(qs) == Emission([], false)
    ensures !Fails(qs[i]) ==>
              var x := Item(i, qs[i].records[0]);
              var t := x.record.timestamp;
              var later := Merge(qs[i := Tail(qs[i])]);
              && Merge(qs) == Emission([x] + later.out, later.ok)
              && Total(qs[i := Tail(qs[i])]) < Total(qs)
              && Sleeps(Stamps(Merge(qs).out), last, speed)
                 == (if last != -1 then [Pause(Wrap64(t - last), speed)] else [])
                    + Sleeps(Stamps(later.out), t, speed)
  {
    hide Best, Total, Pause, Wrap64;
    if !Fails(qs[i]) {
      TotalUpdate(qs, i, Tail(qs[i]));
      StampsCons(Item(i, qs[i].records[0]), Merge(qs[i := Tail(qs[i])]).out);
    }
  }

  lemma StampsCons(x: Item, items: seq<Item>)
    ensures Stamps([x] + items) == [x.record.timestamp] + Stamps(items)
  {}
}
