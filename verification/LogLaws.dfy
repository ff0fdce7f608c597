/** Reading a record log back yields what was written to it. */
module LogLaws {
  import opened Bytes
  import opened Decimal
  import opened RecordLog

  /** A captured message: the fields of its header and its payload. */
  datatype Captured = Captured(payloadType: byte, uuid: seq<byte>, timing: int64, latency: int64, data: seq<byte>) {
    function Rec(): Record {
      Record(PayloadHeader(payloadType, uuid, timing, latency), data)
    }

    predicate Clean() {
      payloadType != SPACE && payloadType != LF && SPACE !in uuid && LF !in uuid
    }

    /** What a reader should hand out for it. */
    function Expected(): Parsed {
      Parsed(Rec().Content(), timing)
    }
  }

  function Recs(ms: seq<Captured>): (r: seq<Record>)
    ensures |r| == |ms|
  {
    if ms == [] then [] else [ms[0].Rec()] + Recs(ms[1..])
  }

  function AllExpected(ms: seq<Captured>): (r: seq<Parsed>)
    ensures |r| == |ms|
  {
    if ms == [] then [] else [ms[0].Expected()] + AllExpected(ms[1..])
  }

  function OnlyRequests(ms: seq<Captured>): seq<Captured> {
    if ms == [] then []
    else (if ms[0].payloadType == REQUEST_PAYLOAD then [ms[0]] else []) + OnlyRequests(ms[1..])
  }

  /** The marker stands on a line of its own. */
  predicate HoldsMarker(s: seq<byte>) {
    exists j :: 0 <= j <= |s| && At(s, MARKER, j) && (j == 0 || s[j - 1] == LF)
  }

  /** The number of marker lines among the terminated lines of `s`. */
  function Markers(s: seq<byte>): nat
    decreases |s|
  {
    var k := IndexByte(s, LF);
    if k == -1 then 0
    else (if s[..k + 1] == MARKER then 1 else 0) + Markers(s[k + 1..])
  }

  lemma LineBreak(s: seq<byte>, k: int)
    requires k == IndexByte(s, LF) && k != -1
    ensures forall j :: 0 <= j < k ==> s[j] != LF
    ensures s[k] == LF
  {
    assert forall j :: 0 <= j < k ==> s[j] == s[..k][j];
  }

  lemma MarkerShape()
    ensures |MARKER| == 13 && MARKER[12] == LF
    ensures forall i :: 0 <= i < 12 ==> MARKER[i] != LF
  {}

  /** The first line is a marker exactly when a marker stands at the front. */
  lemma MarkerFirst(s: seq<byte>, k: int)
    requires k == IndexByte(s, LF) && k != -1
    ensures s[..k + 1] == MARKER <==> At(s, MARKER, 0)
  {
    MarkerShape();
    LineBreak(s, k);
    if At(s, MARKER, 0) {
      assert s[0..13] == s[..13] == MARKER;
      assert s[12] == s[..13][12] == LF;
      assert forall i :: 0 <= i < 12 ==> s[i] == s[..13][i];
    }
    assert |s| >= 13 ==> s[0..13] == s[..13];
  }

  lemma MarkerLater(s: seq<byte>, k: int, j: int)
    requires k == IndexByte(s, LF) && k != -1
    ensures j > k ==> (At(s, MARKER, j) <==> At(s[k + 1..], MARKER, j - k - 1))
  {
    if k < j <= |s| - |MARKER| {
      TailSlice(s, k + 1, j, j + |MARKER|);
    }
  }

  /** Counting marker lines finds one exactly when there is one. */
  lemma {:induction false} MarkersFound(s: seq<byte>)
    ensures Markers(s) > 0 <==> HoldsMarker(s)
    decreases |s|
  {
    hide At, MARKER, HoldsMarker;
    var k := IndexByte(s, LF);
    if k == -1 {
      NoLine(s);
    } else {
      var t := s[k + 1..];
      MarkersFound(t);
      MarkerFirst(s, k);
      LineBreak(s, k);
      HoldsLater(s, k);
    }
  }

  /** A marker line is the first line or one of the lines behind it. */
  lemma HoldsLater(s: seq<byte>, k: int)
    requires k == IndexByte(s, LF) && k != -1
    ensures HoldsMarker(s) <==> At(s, MARKER, 0) || HoldsMarker(s[k + 1..])
  {
    hide At, MARKER, IndexByte;
    LineBreak(s, k);
    var t := s[k + 1..];
    if HoldsMarker(t) {
      var j :| 0 <= j <= |t| && At(t, MARKER, j) && (j == 0 || t[j - 1] == LF);
      MarkerLater(s, k, j + k + 1);
      AtRange(t, MARKER, j);
      assert s[j + k] == if j == 0 then LF else t[j - 1];
    }
    if HoldsMarker(s) && !At(s, MARKER, 0) {
      var j :| 0 <= j <= |s| && At(s, MARKER, j) && (j == 0 || s[j - 1] == LF);
      AtRange(s, MARKER, j);
      MarkerLater(s, k, j);
      assert j - k - 1 == 0 || t[j - k - 2] == LF;
    }
  }

  lemma AtRange(s: seq<byte>, sub: seq<byte>, j: int)
    requires At(s, sub, j)
    ensures 0 <= j <= |s| - |sub|
  {}

  lemma NoLine(s: seq<byte>)
    requires LF !in s
    ensures Markers(s) == 0 && !HoldsMarker(s)
  {
    MarkerShape();
    forall j
      ensures !At(s, MARKER, j)
    {
      assert 0 <= j <= |s| - 13 ==> s[j..j + 13][12] == s[j + 12];
    }
  }

  // ----- lines of a concatenation --------------------------------------------------------

  predicate Terminated(s: seq<byte>) {
    s == [] || s[|s| - 1] == LF
  }

  /** The first line of a terminated text is the first line of whatever continues it. */
  lemma FirstLineStays(a: seq<byte>, b: seq<byte>)
    requires Terminated(a) && a != []
    ensures var k := IndexByte(a, LF);
            && 0 <= k && IndexByte(a + b, LF) == k
            && (a + b)[..k + 1] == a[..k + 1] && (a + b)[k + 1..] == a[k + 1..] + b
            && Terminated(a[k + 1..])
  {
    var k := IndexByte(a, LF);
    assert a[|a| - 1] in a;
    assert (a + b)[..k] == a[..k];
    IndexByteIs(a + b, LF, k);
  }

  lemma NoMarkers()
    ensures Markers([]) == 0
  {}

  lemma MarkersStep(s: seq<byte>, k: nat)
    requires k == IndexByte(s, LF)
    ensures Markers(s) == (if s[..k + 1] == MARKER then 1 else 0) + Markers(s[k + 1..])
  {
    hide IndexByte, MARKER;
  }

  lemma {:induction false} MarkersConcat(a: seq<byte>, b: seq<byte>)
    requires Terminated(a)
    ensures Markers(a + b) == Markers(a) + Markers(b)
    decreases |a|
  {
    hide *;
    if a == [] {
      assert a + b == b;
      assert Markers(a) == 0 by { NoMarkers(); }
    } else {
      FirstLineStays(a, b);
      var k := IndexByte(a, LF);
      MarkersConcat(a[k + 1..], b);
      MarkersStep(a, k);
      MarkersStep(a + b, k);
    }
  }

  lemma ChunkStep(buffer: seq<byte>, s: seq<byte>, k: nat)
    requires k == IndexByte(s, LF)
    ensures NextChunk(buffer, s)
         == if s[..k + 1] == MARKER then Chunk(buffer, s[k + 1..]) else NextChunk(buffer + s[..k + 1], s[k + 1..])
    ensures Markers(s) == (if s[..k + 1] == MARKER then 1 else 0) + Markers(s[k + 1..])
  {
    hide *;
    NextChunkBy(buffer, s, k);
    MarkersStep(s, k);
  }

  /** Text without marker lines is buffered up to the marker behind it. */
  lemma {:induction false} ChunkIs(buffer: seq<byte>, t: seq<byte>, more: seq<byte>)
    requires Terminated(t) && Markers(t) == 0
    ensures NextChunk(buffer, t + (MARKER + more)) == Chunk(buffer + t, more)
    decreases |t|
  {
    hide *;
    var s := t + (MARKER + more);
    if t == [] {
      MarkerLine(more);
      assert s == MARKER + more;
      ChunkStep(buffer, s, 12);
      assert buffer + t == buffer;
    } else {
      FirstLineStays(t, MARKER + more);
      var k := IndexByte(t, LF);
      var line, rest := t[..k + 1], t[k + 1..];
      ChunkStep(buffer, s, k);
      ChunkStep(buffer, t, k);
      ChunkIs(buffer + line, rest, more);
      assert buffer + line + rest == buffer + t by { assert line + rest == t; }
    }
  }

  lemma MarkerLine(more: seq<byte>)
    ensures var s := MARKER + more;
            IndexByte(s, LF) == 12 && s[..13] == MARKER && s[13..] == more
  {
    MarkerShape();
    var s := MARKER + more;
    assert s[..12] == MARKER[..12];
    IndexByteIs(s, LF, 12);
  }

  /** Each marker line ends one record. */
  lemma {:induction false} MarkersCountChunks(buffer: seq<byte>, s: seq<byte>)
    ensures match NextChunk(buffer, s)
            case End => Markers(s) == 0
            case Chunk(_, rest) => Markers(s) == 1 + Markers(rest)
    decreases |s|
  {
    hide IndexByte, MARKER;
    var k := IndexByte(s, LF);
    if k != -1 && s[..k + 1] != MARKER {
      MarkersCountChunks(buffer + s[..k + 1], s[k + 1..]);
    }
  }

  lemma {:induction false} MarkersCountRecords(s: seq<byte>)
    requires ReadBack(s).ok
    ensures |ReadBack(s).records| == Markers(s)
    decreases |s|
  {
    hide NextChunk, Markers, Malformed;
    MarkersCountChunks([], s);
    match NextChunk([], s)
    case End =>
    case Chunk(_, rest) => MarkersCountRecords(rest);
  }

  // ----- one record -----------------------------------------------------------------------

  lemma FramedParts(r: Record, more: seq<byte>)
    ensures Framed(r) + more == (r.Content() + [LF]) + (MARKER + more)
  {
    assert SEPARATOR == [LF] + MARKER;
  }

  lemma FramedMarkers(r: Record)
    ensures Markers(Framed(r)) == Markers(r.Content() + [LF]) + 1 && Terminated(Framed(r))
  {
    hide Markers;
    FramedParts(r, []);
    assert Framed(r) + [] == Framed(r);
    MarkersConcat(r.Content() + [LF], MARKER + []);
    OneMarker();
    MarkerShape();
    assert MARKER + [] == MARKER;
  }

  lemma OneMarker()
    ensures Markers(MARKER) == 1
  {
    MarkerLine([]);
    assert MARKER + [] == MARKER;
    NoMarkers();
  }

  /** Framed, a message without marker lines is read back as it was. */
  lemma RecordReadsBack(m: Captured, more: seq<byte>)
    requires m.Clean() && Markers(m.Rec().Content() + [LF]) == 0
    ensures var later := ReadBack(more);
            ReadBack(Framed(m.Rec()) + more) == Reading([m.Expected()] + later.records, later.ok)
  {
    hide NextChunk, Markers, PayloadMeta, PayloadHeader, ParseInt, Framed;
    var content := m.Rec().Content();
    var t := content + [LF];
    FramedParts(m.Rec(), more);
    ChunkIs([], t, more);
    assert [] + t == t;
    MetaOf(m);
    ParseFormat(m.timing);
    assert t[..|t| - 1] == content;
  }

  lemma MetaOf(m: Captured)
    requires m.Clean()
    ensures var meta := PayloadMeta(m.Rec().Content() + [LF]);
            |meta| == 4 && meta[0] == Rune(m.payloadType) && meta[2] == FormatInt(m.timing)
  {
    hide PayloadMeta, PayloadHeader, FormatInt, Rune;
    HeaderReadsBack(m.payloadType, m.uuid, m.timing, m.latency, m.data + [LF]);
    assert m.Rec().Content() + [LF] == m.Rec().meta + (m.data + [LF]);
  }

  // ----- the whole log ----------------------------------------------------------------------

  function Extra(ms: seq<Captured>): nat {
    if ms == [] then 0 else Markers(ms[0].Rec().Content() + [LF]) + Extra(ms[1..])
  }

  lemma RecsStep(ms: seq<Captured>)
    requires ms != []
    ensures Recs(ms)[0] == ms[0].Rec() && Recs(ms)[1..] == Recs(ms[1..])
    ensures AllExpected(ms) == [ms[0].Expected()] + AllExpected(ms[1..])
  {
    hide PayloadHeader;
  }

  lemma {:induction false} LogMarkers(ms: seq<Captured>)
    ensures Markers(Log(Recs(ms))) == |ms| + Extra(ms)
  {
    hide Markers, Recs, AllExpected, Framed;
    if ms == [] {
      NoMarkers();
    } else {
      RecsStep(ms);
      FramedMarkers(ms[0].Rec());
      MarkersConcat(Framed(ms[0].Rec()), Log(Recs(ms[1..])));
      LogMarkers(ms[1..]);
    }
  }

  lemma {:induction false} LogReadsBack(ms: seq<Captured>)
    requires forall m :: m in ms ==> m.Clean()
    requires Extra(ms) == 0
    ensures ReadBack(Log(Recs(ms))) == Reading(AllExpected(ms), true)
  {
    hide ReadBack, Framed, Recs, AllExpected, Markers;
    if ms == [] {
      NothingReadsBack();
    } else {
      RecsStep(ms);
      LogReadsBack(ms[1..]);
      RecordReadsBack(ms[0], Log(Recs(ms[1..])));
    }
  }

  lemma NothingReadsBack()
    ensures ReadBack([]) == Reading([], true)
  {}

  lemma {:induction false} ExtraZero(ms: seq<Captured>)
    ensures Extra(ms) == 0 <==> forall m :: m in ms ==> !HoldsMarker(m.Rec().Content() + [LF])
  {
    hide Markers, HoldsMarker;
    if ms != [] {
      ExtraZero(ms[1..]);
      MarkersFound(ms[0].Rec().Content() + [LF]);
      assert forall m :: m in ms <==> m == ms[0] || m in ms[1..];
    }
  }

  /** A list of records reads back as it was written, each with its timestamp, exactly when the
      marker stands on no line of any of them. */
  lemma ListReadsBack(ms: seq<Captured>)
    requires forall m :: m in ms ==> m.Clean()
    ensures ReadBack(Log(Recs(ms))) == Reading(AllExpected(ms), true)
            <==> forall m :: m in ms ==> !HoldsMarker(m.Rec().Content() + [LF])
  {
    hide ReadBack, Log, Recs, HoldsMarker, Extra;
    ExtraZero(ms);
    if Extra(ms) == 0 {
      LogReadsBack(ms);
    } else if ReadBack(Log(Recs(ms))).ok {
      LogMarkers(ms);
      MarkersCountRecords(Log(Recs(ms)));
    }
  }

  // ----- through the output ------------------------------------------------------------------

  lemma RequestByType(m: Captured)
    requires m.Clean()
    ensures IsRequest(m.Rec()) <==> m.payloadType == REQUEST_PAYLOAD
  {
    hide PayloadMeta, PayloadHeader;
    HeaderReadsBack(m.payloadType, m.uuid, m.timing, m.latency, []);
    assert m.Rec().meta + [] == m.Rec().meta;
  }

  lemma {:induction false} RequestsOfRecs(ms: seq<Captured>)
    requires forall m :: m in ms ==> m.Clean()
    ensures Requests(Recs(ms)) == Recs(OnlyRequests(ms))
    ensures forall m :: m in OnlyRequests(ms) ==> m.Clean()
  {
    hide IsRequest;
    if ms != [] {
      RecsStep(ms);
      RequestByType(ms[0]);
      RequestsOfRecs(ms[1..]);
      assert OnlyRequests(ms[1..]) == [] + OnlyRequests(ms[1..]);
      assert ([ms[0]] + OnlyRequests(ms[1..]))[1..] == OnlyRequests(ms[1..]);
      RecsStep([ms[0]] + OnlyRequests(ms[1..]));
    }
  }

  /** What a file output wrote of any list of messages, a reader hands out again: the requests among
      them, in order, byte for byte and with their timestamps. It does so exactly when the marker
      stands on no line of any of these requests. */
  lemma LogRoundTrip(ms: seq<Captured>)
    requires forall m :: m in ms ==> m.Clean()
    ensures ReadBack(Log(Requests(Recs(ms)))) == Reading(AllExpected(OnlyRequests(ms)), true)
            <==> forall m :: m in OnlyRequests(ms) ==> !HoldsMarker(m.Rec().Content() + [LF])
  {
    hide *;
    RequestsOfRecs(ms);
    ListReadsBack(OnlyRequests(ms));
  }
}
