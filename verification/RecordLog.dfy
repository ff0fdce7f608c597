/** The record log: goreplay.go's record headers, the framing of output_file.go and the reader of
    input_file.go. */
module RecordLog {
  import opened Bytes
  import opened Decimal

  /** LF, three emoji in UTF-8, LF. */
  const SEPARATOR: seq<byte> :=
    [LF, 0xF0, 0x9F, 0x90, 0xB5, 0xF0, 0x9F, 0x99, 0x88, 0xF0, 0x9F, 0x99, 0x89, LF]
  /** The line the reader takes for the end of a record. */
  const MARKER: seq<byte> := SEPARATOR[1..]

  const REQUEST_PAYLOAD: byte := 49

  /** A character beyond the basic plane in UTF-8. */
  function Utf8(code: nat): (r: seq<byte>)
    requires 0x1_0000 <= code < 0x11_0000
  {
    [0xF0 + code / 0x4_0000, 0x80 + code / 0x1000 % 64, 0x80 + code / 64 % 64, 0x80 + code % 64]
  }

  /** The separator is a line of three monkeys. */
  lemma SeparatorText()
    ensures SEPARATOR == Ascii("\n") + Utf8(0x1F435) + Utf8(0x1F648) + Utf8(0x1F649) + Ascii("\n")
    ensures MARKER == Utf8(0x1F435) + Utf8(0x1F648) + Utf8(0x1F649) + Ascii("\n")
  {}

  // ----- record headers -----------------------------------------------------------------

  /** `%c` of a byte: its UTF-8 encoding. */
  function Rune(b: byte): (r: seq<byte>)
    ensures SPACE in r <==> b == SPACE
    ensures LF in r <==> b == LF
  {
    if b < 128 then [b]
    else
      var i: int := b;
      [0xC0 + i / 64, 0x80 + i % 64]
  }

  /** It reads back as the byte: one byte of ASCII, or the two bytes of a short UTF-8 sequence. */
  lemma RuneReads(b: byte)
    ensures b < 128 ==> Rune(b) == [b]
    ensures b >= 128 ==>
              && |Rune(b)| == 2 && 0xC0 <= Rune(b)[0] < 0xE0 && 0x80 <= Rune(b)[1] < 0xC0
              && (Rune(b)[0] as int - 0xC0) * 64 + (Rune(b)[1] as int - 0x80) == b
  {}

  function PayloadHeader(payloadType: byte, uuid: seq<byte>, timing: int64, latency: int64): seq<byte> {
    Rune(payloadType) + [SPACE] + uuid + [SPACE] + FormatInt(timing) + [SPACE] + FormatInt(latency) + [LF]
  }

  /** `bytes.Split`. */
  function Split(s: seq<byte>, sep: byte): (r: seq<seq<byte>>)
    ensures |r| >= 1
    ensures forall i :: 0 <= i < |r| ==> sep !in r[i]
    ensures forall b, i :: b !in s && 0 <= i < |r| ==> b !in r[i]
    decreases |s|
  {
    var k := IndexByte(s, sep);
    if k == -1 then [s]
    else
      var more := Split(s[k + 1..], sep);
      assert forall b :: b !in s ==> b !in s[..k] && b !in s[k + 1..];
      [s[..k]] + more
  }

  /** The text before the first LF, or none if there is no LF. */
  function FirstLine(p: seq<byte>): (r: seq<byte>)
    ensures LF !in r
  {
    var headerSize := IndexByte(p, LF);
    if headerSize < 0 then [] else p[..headerSize]
  }

  function PayloadMeta(p: seq<byte>): (r: seq<seq<byte>>)
    ensures |r| >= 1
    ensures forall i :: 0 <= i < |r| ==> SPACE !in r[i] && LF !in r[i]
  {
    Split(FirstLine(p), SPACE)
  }

  function PayloadBody(p: seq<byte>): seq<byte> {
    p[IndexByte(p, LF) + 1..]
  }

  lemma SplitCons(a: seq<byte>, b: seq<byte>)
    requires SPACE !in a
    ensures Split(a + [SPACE] + b, SPACE) == [a] + Split(b, SPACE)
  {
    var s := a + [SPACE] + b;
    assert s[..|a|] == a && s[|a| + 1..] == b;
    IndexByteIs(s, SPACE, |a|);
  }

  lemma SplitOne(a: seq<byte>)
    requires SPACE !in a
    ensures Split(a, SPACE) == [a]
  {}

  lemma FormatBytes(n: int)
    ensures SPACE !in FormatInt(n) && LF !in FormatInt(n)
  {
    if n < 0 {
      assert AllDigits(FormatNat(-n));
    } else {
      assert AllDigits(FormatNat(n));
    }
  }

  /** The four fields of a header as it was written. */
  function Fields(payloadType: byte, uuid: seq<byte>, timing: int64, latency: int64): seq<seq<byte>> {
    [Rune(payloadType), uuid, FormatInt(timing), FormatInt(latency)]
  }

  lemma FieldsSplit(t: seq<byte>, uuid: seq<byte>, a: seq<byte>, b: seq<byte>)
    requires SPACE !in t && SPACE !in uuid && SPACE !in a && SPACE !in b
    ensures Split(t + [SPACE] + uuid + [SPACE] + a + [SPACE] + b, SPACE) == [t, uuid, a, b]
  {
    hide Split;
    assert t + [SPACE] + uuid + [SPACE] + a + [SPACE] + b
        == t + [SPACE] + (uuid + [SPACE] + (a + [SPACE] + b));
    SplitCons(t, uuid + [SPACE] + (a + [SPACE] + b));
    SplitCons(uuid, a + [SPACE] + b);
    SplitCons(a, b);
    SplitOne(b);
  }

  /** A record's metadata reads back as it was written, and its body is what follows the header,
      exactly when the identifier holds neither a space nor an LF. */
  lemma HeaderReadsBack(payloadType: byte, uuid: seq<byte>, timing: int64, latency: int64, body: seq<byte>)
    requires payloadType != SPACE && payloadType != LF
    ensures var p := PayloadHeader(payloadType, uuid, timing, latency) + body;
            PayloadMeta(p) == Fields(payloadType, uuid, timing, latency) <==> SPACE !in uuid && LF !in uuid
    ensures var p := PayloadHeader(payloadType, uuid, timing, latency) + body;
            LF !in uuid ==> PayloadBody(p) == body
  {
    hide Split, FormatInt, Rune;
    var h := PayloadHeader(payloadType, uuid, timing, latency);
    var p := h + body;
    var line := h[..|h| - 1];
    var t, a, b := Rune(payloadType), FormatInt(timing), FormatInt(latency);
    FormatBytes(timing);
    FormatBytes(latency);
    if LF !in uuid {
      assert line == t + [SPACE] + uuid + [SPACE] + a + [SPACE] + b;
      assert p[..|line|] == line && p[|line| + 1..] == body;
      IndexByteIs(p, LF, |line|);
      if SPACE !in uuid {
        FieldsSplit(t, uuid, a, b);
      }
    }
    assert PayloadMeta(p) == Fields(payloadType, uuid, timing, latency) ==> PayloadMeta(p)[1] == uuid;
  }

  // ----- writing ------------------------------------------------------------------------

  /** A message as an output receives it. */
  datatype Record = Record(meta: seq<byte>, data: seq<byte>) {
    function Content(): seq<byte> {
      meta + data
    }
  }

  /** `Assemble` lets requests through only. */
  predicate IsRequest(r: Record) {
    PayloadMeta(r.meta)[0] == [REQUEST_PAYLOAD]
  }

  function Framed(r: Record): seq<byte> {
    r.Content() + SEPARATOR
  }

  /** What a log holds after a list of messages was written to it. */
  function Log(rs: seq<Record>): seq<byte> {
    if rs == [] then [] else Framed(rs[0]) + Log(rs[1..])
  }

  function Requests(rs: seq<Record>): seq<Record> {
    if rs == [] then []
    else (if IsRequest(rs[0]) then [rs[0]] else []) + Requests(rs[1..])
  }

  lemma {:induction false} LogAppend(a: seq<Record>, b: seq<Record>)
    ensures Log(a + b) == Log(a) + Log(b)
  {
    if a == [] {
      assert a + b == b;
    } else {
      assert (a + b)[1..] == a[1..] + b;
      LogAppend(a[1..], b);
    }
  }

  lemma {:induction false} RequestsAppend(a: seq<Record>, r: Record)
    ensures Requests(a + [r]) == Requests(a) + if IsRequest(r) then [r] else []
  {
    hide IsRequest, Requests;
    if a == [] {
      assert a + [r] == [r] + [];
      RequestsCons(r, []);
    } else {
      RequestsAppend(a[1..], r);
      assert a == [a[0]] + a[1..];
      assert a + [r] == [a[0]] + (a[1..] + [r]);
      RequestsCons(a[0], a[1..]);
      RequestsCons(a[0], a[1..] + [r]);
    }
  }

  lemma RequestsCons(r: Record, rest: seq<Record>)
    ensures Requests([]) == []
    ensures Requests([r] + rest) == (if IsRequest(r) then [r] else []) + Requests(rest)
  {
    hide IsRequest;
    assert ([r] + rest)[1..] == rest;
  }

  lemma WriteStep(rs: seq<Record>, msg: Record)
    ensures !IsRequest(msg) ==> Requests(rs + [msg]) == Requests(rs)
    ensures IsRequest(msg) ==>
              && |Requests(rs + [msg])| == |Requests(rs)| + 1
              && Log(Requests(rs + [msg])) == Log(Requests(rs)) + msg.meta + msg.data + SEPARATOR
  {
    hide *;
    RequestsAppend(rs, msg);
    LogAppend(Requests(rs), [msg]);
    LogOne(msg);
  }

  lemma LogOne(r: Record)
    ensures Log([r]) == r.meta + r.data + SEPARATOR
  {
    assert [r][1..] == [];
    assert Log([r]) == Framed(r) + [];
  }

  /** The file output: the bytes of the open file, and its counters. */
  class FileOutput {
    var file: seq<byte>
    var queueLength: nat
    var currentFileSize: nat
    var totalFileSize: nat
    /** The messages written to this file so far. */
    ghost var received: seq<Record>

    ghost predicate Valid()
      reads this
    {
      file == Log(Requests(received)) && queueLength == |Requests(received)| && currentFileSize == |file|
    }

    constructor (total: nat)
      ensures Valid() && received == [] && totalFileSize == total
    {
      file, queueLength, currentFileSize, totalFileSize, received := [], 0, 0, total, [];
    }

    /** Three writes per request; everything else is dropped. */
    method PluginWriter(msg: Record) returns (n: nat)
      requires Valid()
      modifies this
      ensures Valid() && received == old(received) + [msg]
      ensures n == |file| - |old(file)| == totalFileSize - old(totalFileSize)
    {
      hide IsRequest, Log, Requests;
      WriteStep(received, msg);
      received := received + [msg];
      if !IsRequest(msg) {
        return 0;
      }
      n := |msg.meta|;
      file := file + msg.meta;
      var nn := |msg.data|;
      file := file + msg.data;
      n := n + nn;
      nn := |SEPARATOR|;
      file := file + SEPARATOR;
      n := n + nn;
      totalFileSize := totalFileSize + n;
      currentFileSize := currentFileSize + n;
      queueLength := queueLength + 1;
    }
  }

  // ----- reading ------------------------------------------------------------------------

  datatype Parsed = Parsed(data: seq<byte>, timestamp: int64)

  /** What reading a log to its end yields; `ok` is false if a malformed record stops the reader. */
  datatype Reading = Reading(records: seq<Parsed>, ok: bool)

  /** The lines up to the next marker, and what follows it. */
  datatype Chunk = End | Chunk(buffer: seq<byte>, rest: seq<byte>)

  function NextChunk(buffer: seq<byte>, s: seq<byte>): (r: Chunk)
    ensures r.Chunk? ==> |r.rest| < |s| && buffer <= r.buffer
    decreases |s|
  {
    var k := IndexByte(s, LF);
    if k == -1 then End
    else if s[..k + 1] == MARKER then Chunk(buffer, s[k + 1..])
    else NextChunk(buffer + s[..k + 1], s[k + 1..])
  }

  /** A record needs three fields in its first line; fewer make the original fail on `meta[2]`. */
  predicate Malformed(buffer: seq<byte>) {
    |PayloadMeta(buffer)| < 3
  }

  /** That is, fewer than two spaces in it. */
  lemma MalformedMeans(buffer: seq<byte>)
    ensures Malformed(buffer) <==> multiset(FirstLine(buffer))[SPACE] < 2
  {
    hide Split, FirstLine;
    SplitCounts(FirstLine(buffer), SPACE);
  }

  lemma {:induction false} SplitCounts(s: seq<byte>, sep: byte)
    ensures |Split(s, sep)| == multiset(s)[sep] + 1
    decreases |s|
  {
    hide IndexByte;
    var k := IndexByte(s, sep);
    if k == -1 {
      assert sep !in multiset(s);
    } else {
      SplitCounts(s[k + 1..], sep);
      CountsOn(s, k, sep);
    }
  }

  lemma CountsOn(s: seq<byte>, k: nat, sep: byte)
    requires k < |s| && s[k] == sep && sep !in s[..k]
    ensures multiset(s)[sep] == multiset(s[k + 1..])[sep] + 1
  {
    assert s == s[..k] + [s[k]] + s[k + 1..];
    assert sep !in multiset(s[..k]);
  }

  lemma EmptyIsMalformed()
    ensures Malformed([])
  {}

  function ParseRecord(buffer: seq<byte>): Parsed
    requires !Malformed(buffer)
  {
    EmptyIsMalformed();
    Parsed(buffer[..|buffer| - 1], ParseInt(PayloadMeta(buffer)[2]))
  }

  function ReadBack(s: seq<byte>): Reading
    decreases |s|
  {
    match NextChunk([], s)
    case End => Reading([], true)
    case Chunk(buffer, rest) =>
      if Malformed(buffer) then Reading([], false)
      else
        var more := ReadBack(rest);
        Reading([ParseRecord(buffer)] + more.records, more.ok)
  }

  lemma NextChunkBy(buffer: seq<byte>, s: seq<byte>, k: int)
    requires k == IndexByte(s, LF)
    ensures NextChunk(buffer, s)
         == if k == -1 then End
            else if s[..k + 1] == MARKER then Chunk(buffer, s[k + 1..])
            else NextChunk(buffer + s[..k + 1], s[k + 1..])
  {
    hide IndexByte, MARKER;
  }

  lemma ReadBackBy(s: seq<byte>)
    ensures ReadBack(s) == match NextChunk([], s)
                           case End => Reading([], true)
                           case Chunk(buffer, rest) =>
                             if Malformed(buffer) then Reading([], false)
                             else Reading([ParseRecord(buffer)] + ReadBack(rest).records, ReadBack(rest).ok)
  {
    hide NextChunk, Malformed, ParseRecord;
  }

  /** A reader holds the record it will hand out next; it is closed at the end of the file. */
  class FileReader {
    var rest: seq<byte>
    var data: seq<byte>
    var timestamp: int64
    var open: bool

    constructor (contents: seq<byte>)
      ensures rest == contents && open
    {
      rest, data, timestamp, open := contents, [], 0, true;
    }

    /** The records still to be handed out. */
    ghost function Upcoming(): Reading
      reads this
    {
      if !open then Reading([], true)
      else Reading([Parsed(data, timestamp)] + ReadBack(rest).records, ReadBack(rest).ok)
    }

    /** `parseNext`: `ok` is false where the original fails on a malformed record. */
    method ParseNext() returns (ok: bool)
      requires open
      modifies this
      ensures ok == (ReadBack(old(rest)).ok || ReadBack(old(rest)).records != [])
      ensures ok ==> Upcoming() == ReadBack(old(rest))
    {
      hide Malformed, PayloadMeta, ParseInt, NextChunk, ReadBack, IndexByte, MARKER;
      ghost var start := rest;
      ReadBackBy(start);
      var buffer: seq<byte> := [];
      while true
        invariant open && NextChunk([], start) == NextChunk(buffer, rest)
        decreases |rest|
      {
        var end := IndexByte(rest, LF);
        NextChunkBy(buffer, rest, end);
        if end == -1 {
          open := false;
          return true;
        }
        var line := rest[..end + 1];
        rest := rest[end + 1..];
        if line == MARKER {
          if Malformed(buffer) {
            return false;
          }
          EmptyIsMalformed();
          timestamp := ParseTime(buffer);
          data := buffer[..|buffer| - 1];
          return true;
        }
        buffer := buffer + line;
      }
    }

    /** `ReadPayload`: hand out the current record and read on. */
    method ReadPayload() returns (payload: seq<byte>, ok: bool)
      requires open
      modifies this
      ensures ok == (old(Upcoming()).ok || |old(Upcoming()).records| > 1)
      ensures payload == old(Upcoming()).records[0].data
      ensures ok ==> Upcoming() == old(Upcoming()).(records := old(Upcoming()).records[1..])
    {
      hide ReadBack;
      payload := data;
      ok := ParseNext();
    }
  }

  function ParseTime(buffer: seq<byte>): int64
    requires !Malformed(buffer)
  {
    ParseInt(PayloadMeta(buffer)[2])
  }

  /** `NewFileInputReader` on the contents of a file. */
  method NewFileReader(contents: seq<byte>) returns (f: FileReader, ok: bool)
    ensures fresh(f)
    ensures ok == (ReadBack(contents).ok || ReadBack(contents).records != [])
    ensures ok ==> f.Upcoming() == ReadBack(contents)
  {
    hide ReadBack;
    f := new FileReader(contents);
    ok := f.ParseNext();
  }
}
