/** proto.go: finding, setting, adding and deleting a header by scanning the payload line by line. */
module Headers {
  import opened Bytes
  import opened Titles

  /** The first `b` in `s[from..to]` as an index of `s`, or -1. */
  function Next(s: seq<byte>, b: byte, from: nat, to: nat): (r: int)
    requires from <= to <= |s|
    ensures r == -1 || (from <= r < to && s[r] == b)
    ensures forall j :: from <= j < (if r == -1 then to else r) ==> s[j] != b
  {
    var k := IndexByte(s[from..to], b);
    if k == -1 then
      assert forall j :: from <= j < to ==> s[j] == s[from..to][j - from];
      -1
    else
      assert forall j :: from <= j < from + k ==> s[j] == s[from..to][..k][j - from];
      from + k
  }

  /** A header line: it starts at `start`, its name ends at `colon` and its LF stands at `end`. */
  datatype Hit = Hit(start: nat, colon: nat, end: nat)

  /** The line `s[start..end]` has a colon, and the text before it folds to `name`. */
  predicate Matches(s: seq<byte>, start: nat, end: nat, name: seq<byte>)
    requires start <= end <= |s|
  {
    var c := Next(s, COLON, start, end);
    c >= 0 && EqualFold(s[start..c], name)
  }

  /** The first line from `from` on that is terminated by LF and matches `name`. */
  function FindLine(s: seq<byte>, name: seq<byte>, from: nat): (r: Option<Hit>)
    ensures r.Some? ==>
              && from <= r.value.start <= r.value.colon < r.value.end < |s|
              && s[r.value.end] == LF
              && r.value.end == Next(s, LF, r.value.start, |s|)
              && r.value.colon == Next(s, COLON, r.value.start, r.value.end)
              && Matches(s, r.value.start, r.value.end, name)
    decreases |s| - from
  {
    if from >= |s| then None
    else
      var end := Next(s, LF, from, |s|);
      if end == -1 then None
      else if Matches(s, from, end, name) then Some(Hit(from, Next(s, COLON, from, end), end))
      else FindLine(s, name, end + 1)
  }

  /** One step of the scan. */
  lemma FindStep(s: seq<byte>, name: seq<byte>, from: nat, end: int)
    requires from < |s| && end == Next(s, LF, from, |s|)
    ensures FindLine(s, name, from)
         == if end == -1 then None
            else if Matches(s, from, end, name) then Some(Hit(from, Next(s, COLON, from, end), end))
            else FindLine(s, name, end + 1)
  {
    hide Next, Matches;
  }

  lemma FindNone(s: seq<byte>, name: seq<byte>, from: nat)
    requires from >= |s|
    ensures FindLine(s, name, from) == None
  {}

  /** Where the scan begins: after the title line, if there is one. */
  function ScanStart(p: seq<byte>): (r: nat)
    ensures r <= |p|
    ensures HasTitle(p) ==> r == HeadersStart(p) >= 2
  {
    if HasTitle(p) then HeadersStart(p) else 0
  }

  function Find(p: seq<byte>, name: seq<byte>): Option<Hit> {
    FindLine(p, name, ScanStart(p))
  }

  predicate Blank(b: byte) {
    b < 0x21
  }

  /** Blank are the space and the control characters before it. */
  lemma BlankBytes(b: byte)
    ensures Blank(b) <==> b <= Ascii(" ")[0]
  {}

  function TrimFront(t: seq<byte>, lo: nat, hi: nat): (r: nat)
    requires lo <= hi <= |t|
    ensures lo <= r <= hi && (lo < hi ==> r < hi)
    ensures forall i :: lo <= i < r ==> Blank(t[i])
    ensures r + 1 < hi ==> !Blank(t[r])
    decreases hi - lo
  {
    if lo + 1 < hi && Blank(t[lo]) then TrimFront(t, lo + 1, hi) else lo
  }

  function TrimBack(t: seq<byte>, lo: nat, hi: nat): (r: nat)
    requires lo <= hi <= |t|
    ensures lo <= r <= hi && (lo < hi ==> lo < r)
    ensures forall i :: r <= i < hi ==> Blank(t[i])
    ensures lo + 1 < r ==> !Blank(t[r - 1])
  {
    if lo + 1 < hi && Blank(t[hi - 1]) then TrimBack(t, lo, hi - 1) else hi
  }

  /** The value inside `t`, the text between a header's colon and its LF. The byte before the LF is
      dropped whatever it is; blanks around the rest are trimmed until one byte is left. */
  function ValueSpan(t: seq<byte>): (r: (nat, nat))
    ensures r.0 <= r.1 <= |t| && (|t| > 0 ==> r.1 < |t|)
  {
    if t == [] then (0, 0)
    else
      var lo := TrimFront(t, 0, |t| - 1);
      (lo, TrimBack(t, lo, |t| - 1))
  }

  function LineText(p: seq<byte>, h: Hit): seq<byte>
    requires h.colon < h.end <= |p|
  {
    p[h.colon + 1..h.end]
  }

  /** Where the value of a hit begins in the payload, and where it ends (exclusive). */
  function ValueStart(p: seq<byte>, h: Hit): nat
    requires h.colon < h.end <= |p|
  {
    h.colon + 1 + ValueSpan(LineText(p, h)).0
  }

  function ValueEnd(p: seq<byte>, h: Hit): nat
    requires h.colon < h.end <= |p|
  {
    h.colon + 1 + ValueSpan(LineText(p, h)).1
  }

  function LineValue(t: seq<byte>): seq<byte> {
    t[ValueSpan(t).0..ValueSpan(t).1]
  }

  /** `Header`: the value, or nothing. */
  function Header(p: seq<byte>, name: seq<byte>): seq<byte> {
    match Find(p, name)
    case None => []
    case Some(h) => LineValue(LineText(p, h))
  }

  /** The scanning loop of `header`: the matching line, its colon and its LF. */
  method LocateHeader(payload: seq<byte>, name: seq<byte>) returns (hit: Option<Hit>)
    ensures hit == Find(payload, name)
  {
    hide ScanStart, Next, EqualFold, FindLine;
    var headerStart := ScanStart(payload);
    while headerStart < |payload|
      invariant Find(payload, name) == FindLine(payload, name, headerStart)
      decreases |payload| - headerStart
    {
      var headerEnd := Next(payload, LF, headerStart, |payload|);
      FindStep(payload, name, headerStart, headerEnd);
      if headerEnd == -1 {
        return None;
      }
      var colonIndex := Next(payload, COLON, headerStart, headerEnd);
      if colonIndex == -1 {
        headerStart := headerEnd + 1;
        continue;
      }
      if EqualFold(payload[headerStart..colonIndex], name) {
        return Some(Hit(headerStart, colonIndex, headerEnd));
      }
      headerStart := headerEnd + 1;
    }
    FindNone(payload, name, headerStart);
    hit := None;
  }

  /** The value can be sliced out of a matching line only if something stands between its colon and
      its LF. */
  predicate Readable(p: seq<byte>, n: seq<byte>) {
    match Find(p, n)
    case None => true
    case Some(h) => h.colon + 1 < h.end
  }

  /** `header`: the value and the positions of the line and of the value (its end inclusive). `ok` is
      false where the original's last slice expression is out of range; the value is empty then. */
  method FindHeader(payload: seq<byte>, name: seq<byte>)
    returns (value: seq<byte>, headerStart: int, headerEnd: int, valueStart: int, valueEnd: int, ok: bool)
    ensures value == Header(payload, name) && ok == Readable(payload, name)
    ensures match Find(payload, name)
            case None => headerStart == headerEnd == valueStart == valueEnd == -1
            case Some(h) =>
              && headerStart == h.start && headerEnd == h.end
              && valueStart == ValueStart(payload, h) && valueEnd + 1 == ValueEnd(payload, h)
  {
    hide *;
    HeaderText(payload, name);
    ReadableIs(payload, name);
    value, headerStart, headerEnd, valueStart, valueEnd, ok := [], -1, -1, -1, -1, true;
    var hit := LocateHeader(payload, name);
    if hit.Some? {
      var h := hit.value;
      headerStart, headerEnd := h.start, h.end;
      ok := h.colon + 1 < h.end;
      valueStart, valueEnd := TrimBlanks(payload, h.colon + 1, h.end);
      value := payload[valueStart..valueEnd + 1];
    }
  }

  lemma ReadableIs(p: seq<byte>, name: seq<byte>)
    ensures Readable(p, name) <==>
              match Find(p, name) case None => true case Some(h) => h.colon + 1 < h.end
  {
    hide Find;
  }

  lemma HeaderText(p: seq<byte>, name: seq<byte>)
    ensures match Find(p, name)
            case None => Header(p, name) == []
            case Some(h) =>
              && h.colon < h.end < |p|
              && ValueStart(p, h) == h.colon + 1 + ValueSpan(p[h.colon + 1..h.end]).0
              && ValueEnd(p, h) == h.colon + 1 + ValueSpan(p[h.colon + 1..h.end]).1
              && Header(p, name) == p[ValueStart(p, h)..ValueEnd(p, h)]
  {
    hide *;
    FindBounds(p, name);
    HeaderIs(p, name);
    match Find(p, name)
    case None =>
    case Some(h) => HitText(p, h);
  }

  lemma FindBounds(p: seq<byte>, name: seq<byte>)
    ensures Find(p, name).Some? ==>
              ScanStart(p) <= Find(p, name).value.start <= Find(p, name).value.colon < Find(p, name).value.end < |p|
  {
    hide ScanStart, FindLine, Matches, Next;
  }

  lemma HeaderIs(p: seq<byte>, name: seq<byte>)
    requires Find(p, name).Some? ==> Find(p, name).value.colon < Find(p, name).value.end < |p|
    ensures Header(p, name) == match Find(p, name) case None => [] case Some(h) => LineValue(LineText(p, h))
  {
    hide Find, LineValue, LineText;
  }

  lemma HitText(p: seq<byte>, h: Hit)
    requires h.colon < h.end <= |p|
    ensures ValueStart(p, h) == h.colon + 1 + ValueSpan(p[h.colon + 1..h.end]).0
    ensures ValueEnd(p, h) == h.colon + 1 + ValueSpan(p[h.colon + 1..h.end]).1
    ensures ValueStart(p, h) <= ValueEnd(p, h) <= |p|
    ensures LineValue(LineText(p, h)) == p[ValueStart(p, h)..ValueEnd(p, h)]
  {
    hide ValueSpan;
    var span := ValueSpan(LineText(p, h));
    SliceOfSlice(p, h.colon + 1, h.end, span.0, span.1);
  }

  lemma SliceOfSlice(s: seq<byte>, from: nat, to: nat, lo: nat, hi: nat)
    requires from <= to <= |s| && lo <= hi <= to - from
    ensures s[from..to][lo..hi] == s[from + lo..from + hi]
  {
    var a, b := s[from..to][lo..hi], s[from + lo..from + hi];
    assert |a| == |b| && forall i :: 0 <= i < |a| ==> a[i] == b[i];
  }

  /** The two trimming loops of `header`, from `valueStart` and from `headerEnd - 2`. */
  method TrimBlanks(payload: seq<byte>, from: nat, headerEnd: nat) returns (valueStart: nat, valueEnd: int)
    requires from <= headerEnd <= |payload|
    ensures var span := ValueSpan(payload[from..headerEnd]);
            valueStart == from + span.0 && valueEnd + 1 == from + span.1
  {
    hide TrimFront, TrimBack;
    valueStart, valueEnd := from, headerEnd - 2;
    if valueEnd + 1 < valueStart {
      valueEnd := valueStart - 1;
      return;
    }
    ghost var t := payload[from..headerEnd];
    valueStart := SkipFront(payload, t, from, headerEnd);
    valueEnd := SkipBack(payload, t, from, headerEnd, valueStart);
  }

  method SkipFront(payload: seq<byte>, ghost t: seq<byte>, from: nat, headerEnd: nat) returns (valueStart: nat)
    requires from < headerEnd <= |payload| && t == payload[from..headerEnd]
    ensures from <= valueStart < headerEnd && valueStart - from == TrimFront(t, 0, |t| - 1)
  {
    valueStart := from;
    while valueStart < headerEnd - 2
      invariant from <= valueStart < headerEnd
      invariant TrimFront(t, 0, |t| - 1) == TrimFront(t, valueStart - from, |t| - 1)
    {
      assert payload[valueStart] == t[valueStart - from];
      if payload[valueStart] >= 0x21 {
        break;
      }
      valueStart := valueStart + 1;
    }
  }

  method SkipBack(payload: seq<byte>, ghost t: seq<byte>, from: nat, headerEnd: nat, valueStart: nat)
    returns (valueEnd: int)
    requires from <= valueStart < headerEnd <= |payload| && t == payload[from..headerEnd]
    ensures valueStart - 1 <= valueEnd
    ensures valueEnd + 1 - from == TrimBack(t, valueStart - from, |t| - 1)
  {
    valueEnd := headerEnd - 2;
    while valueEnd > valueStart
      invariant valueStart - 1 <= valueEnd <= headerEnd - 2
      invariant TrimBack(t, valueStart - from, |t| - 1) == TrimBack(t, valueStart - from, valueEnd + 1 - from)
    {
      assert payload[valueEnd] == t[valueEnd - from];
      if payload[valueEnd] >= 0x21 {
        break;
      }
      valueEnd := valueEnd - 1;
    }
  }
}
