/** proto.go: `SetHeader`, `AddHeader`, `DeleteHeader`, and the laws between them and `Header`. */
module HeaderEdits {
  import opened Bytes
  import opened ByteUtils
  import opened Titles
  import opened Headers
  import opened HeaderScan

  // ----- what the edits produce -------------------------------------------------------

  function HeaderLine(name: seq<byte>, value: seq<byte>): seq<byte> {
    name + [COLON, SPACE] + value + CRLF
  }

  function AddHeader(p: seq<byte>, name: seq<byte>, value: seq<byte>): seq<byte> {
    var start := HeadersStart(p);
    if start < 1 then p else Insert(p, start, HeaderLine(name, value))
  }

  function SetHeader(p: seq<byte>, name: seq<byte>, value: seq<byte>): seq<byte> {
    HeaderText(p, name);
    match Find(p, name)
    case None => AddHeader(p, name, value)
    case Some(h) =>
      HitText(p, h);
      Replace(p, ValueStart(p, h), ValueEnd(p, h), value)
  }

  function DeleteHeader(p: seq<byte>, name: seq<byte>): seq<byte> {
    HeaderText(p, name);
    match Find(p, name)
    case None => p
    case Some(h) =>
      FindBounds(p, name);
      Cut(p, h.start, h.end + 1)
  }

  // ----- the edits on slices ----------------------------------------------------------

  method ReadSlice(s: Slice) returns (bytes: seq<byte>)
    requires s.Valid()
    ensures bytes == s.Contents()
  {
    bytes := s.arr[..][s.off..s.off + s.len];
  }

  method AddHeaderSlice(payload: Slice, name: seq<byte>, value: seq<byte>, spare: nat) returns (r: Slice)
    requires payload.Valid()
    modifies payload.arr
    ensures r.Valid() && (r.arr == payload.arr || fresh(r.arr))
    ensures r.Contents() == AddHeader(old(payload.Contents()), name, value)
  {
    hide HeadersStart, Insert, HeaderLine;
    var bytes := ReadSlice(payload);
    var mimeStart := HeadersStart(bytes);
    if mimeStart < 1 {
      return payload;
    }
    var header := MakeSlice(HeaderLine(name, value));
    r := InsertSlice(payload, mimeStart, header, spare);
  }

  /** `ok` is false where looking the header up fails in the original. */
  method SetHeaderSlice(payload: Slice, name: seq<byte>, value: Slice, spare: nat) returns (r: Slice, ok: bool)
    requires payload.Valid() && value.Valid()
    modifies payload.arr
    ensures r.Valid() && (r.arr == payload.arr || fresh(r.arr))
    ensures ok == Readable(old(payload.Contents()), name)
    ensures ok && Apart(payload, value) ==>
              r.Contents() == SetHeader(old(payload.Contents()), name, old(value.Contents()))
  {
    hide *;
    var bytes := ReadSlice(payload);
    var text := ReadSlice(value);
    HeaderText(bytes, name);
    SetIs(bytes, name, text);
    r := payload;
    var _, hs, _, vs, ve, readable := FindHeader(bytes, name);
    ok := readable;
    if !ok {
      return;
    }
    if hs != -1 {
      r := ReplaceApart(payload, vs, ve + 1, value, spare);
    } else {
      r := AddHeaderSlice(payload, name, text, spare);
    }
  }

  lemma SetIs(p: seq<byte>, name: seq<byte>, value: seq<byte>)
    ensures match Find(p, name)
            case None => SetHeader(p, name, value) == AddHeader(p, name, value)
            case Some(h) =>
              && h.colon < h.end <= |p| && ValueStart(p, h) <= ValueEnd(p, h) <= |p|
              && SetHeader(p, name, value) == Replace(p, ValueStart(p, h), ValueEnd(p, h), value)
  {
    hide Find, ValueStart, ValueEnd, AddHeader, Replace;
    HeaderText(p, name);
    if Find(p, name).Some? {
      HitText(p, Find(p, name).value);
    }
  }

  method DeleteHeaderSlice(payload: Slice, name: seq<byte>) returns (r: Slice, ok: bool)
    requires payload.Valid()
    modifies payload.arr
    ensures r.Valid() && r.arr == payload.arr
    ensures ok == Readable(old(payload.Contents()), name)
    ensures ok ==> r.Contents() == DeleteHeader(old(payload.Contents()), name)
  {
    hide Find, Cut, Readable;
    var bytes := ReadSlice(payload);
    FindBounds(bytes, name);
    r := payload;
    var _, hs, he, _, _, readable := FindHeader(bytes, name);
    ok := readable;
    if ok && hs != -1 {
      r := CutSlice(payload, hs, he + 1);
    }
  }

  // ----- trimming ---------------------------------------------------------------------

  lemma {:induction false} TrimFrontTo(t: seq<byte>, lo: nat, k: nat, hi: nat)
    requires lo <= k < hi <= |t|
    requires forall i :: lo <= i < k ==> Blank(t[i])
    requires k + 1 == hi || !Blank(t[k])
    ensures TrimFront(t, lo, hi) == k
    decreases k - lo
  {
    if lo < k {
      TrimFrontTo(t, lo + 1, k, hi);
    }
  }

  lemma {:induction false} TrimBackTo(t: seq<byte>, lo: nat, k: nat, hi: nat)
    requires lo < k <= hi <= |t|
    requires forall i :: k <= i < hi ==> Blank(t[i])
    requires lo + 1 == k || !Blank(t[k - 1])
    ensures TrimBack(t, lo, hi) == k
    decreases hi - k
  {
    if k < hi {
      TrimBackTo(t, lo, k, hi - 1);
    }
  }

  predicate CleanName(n: seq<byte>) {
    LF !in n && COLON !in n
  }

  /** `v` between blanks and before one more byte reads back as `v`. */
  lemma ValueOf(front: seq<byte>, v: seq<byte>, back: seq<byte>)
    requires v != [] && !Blank(v[0]) && !Blank(v[|v| - 1]) && back != []
    requires forall i :: 0 <= i < |front| ==> Blank(front[i])
    requires forall i :: 0 <= i < |back| - 1 ==> Blank(back[i])
    ensures ValueSpan(front + v + back) == (|front|, |front| + |v|)
    ensures LineValue(front + v + back) == v
  {
    hide Blank, TrimFront, TrimBack;
    var t := front + v + back;
    ThreeParts(front, v, back);
    TrimFrontTo(t, 0, |front|, |t| - 1);
    TrimBackTo(t, |front|, |front| + |v|, |t| - 1);
  }

  lemma ThreeParts(front: seq<byte>, v: seq<byte>, back: seq<byte>)
    requires v != []
    ensures var t := front + v + back;
            && (forall i :: 0 <= i < |front| ==> t[i] == front[i])
            && t[|front|] == v[0] && t[|front| + |v| - 1] == v[|v| - 1]
            && (forall i :: |front| + |v| <= i < |t| ==> t[i] == back[i - |front| - |v|])
            && t[|front|..|front| + |v|] == v
  {}

  /** A value that reads back when it is written as a line of its own. */
  predicate ReadsBack(v: seq<byte>) {
    LF !in v && v != [] && (|v| == 1 || (!Blank(v[0]) && !Blank(v[|v| - 1])))
  }

  /** A value that reads back between the blanks `front` and `back`: the empty value only where there are
      none, a single blank only where the last byte before the line end is the same, a longer value only
      if it has no blank at either end. */
  predicate Survives(front: seq<byte>, v: seq<byte>, back: seq<byte>) {
    if v == [] then front == [] && back == []
    else if |v| == 1 then !Blank(v[0]) || back == [] || back[|back| - 1] == v[0]
    else !Blank(v[0]) && !Blank(v[|v| - 1])
  }

  lemma AllBlank(t: seq<byte>)
    requires |t| >= 2 && forall i :: 0 <= i < |t| - 1 ==> Blank(t[i])
    ensures LineValue(t) == [t[|t| - 2]]
  {
    hide Blank, TrimFront, TrimBack;
    TrimFrontTo(t, 0, |t| - 2, |t| - 1);
    TrimBackTo(t, |t| - 2, |t| - 1, |t| - 1);
  }

  /** A value is one byte or has no blank at either end. */
  lemma ValueShape(t: seq<byte>)
    requires |t| >= 2
    ensures var v := LineValue(t); v != [] && (|v| == 1 || (!Blank(v[0]) && !Blank(v[|v| - 1])))
  {
    hide Blank;
  }

  /** Exactly when `v` between blanks reads back as `v`. */
  lemma SurvivesExactly(front: seq<byte>, v: seq<byte>, back: seq<byte>, last: byte)
    requires forall i :: 0 <= i < |front| ==> Blank(front[i])
    requires forall i :: 0 <= i < |back| ==> Blank(back[i])
    ensures LineValue(front + v + (back + [last])) == v <==> Survives(front, v, back)
  {
    hide LineValue, Blank;
    var t := front + v + (back + [last]);
    if v == [] {
      NoValue(front, back, last);
    } else if |v| == 1 && Blank(v[0]) {
      ThreeParts(front, v, back + [last]);
      AllBlank(t);
      assert t[|t| - 2] == if back == [] then v[0] else back[|back| - 1];
      assert v == [v[0]];
    } else if !Blank(v[0]) && !Blank(v[|v| - 1]) {
      ValueOf(front, v, back + [last]);
    } else {
      ValueShape(t);
    }
  }

  lemma NoValue(front: seq<byte>, back: seq<byte>, last: byte)
    ensures LineValue(front + [] + (back + [last])) == [] <==> front == [] && back == []
  {
    hide Blank;
    var t := front + [] + (back + [last]);
    if |t| >= 2 {
      ValueShape(t);
    } else {
      assert t == [last];
    }
  }

  // ----- the inserted line ------------------------------------------------------------

  /** A header line `n: t` standing at `|a|` is where a scan for `n` from there stops. */
  lemma LineScanned(a: seq<byte>, n: seq<byte>, t: seq<byte>, z: seq<byte>)
    requires CleanName(n) && LF !in t
    ensures var q := a + n + [COLON] + t + [LF] + z;
            var h := Hit(|a|, |a| + |n|, |a| + |n| + 1 + |t|);
            && |q| == |a| + |n| + 2 + |t| + |z|
            && Next(q, LF, |a|, |q|) == h.end
            && FindLine(q, n, |a|) == Some(h)
            && q[h.start..h.colon] == n
            && LineText(q, h) == t
  {
    hide Next, EqualFold, FindLine;
    var q := a + n + [COLON] + t + [LF] + z;
    var colon, end := |a| + |n|, |a| + |n| + 1 + |t|;
    assert forall j :: |a| <= j < colon ==> q[j] == n[j - |a|];
    assert forall j :: colon < j < end ==> q[j] == t[j - colon - 1];
    NextIs(q, COLON, |a|, end, colon);
    NextIs(q, LF, |a|, |q|, end);
    assert q[|a|..colon] == n;
    assert q[colon + 1..end] == t;
    FoldSelf(n);
    FindStep(q, n, |a|, end);
  }

  lemma FoldSelf(n: seq<byte>)
    ensures EqualFold(n, n)
  {}

  lemma ScanAfterTitle(p: seq<byte>)
    requires HasTitle(p)
    ensures 2 <= HeadersStart(p) <= |p| && ScanStart(p) == HeadersStart(p)
    ensures |p| + 4 >= MIN_REQUEST_COUNT
  {
    hide RequestLine, StatusLine;
    TitleLength(p);
  }

  /** `AddHeader` keeps the title and puts its line right behind it. */
  lemma AddedBehindTitle(p: seq<byte>, n: seq<byte>, v: seq<byte>)
    requires HasTitle(p)
    ensures var q := AddHeader(p, n, v);
            var s := HeadersStart(p);
            && 2 <= s <= |p| && s <= |q| && q[..s] == p[..s]
            && HasTitle(q) && ScanStart(q) == HeadersStart(q) == s && ScanStart(p) == s
            && q == p[..s] + HeaderLine(n, v) + p[s..]
  {
    hide HasTitle, ScanStart, HeadersStart;
    ScanAfterTitle(p);
    var q := AddHeader(p, n, v);
    assert q[..HeadersStart(p)] == p[..HeadersStart(p)];
    TitleLocal(p, q);
    ScanAfterTitle(q);
  }

  /** The added line is the first one scanned, and it carries exactly `n` and `v`. */
  lemma AddedFound(p: seq<byte>, n: seq<byte>, v: seq<byte>)
    requires HasTitle(p) && CleanName(n) && LF !in v
    ensures var q := AddHeader(p, n, v);
            var s := HeadersStart(p);
            var h := Hit(s, s + |n|, s + |HeaderLine(n, v)| - 1);
            && Find(q, n) == Some(h)
            && h.colon < h.end < |q|
            && h.end == Next(q, LF, s, |q|)
            && LineText(q, h) == [SPACE] + v + [CR]
  {
    hide HasTitle, HeadersStart, ScanStart, AddHeader, FindLine, Next, LineText;
    var s := HeadersStart(p);
    AddedBehindTitle(p, n, v);
    var t := [SPACE] + v + [CR];
    LineScanned(p[..s], n, t, p[s..]);
    assert p[..s] + HeaderLine(n, v) + p[s..] == p[..s] + n + [COLON] + t + [LF] + p[s..];
  }

  /** With an LF in the value, what is found is only the first of the lines that were added. */
  lemma AddedFoundShort(p: seq<byte>, n: seq<byte>, v: seq<byte>)
    requires HasTitle(p) && CleanName(n) && LF in v
    ensures var q := AddHeader(p, n, v);
            var s := HeadersStart(p);
            Find(q, n) == Some(Hit(s, s + |n|, s + |n| + 2 + IndexByte(v, LF)))
  {
    hide HasTitle, HeadersStart, ScanStart, AddHeader, FindLine, Next, LineText, IndexByte;
    var s := HeadersStart(p);
    AddedBehindTitle(p, n, v);
    var k := IndexByte(v, LF);
    var t := [SPACE] + v[..k];
    var z := v[k + 1..] + CRLF + p[s..];
    LineScanned(p[..s], n, t, z);
    BrokenLine(p[..s], n, v, k, p[s..]);
  }

  lemma BrokenLine(a: seq<byte>, n: seq<byte>, v: seq<byte>, k: nat, z: seq<byte>)
    requires k < |v| && v[k] == LF
    ensures a + HeaderLine(n, v) + z
         == a + n + [COLON] + ([SPACE] + v[..k]) + [LF] + (v[k + 1..] + CRLF + z)
  {
    assert v == v[..k] + [LF] + v[k + 1..];
  }

  // ----- laws -------------------------------------------------------------------------

  /** Deleting the header just added restores the payload byte for byte, unless the value breaks
      into several lines. */
  lemma DeleteUndoesAdd(p: seq<byte>, n: seq<byte>, v: seq<byte>)
    requires HasTitle(p) && CleanName(n)
    ensures DeleteHeader(AddHeader(p, n, v), n) == p <==> LF !in v
  {
    hide HasTitle, HeadersStart, ScanStart, Find, Cut, Insert, IndexByte;
    var s := HeadersStart(p);
    ScanAfterTitle(p);
    if LF !in v {
      AddedFound(p, n, v);
      CutUndoesInsert(p, s, HeaderLine(n, v));
    } else {
      AddedFoundShort(p, n, v);
      AddedBehindTitle(p, n, v);
      CutLength(AddHeader(p, n, v), s, s + |n| + 3 + IndexByte(v, LF));
    }
  }

  lemma CutLength(a: seq<byte>, from: nat, to: nat)
    requires from <= to <= |a|
    ensures |Cut(a, from, to)| == |a| - (to - from)
  {}

  // ----- rewriting the value of a header that is there ----------------------------------

  /** A payload cut at one of its header lines. */
  lemma SplitAtLine(p: seq<byte>, n: seq<byte>, h: Hit)
    requires Find(p, n) == Some(h)
    ensures ScanStart(p) <= h.start <= h.colon < h.end < |p|
    ensures p == p[..h.start] + p[h.start..h.colon] + [COLON] + LineText(p, h) + [LF] + p[h.end + 1..]
    ensures CleanName(p[h.start..h.colon]) && LF !in LineText(p, h)
    ensures EqualFold(p[h.start..h.colon], n)
    ensures FindLine(p, n, ScanStart(p)) == Some(h)
  {
    hide *;
    FindBounds(p, n);
    FindLineOf(p, n);
    FindColon(p, n, h);
    LineNoLf(p, n, h);
    NameOf(p, n, h);
    JoinLine(p, h);
  }

  lemma NameOf(p: seq<byte>, n: seq<byte>, h: Hit)
    requires Find(p, n) == Some(h)
    ensures h.start <= h.colon < h.end <= |p| && EqualFold(p[h.start..h.colon], n)
    ensures forall i :: h.start <= i < h.colon ==> p[i] != COLON
  {
    hide ScanStart, Next, EqualFold, FindLine;
  }

  lemma JoinLine(p: seq<byte>, h: Hit)
    requires h.start <= h.colon < h.end < |p| && p[h.colon] == COLON && p[h.end] == LF
    requires forall i :: h.start <= i < h.end ==> p[i] != LF
    requires forall i :: h.start <= i < h.colon ==> p[i] != COLON
    ensures p == p[..h.start] + p[h.start..h.colon] + [COLON] + LineText(p, h) + [LF] + p[h.end + 1..]
    ensures CleanName(p[h.start..h.colon]) && LF !in LineText(p, h)
  {
    var nm, t := p[h.start..h.colon], LineText(p, h);
    assert forall i :: 0 <= i < |nm| ==> nm[i] == p[h.start + i];
    assert forall i :: 0 <= i < |t| ==> t[i] == p[h.colon + 1 + i];
  }

  function NewText(p: seq<byte>, h: Hit, v: seq<byte>): seq<byte>
    requires h.colon < h.end <= |p|
  {
    var t := LineText(p, h);
    t[..ValueSpan(t).0] + v + t[ValueSpan(t).1..]
  }

  lemma ReplacedText(p: seq<byte>, h: Hit, v: seq<byte>)
    requires h.start <= h.colon < h.end < |p| && p[h.colon] == COLON && p[h.end] == LF
    requires ValueStart(p, h) <= ValueEnd(p, h) <= |p|
    ensures Replace(p, ValueStart(p, h), ValueEnd(p, h), v)
         == p[..h.start] + p[h.start..h.colon] + [COLON] + NewText(p, h, v) + [LF] + p[h.end + 1..]
  {
    hide ValueSpan, Replace;
    var t := LineText(p, h);
    var (lo, hi) := ValueSpan(t);
    ReplaceSplits(p, ValueStart(p, h), ValueEnd(p, h), v);
    CutInLine(p, h.start, h.colon, h.end, lo, hi);
    Regroup(p[..h.start] + p[h.start..h.colon] + [COLON], t[..lo], v, t[hi..], p[h.end + 1..]);
  }

  lemma Regroup(a: seq<byte>, b: seq<byte>, v: seq<byte>, z: seq<byte>, rest: seq<byte>)
    ensures a + b + v + (z + [LF] + rest) == a + (b + v + z) + [LF] + rest
  {}

  lemma CutInLine(p: seq<byte>, start: nat, colon: nat, end: nat, lo: nat, hi: nat)
    requires start <= colon < end < |p| && p[colon] == COLON && p[end] == LF && lo <= hi <= end - colon - 1
    ensures var t := p[colon + 1..end];
            && p[..colon + 1 + lo] == p[..start] + p[start..colon] + [COLON] + t[..lo]
            && p[colon + 1 + hi..] == t[hi..] + [LF] + p[end + 1..]
  {}

  /** Setting a header that is there rewrites its line, and nothing else. */
  lemma ReplacedLine(p: seq<byte>, n: seq<byte>, v: seq<byte>, h: Hit)
    requires HasTitle(p) && Find(p, n) == Some(h) && h.colon + 1 < h.end && LF !in v
    ensures var q := SetHeader(p, n, v);
            var next := h.colon + 2 + |NewText(p, h, v)|;
            && HasTitle(q) && ScanStart(q) == ScanStart(p)
            && LineEdited(p, q, h, next)
            && Matches(q, h.start, next - 1, n)
            && Next(q, COLON, h.start, next - 1) == h.colon
            && LineText(q, Hit(h.start, h.colon, next - 1)) == NewText(p, h, v)
  {
    hide *;
    SplitAtLine(p, n, h);
    HeaderText(p, n);
    HitText(p, h);
    SetIsReplace(p, n, v, h);
    FindColon(p, n, h);
    ReplacedText(p, h, v);
    var a, nm, t, z := p[..h.start], p[h.start..h.colon], NewText(p, h, v), p[h.end + 1..];
    NewTextClean(p, h, v);
    LineScanned(a, nm, t, z);
    var q := SetHeader(p, n, v);
    assert q == a + nm + [COLON] + t + [LF] + z;
    var next := h.colon + 2 + |t|;
    FindColon2(q, nm, h.start);
    LineEditedBy(p, h, a, nm, t, z, next);
    MatchesFold(q, h.start, next - 1, nm, n);
    KeepsTitle(p, q, h.start);
  }

  lemma SetIsReplace(p: seq<byte>, n: seq<byte>, v: seq<byte>, h: Hit)
    requires Find(p, n) == Some(h) && ValueStart(p, h) <= ValueEnd(p, h) <= |p| && h.colon < h.end <= |p|
    ensures SetHeader(p, n, v) == Replace(p, ValueStart(p, h), ValueEnd(p, h), v)
  {
    hide Find, Replace, ValueStart, ValueEnd;
  }

  lemma FindColon(p: seq<byte>, n: seq<byte>, h: Hit)
    requires Find(p, n) == Some(h)
    ensures h.start <= h.colon < h.end < |p| && p[h.colon] == COLON && p[h.end] == LF
  {
    hide ScanStart, FindLine, Next, Matches;
  }

  lemma FindColon2(q: seq<byte>, n: seq<byte>, from: nat)
    requires FindLine(q, n, from).Some?
    ensures var h := FindLine(q, n, from).value;
            && h.start <= h.colon < h.end < |q|
            && Matches(q, h.start, h.end, n) && h.colon == Next(q, COLON, h.start, h.end)
  {
    hide FindLine, Matches, Next;
  }

  lemma NewTextClean(p: seq<byte>, h: Hit, v: seq<byte>)
    requires h.colon < h.end <= |p| && LF !in LineText(p, h) && LF !in v
    ensures LF !in NewText(p, h, v)
  {
    hide ValueSpan, LineText;
  }

  lemma LineEditedBy(p: seq<byte>, h: Hit, a: seq<byte>, nm: seq<byte>, t: seq<byte>, z: seq<byte>, next: nat)
    requires h.start <= h.end < |p| && a == p[..h.start] && z == p[h.end + 1..]
    requires next == |a| + |nm| + 2 + |t|
    requires var q := a + nm + [COLON] + t + [LF] + z; Next(q, LF, |a|, |q|) == next - 1
    ensures LineEdited(p, a + nm + [COLON] + t + [LF] + z, h, next)
  {
    hide Next;
    var q := a + nm + [COLON] + t + [LF] + z;
    assert q[..|a|] == a;
    assert q[next..] == z;
  }

  lemma MatchesFold(q: seq<byte>, start: nat, end: nat, nm: seq<byte>, n: seq<byte>)
    requires start <= end <= |q| && Matches(q, start, end, nm) && EqualFold(nm, n)
    ensures Matches(q, start, end, n)
  {
    hide Next;
  }

  lemma KeepsTitle(p: seq<byte>, q: seq<byte>, from: nat)
    requires HasTitle(p) && ScanStart(p) <= from <= |p| && from + 2 <= |q| && p[..from] <= q
    ensures HasTitle(q) && ScanStart(q) == ScanStart(p) == HeadersStart(p) == HeadersStart(q)
  {
    hide HasTitle, HeadersStart;
    TitleLength(p);
    assert p[..HeadersStart(p)] == p[..from][..HeadersStart(p)];
    TitleLocal(p, q);
  }

  /** Get after add: the added header is the one that is read, exactly when its value is one that reads
      back. */
  lemma AddThenGet(p: seq<byte>, n: seq<byte>, v: seq<byte>)
    requires HasTitle(p) && CleanName(n)
    ensures Header(AddHeader(p, n, v), n) == v <==> ReadsBack(v)
  {
    hide *;
    ReadsBackIs(v);
    if LF in v {
      HeaderNoLf(AddHeader(p, n, v), n);
    } else {
      AddedFound(p, n, v);
      SpaceIsBlank();
      SurvivesExactly([SPACE], v, [], CR);
      assert [SPACE] + v + [CR] == [SPACE] + v + ([] + [CR]);
      HeaderIs(AddHeader(p, n, v), n);
    }
  }

  lemma ReadsBackIs(v: seq<byte>)
    ensures ReadsBack(v) <==> LF !in v && Survives([SPACE], v, [])
  {}

  /** No header value has an LF. */
  lemma HeaderNoLf(p: seq<byte>, n: seq<byte>)
    ensures LF !in Header(p, n)
  {
    hide *;
    HeaderText(p, n);
    match Find(p, n)
    case None =>
    case Some(h) =>
      FindBounds(p, n);
      LineNoLf(p, n, h);
      SpanWithin(p, h);
      var v := Header(p, n);
      assert forall i :: 0 <= i < |v| ==> v[i] == p[ValueStart(p, h) + i] != LF;
  }

  lemma SpanWithin(p: seq<byte>, h: Hit)
    requires h.colon < h.end <= |p|
    ensures h.colon < ValueStart(p, h) <= ValueEnd(p, h) <= h.end
  {
    hide TrimFront, TrimBack;
  }

  /** Exactly when setting `v` makes it the value of the header: a new line must read back, and in a line
      that is there the blanks around its old value count too. */
  predicate SetReadsBack(p: seq<byte>, n: seq<byte>, v: seq<byte>) {
    match Find(p, n)
    case None => ReadsBack(v)
    case Some(h) =>
      h.colon + 1 < h.end <= |p| && LF !in v && Survives(FrontOf(p, h), v, BackOf(p, h))
  }

  /** Get after set: whatever header was there before, the value just set is the value read back, exactly
      under that condition. */
  lemma SetThenGet(p: seq<byte>, n: seq<byte>, v: seq<byte>)
    requires HasTitle(p) && CleanName(n) && Readable(p, n)
    ensures Header(SetHeader(p, n, v), n) == v <==> SetReadsBack(p, n, v)
  {
    hide *;
    var q := SetHeader(p, n, v);
    if Find(p, n) == None {
      SetIsAdd(p, n, v);
      AddThenGet(p, n, v);
      SetMissing(p, n, v);
    } else {
      var h := Find(p, n).value;
      ReadableHit(p, n, h);
      FindColon(p, n, h);
      SetPresent(p, n, v, h);
      if LF in v {
        HeaderNoLf(q, n);
      } else {
        ReplacedLine(p, n, v, h);
        var next := h.colon + 2 + |NewText(p, h, v)|;
        FindIsEdited(p, q, n, h, next);
        NewTextValue(p, h, v);
        FindBounds(q, n);
        HeaderIs(q, n);
      }
    }
  }

  lemma SetMissing(p: seq<byte>, n: seq<byte>, v: seq<byte>)
    requires Find(p, n) == None
    ensures SetReadsBack(p, n, v) <==> ReadsBack(v)
  {
    hide Find, ReadsBack;
  }

  lemma SetPresent(p: seq<byte>, n: seq<byte>, v: seq<byte>, h: Hit)
    requires Find(p, n) == Some(h) && h.colon + 1 < h.end <= |p|
    ensures SetReadsBack(p, n, v) <==> LF !in v && Survives(FrontOf(p, h), v, BackOf(p, h))
  {
    hide Find, Survives, FrontOf, BackOf;
  }

  /** The failing values, beside those with an LF: on a new line the empty value reads as a space. */
  lemma EmptyReadsAsSpace(p: seq<byte>, n: seq<byte>)
    requires HasTitle(p) && CleanName(n)
    ensures Header(AddHeader(p, n, []), n) == [SPACE]
  {
    hide *;
    AddedFound(p, n, []);
    HeaderIs(AddHeader(p, n, []), n);
    SpaceIsBlank();
    assert [SPACE] + [] + [CR] == [SPACE, CR];
    AllBlank([SPACE, CR]);
  }

  lemma SpaceIsBlank()
    ensures Blank(SPACE)
  {}

  lemma SetIsAdd(p: seq<byte>, n: seq<byte>, v: seq<byte>)
    requires Find(p, n) == None
    ensures SetHeader(p, n, v) == AddHeader(p, n, v)
  {
    hide Find, AddHeader;
  }

  lemma FindIsEdited(p: seq<byte>, q: seq<byte>, n: seq<byte>, h: Hit, next: nat)
    requires Find(p, n) == Some(h) && ScanStart(q) == ScanStart(p) && LineEdited(p, q, h, next)
    requires Matches(q, h.start, next - 1, n) && Next(q, COLON, h.start, next - 1) == h.colon
    ensures Find(q, n) == Some(Hit(h.start, h.colon, next - 1))
  {
    hide ScanStart, FindLine, LineEdited, Matches, Next;
    FindEdited(p, q, n, ScanStart(p), h, next);
  }

  /** The blanks that stay before the value, and those behind it but for the last byte of the line. */
  function FrontOf(p: seq<byte>, h: Hit): seq<byte>
    requires h.colon + 1 < h.end <= |p|
  {
    LineText(p, h)[..ValueSpan(LineText(p, h)).0]
  }

  function BackOf(p: seq<byte>, h: Hit): seq<byte>
    requires h.colon + 1 < h.end <= |p|
  {
    var t := LineText(p, h);
    t[ValueSpan(t).1..|t| - 1]
  }

  lemma NewTextValue(p: seq<byte>, h: Hit, v: seq<byte>)
    requires h.colon + 1 < h.end <= |p|
    ensures LineValue(NewText(p, h, v)) == v <==> Survives(FrontOf(p, h), v, BackOf(p, h))
  {
    hide TrimFront, TrimBack, LineValue, Survives;
    var t := LineText(p, h);
    var (lo, hi) := ValueSpan(t);
    var back := t[hi..|t| - 1];
    assert forall i :: 0 <= i < |back| ==> back[i] == t[hi + i];
    assert t[hi..] == back + [t[|t| - 1]];
    SurvivesExactly(t[..lo], v, back, t[|t| - 1]);
  }

  /** Frame: setting one header leaves the value of every header of another name as it was. */
  lemma SetKeepsOthers(p: seq<byte>, n: seq<byte>, v: seq<byte>, m: seq<byte>)
    requires HasTitle(p) && CleanName(n) && LF !in v && Readable(p, n)
    requires !EqualFold(n, m)
    ensures Header(SetHeader(p, n, v), m) == Header(p, m)
  {
    hide *;
    var q := SetHeader(p, n, v);
    if Find(p, n) == None {
      SetIsAdd(p, n, v);
      AddKeepsOthers(p, n, v, m);
    } else {
      var h := Find(p, n).value;
      ReadableHit(p, n, h);
      ReplacedLine(p, n, v, h);
      SplitAtLine(p, n, h);
      var next := h.colon + 2 + |NewText(p, h, v)|;
      HitMatches(p, n, h);
      EditedBounds(p, q, h, next);
      MatchesOne(p, h.start, h.end, n, m);
      MatchesOne(q, h.start, next - 1, n, m);
      FindOther(p, q, n, m, ScanStart(p), h, next);
      SameValue(p, q, m);
    }
  }

  lemma ReadsBackNoLf(v: seq<byte>)
    requires ReadsBack(v)
    ensures v != [] && LF !in v
  {}

  lemma ReadableHit(p: seq<byte>, n: seq<byte>, h: Hit)
    requires Readable(p, n) && Find(p, n) == Some(h)
    ensures h.colon + 1 < h.end
  {
    hide Find;
  }

  lemma HitMatches(p: seq<byte>, n: seq<byte>, h: Hit)
    requires Find(p, n) == Some(h)
    ensures h.start <= h.end <= |p| && Matches(p, h.start, h.end, n)
  {
    hide ScanStart, FindLine, Next, Matches;
  }

  lemma EditedBounds(p: seq<byte>, q: seq<byte>, h: Hit, next: nat)
    requires LineEdited(p, q, h, next)
    ensures h.start < next <= |q|
  {
    hide Next;
  }

  lemma SameValue(p: seq<byte>, q: seq<byte>, m: seq<byte>)
    requires ScanStart(p) == ScanStart(q)
    requires SameHit(p, q, FindLine(p, m, ScanStart(p)), FindLine(q, m, ScanStart(q)))
    ensures Header(q, m) == Header(p, m)
  {
    hide ScanStart, FindLine, LineText, LineValue;
  }

  lemma AddKeepsOthers(p: seq<byte>, n: seq<byte>, v: seq<byte>, m: seq<byte>)
    requires HasTitle(p) && CleanName(n) && LF !in v && !EqualFold(n, m)
    ensures Header(AddHeader(p, n, v), m) == Header(p, m)
  {
    hide *;
    var q := AddHeader(p, n, v);
    var s := HeadersStart(p);
    AddedBehindTitle(p, n, v);
    AddedFound(p, n, v);
    var h := Find(q, n).value;
    HitMatches(q, n, h);
    MatchesOne(q, s, h.end, n, m);
    FindStep(q, m, s, h.end);
    LineLength(n, v);
    assert q[h.end + 1..] == p[s..];
    SameSuffix(p, q, s, h.end + 1, m);
    SameValue(p, q, m);
  }

  lemma LineLength(n: seq<byte>, v: seq<byte>)
    ensures |HeaderLine(n, v)| == |n| + |v| + 4
  {}

  // ----- the body ---------------------------------------------------------------------

  /** The header section, empty line included, reaches at least to the LF of the matching line. */
  predicate InHeaderSection(p: seq<byte>, n: seq<byte>) {
    match Find(p, n)
    case None => true
    case Some(h) => h.end < HeadersEnd(p)
  }

  /** Frame: setting a header of the header section leaves the body as it was. */
  lemma SetKeepsBody(p: seq<byte>, n: seq<byte>, v: seq<byte>)
    requires HasTitle(p) && CleanName(n) && LF !in v
    requires Readable(p, n) && InHeaderSection(p, n) && HeadersEnd(p) != -1
    ensures Body(SetHeader(p, n, v)) == Body(p)
  {
    hide *;
    match Find(p, n)
    case None =>
      SetIsAdd(p, n, v);
      AddedBehindTitle(p, n, v);
      InsertKeepsBody(p, n, v);
    case Some(h) =>
      ReadableHit(p, n, h);
      HeaderText(p, n);
      HitText(p, h);
      SetIsReplace(p, n, v, h);
      FindColon(p, n, h);
      ReplaceSplits(p, ValueStart(p, h), ValueEnd(p, h), v);
      SectionHit(p, n, h);
      SpanInside(p, h);
      LineNoLf(p, n, h);
      ReplaceKeepsBody(p, ValueStart(p, h), ValueEnd(p, h), v, h);
  }

  lemma SectionHit(p: seq<byte>, n: seq<byte>, h: Hit)
    requires InHeaderSection(p, n) && Find(p, n) == Some(h)
    ensures h.end < HeadersEnd(p)
  {
    hide Find, HeadersEnd;
  }

  lemma SpanInside(p: seq<byte>, h: Hit)
    requires h.colon + 1 < h.end <= |p|
    ensures h.colon < ValueStart(p, h) <= ValueEnd(p, h) < h.end
  {
    hide TrimFront, TrimBack;
  }

  lemma LineNoLf(p: seq<byte>, n: seq<byte>, h: Hit)
    requires Find(p, n) == Some(h)
    ensures h.start <= h.end < |p| && forall i :: h.start <= i < h.end ==> p[i] != LF
  {
    hide ScanStart, FindLine, Matches, Next;
  }

  /** A window across the rewritten value would need an LF on both sides, closer than the line is long. */
  lemma ReplaceKeepsBody(p: seq<byte>, from: nat, to: nat, v: seq<byte>, h: Hit)
    requires h.colon < from <= to < h.end < |p| && h.end < HeadersEnd(p)
    requires h.start <= h.colon && p[h.colon] == COLON
    requires forall i :: h.start <= i < h.end ==> p[i] != LF
    requires LF !in v
    ensures Body(p[..from] + v + p[to..]) == Body(p)
  {
    hide Index;
    var q := p[..from] + v + p[to..];
    var e := Index(p, EMPTY_LINE);
    var d := |v| - (to - from);
    assert to <= e by {
      assert p[e..e + 4] == EMPTY_LINE;
      assert p[e + 1] == LF && p[e + 3] == LF && p[e + 2] == CR;
    }
    assert q[e + d..e + d + 4] == p[e..e + 4];
    forall j | j < e + d
      ensures !At(q, EMPTY_LINE, j)
    {
      NotAtEdited(p, from, to, v, h, j);
    }
    IndexIs(q, EMPTY_LINE, e + d);
    assert q[e + d + 4..] == p[e + 4..];
  }

  /** An empty line of the edited text stood in the old text, on the same side of the edit. */
  lemma NotAtEdited(p: seq<byte>, from: nat, to: nat, v: seq<byte>, h: Hit, j: int)
    requires h.start <= h.colon < from <= to < h.end < |p| && p[h.colon] == COLON && LF !in v
    requires forall i :: h.start <= i < h.end ==> p[i] != LF
    requires !At(p, EMPTY_LINE, j) || j + 4 > from
    requires !At(p, EMPTY_LINE, j - |v| + (to - from)) || j < from + |v|
    ensures !At(p[..from] + v + p[to..], EMPTY_LINE, j)
  {
    hide At;
    var q := p[..from] + v + p[to..];
    EmptyLineChars(q, j);
    EmptyLineChars(p, j);
    EmptyLineChars(p, j - |v| + (to - from));
    EditedBytes(p, from, to, v);
    LineStillOne(p, from, to, v, h);
  }

  lemma EditedBytes(p: seq<byte>, from: nat, to: nat, v: seq<byte>)
    requires from <= to <= |p|
    ensures var q := p[..from] + v + p[to..];
            && |q| == |p| + |v| - (to - from)
            && (forall i :: 0 <= i < |v| ==> q[from + i] == v[i])
            && (forall i :: 0 <= i < from ==> q[i] == p[i])
            && (forall i :: from + |v| <= i < |q| ==> q[i] == p[i - |v| + (to - from)])
  {}

  lemma LineStillOne(p: seq<byte>, from: nat, to: nat, v: seq<byte>, h: Hit)
    requires h.start <= h.colon < from <= to < h.end < |p| && p[h.colon] == COLON && LF !in v
    requires forall i :: h.start <= i < h.end ==> p[i] != LF
    ensures var q := p[..from] + v + p[to..];
            && q[h.colon] == COLON
            && forall i :: h.start <= i < h.end + |v| - (to - from) ==> q[i] != LF
  {
    var q := p[..from] + v + p[to..];
    EditedBytes(p, from, to, v);
    forall i | h.start <= i < h.end + |v| - (to - from)
      ensures q[i] != LF
    {
      if from <= i < from + |v| {
        assert q[from + (i - from)] == v[i - from];
      }
    }
  }

  lemma InsertKeepsBody(p: seq<byte>, n: seq<byte>, v: seq<byte>)
    requires HasTitle(p) && HeadersEnd(p) != -1
    requires CleanName(n) && LF !in v
    requires 2 <= HeadersStart(p) <= |p|
    requires var s := HeadersStart(p); AddHeader(p, n, v) == p[..s] + HeaderLine(n, v) + p[s..]
    ensures Body(AddHeader(p, n, v)) == Body(p)
  {
    hide Index, HasTitle, AddHeader;
    var s := HeadersStart(p);
    var line := HeaderLine(n, v);
    var q := p[..s] + line + p[s..];
    var e := Index(p, EMPTY_LINE);
    assert p[s - 2..s] == CRLF;
    assert p[e..e + 4] == EMPTY_LINE;
    EmptyLineBehindTitle(p);
    ShiftedEmptyLine(p, n, v, e);
    forall j | j < e + |line|
      ensures !At(q, EMPTY_LINE, j)
    {
      NotAtInserted(p, n, v, j);
    }
    IndexIs(q, EMPTY_LINE, e + |line|);
    assert q[e + |line| + 4..] == p[e + 4..];
  }

  lemma EmptyLineBehindTitle(p: seq<byte>)
    requires HeadersEnd(p) != -1
    ensures HeadersStart(p) - 2 <= Index(p, EMPTY_LINE) && HeadersStart(p) != -1
    ensures Index(p, EMPTY_LINE) != HeadersStart(p) - 1
  {
    hide At;
    var e := Index(p, EMPTY_LINE);
    EmptyLineChars(p, e);
    BreakChars(p, e);
    assert At(p, CRLF, e);
    BreakChars(p, Index(p, CRLF));
  }

  lemma ShiftedEmptyLine(p: seq<byte>, n: seq<byte>, v: seq<byte>, e: nat)
    requires 2 <= HeadersStart(p) <= |p| && At(p, EMPTY_LINE, e)
    requires e == HeadersStart(p) - 2 || e >= HeadersStart(p)
    ensures var s := HeadersStart(p);
            At(p[..s] + HeaderLine(n, v) + p[s..], EMPTY_LINE, e + |HeaderLine(n, v)|)
  {
    hide HeadersStart;
    var s := HeadersStart(p);
    var line := HeaderLine(n, v);
    var q := p[..s] + line + p[s..];
    var x := e + |line|;
    assert p[e..e + 4] == EMPTY_LINE;
    assert line[|line| - 2] == CR && line[|line| - 1] == LF;
    assert q[x..x + 4] == [q[x], q[x + 1], q[x + 2], q[x + 3]];
    assert p[e] == CR && p[e + 1] == LF && p[e + 2] == CR && p[e + 3] == LF;
  }

  lemma NotAtInserted(p: seq<byte>, n: seq<byte>, v: seq<byte>, j: int)
    requires 2 <= HeadersStart(p) <= |p|
    requires CleanName(n) && LF !in v
    requires HeadersStart(p) - 2 <= Index(p, EMPTY_LINE) && j < Index(p, EMPTY_LINE) + |HeaderLine(n, v)|
    ensures var s := HeadersStart(p);
            !At(p[..s] + HeaderLine(n, v) + p[s..], EMPTY_LINE, j)
  {
    hide Index, HeaderLine, At;
    var s := HeadersStart(p);
    LineHasNoBreak(n, v);
    BreakChars(p, s - 2);
    assert p == p[..s] + p[s..];
    EmptyLineInserted(p[..s], HeaderLine(n, v), p[s..], j);
  }

  /** Behind an inserted line an empty line stood in the old text already. */
  lemma EmptyLineInserted(a: seq<byte>, line: seq<byte>, z: seq<byte>, j: int)
    requires |a| >= 2 && a[|a| - 2] == CR && a[|a| - 1] == LF
    requires |line| >= 4 && line[|line| - 2] == CR && line[|line| - 1] == LF
    requires forall i :: 0 <= i < |line| - 1 ==> line[i] != LF
    ensures At(a + line + z, EMPTY_LINE, j) ==>
              (j + 4 <= |a| && At(a + z, EMPTY_LINE, j)) || At(a + z, EMPTY_LINE, j - |line|)
  {
    hide At;
    var q, p := a + line + z, a + z;
    EmptyLineChars(q, j);
    EmptyLineChars(p, j);
    EmptyLineChars(p, j - |line|);
    assert forall i :: 0 <= i < |line| ==> q[|a| + i] == line[i];
    assert forall i :: 0 <= i < |a| ==> q[i] == a[i] == p[i];
    assert forall i :: |a| + |line| <= i < |q| ==> q[i] == z[i - |a| - |line|];
    assert forall i :: |a| <= i < |p| ==> p[i] == z[i - |a|];
  }

  lemma LineHasNoBreak(n: seq<byte>, v: seq<byte>)
    requires CleanName(n) && LF !in v
    ensures var line := HeaderLine(n, v);
            |line| >= 4 && line[|line| - 2] == CR && line[|line| - 1] == LF
            && forall i :: 0 <= i < |line| - 1 ==> line[i] != LF
  {
    var line := HeaderLine(n, v);
    forall i | 0 <= i < |line| - 2
      ensures line[i] != LF
    {
      if i < |n| {
        assert line[i] == n[i];
      } else if |n| + 2 <= i {
        assert line[i] == v[i - |n| - 2];
      }
    }
  }

  // ----- taking a header out ------------------------------------------------------------

  lemma DeleteIs(p: seq<byte>, n: seq<byte>, h: Hit)
    requires Find(p, n) == Some(h)
    ensures h.start <= h.end < |p| && DeleteHeader(p, n) == p[..h.start] + p[h.end + 1..]
  {
    hide *;
    FindBounds(p, n);
    DeleteCuts(p, n, h);
    CutIs(p, h.start, h.end + 1);
  }

  lemma DeleteCuts(p: seq<byte>, n: seq<byte>, h: Hit)
    requires Find(p, n) == Some(h) && h.start <= h.end < |p|
    ensures DeleteHeader(p, n) == Cut(p, h.start, h.end + 1)
  {
    hide Find, Cut;
  }

  lemma CutIs(p: seq<byte>, from: nat, to: nat)
    requires from <= to <= |p|
    ensures Cut(p, from, to) == p[..from] + p[to..]
  {}

  lemma FindLineOf(p: seq<byte>, n: seq<byte>)
    ensures Find(p, n) == FindLine(p, n, ScanStart(p))
  {
    hide FindLine, ScanStart;
  }

  /** Frame: deleting a header leaves the value of every header of another name as it was. */
  lemma DeleteKeepsOthers(p: seq<byte>, n: seq<byte>, m: seq<byte>)
    requires HasTitle(p) && !EqualFold(n, m)
    ensures Header(DeleteHeader(p, n), m) == Header(p, m)
  {
    hide *;
    if Find(p, n) == None {
      DeleteNothing(p, n);
    } else {
      var h := Find(p, n).value;
      var q := DeleteHeader(p, n);
      DeleteIs(p, n, h);
      FindBounds(p, n);
      FindLineOf(p, n);
      ScanAfterTitle(p);
      HitMatches(p, n, h);
      MatchesOne(p, h.start, h.end, n, m);
      FindDeleted(p, q, n, m, ScanStart(p), h);
      TitleKeptOrGone(p, q, m, h.start);
      SameValueFrom(p, q, m);
    }
  }

  lemma SameValueFrom(p: seq<byte>, q: seq<byte>, m: seq<byte>)
    requires SameHit(p, q, FindLine(p, m, ScanStart(p)), Find(q, m))
    ensures Header(q, m) == Header(p, m)
  {
    hide ScanStart, FindLine, LineText, LineValue;
  }

  /** With its title line unchanged a payload is scanned from the same place, or it is too short for a
      title and nothing is found from either. */
  lemma TitleKeptOrGone(p: seq<byte>, q: seq<byte>, m: seq<byte>, from: nat)
    requires HasTitle(p) && ScanStart(p) <= from <= |p| && from <= |q| && p[..from] == q[..from]
    ensures Find(q, m) == FindLine(q, m, ScanStart(p))
  {
    hide *;
    ScanAfterTitle(p);
    var s := HeadersStart(p);
    assert p[..s] == p[..from][..s] == q[..from][..s] == q[..s];
    FindIs(q, m);
    if |q| >= MIN_REQUEST_COUNT {
      TitleKept(p, q, from);
    } else {
      TitleCases(p);
      if HasResponseTitle(p) {
        ResponseLocal(p, q);
        TitleCases(q);
        ScanAfterTitle(q);
      } else {
        ShortScan(p, q, m);
      }
    }
  }

  lemma FindIs(q: seq<byte>, m: seq<byte>)
    ensures Find(q, m) == FindLine(q, m, ScanStart(q))
    ensures !HasTitle(q) ==> ScanStart(q) == 0
  {
    hide HasTitle, FindLine;
  }

  lemma TitleCases(p: seq<byte>)
    ensures HasTitle(p) <==> HasRequestTitle(p) || HasResponseTitle(p)
  {
    hide HasRequestTitle, HasResponseTitle;
  }

  lemma ShortScan(p: seq<byte>, q: seq<byte>, m: seq<byte>)
    requires HasRequestTitle(p) && 2 <= HeadersStart(p) <= |p| && HeadersStart(p) <= |q| < MIN_REQUEST_COUNT
    requires p[..HeadersStart(p)] == q[..HeadersStart(p)]
    ensures Find(q, m) == FindLine(q, m, HeadersStart(p))
  {
    hide *;
    var s := HeadersStart(p);
    FindIs(q, m);
    FirstLineEnd(p, q);
    if HasTitle(q) {
      ScanAfterTitle(q);
    } else {
      ShortLine(p);
      assert forall i :: 0 <= i < s ==> q[i] == q[..s][i] == p[..s][i] == p[i];
      SkipNoColon(q, m, 0, s);
    }
  }

  lemma ShortLine(p: seq<byte>)
    requires HasRequestTitle(p) && 2 <= HeadersStart(p) < MIN_REQUEST_COUNT
    ensures HeadersStart(p) <= |p| && p[HeadersStart(p) - 1] == LF
    ensures forall i :: 0 <= i < HeadersStart(p) ==> p[i] != COLON
  {
    hide RequestLine, At;
    var k := Index(p, CRLF);
    BreakChars(p, k);
    forall i | 0 <= i < k
      ensures p[i] != COLON
    {
      ShortLineNoColon(p[..k], i);
    }
  }

  /** Lines without a colon are passed over. */
  lemma {:induction false} SkipNoColon(q: seq<byte>, m: seq<byte>, from: nat, to: nat)
    requires from <= to <= |q| && (from < to ==> q[to - 1] == LF)
    requires forall i :: from <= i < to ==> q[i] != COLON
    ensures FindLine(q, m, from) == FindLine(q, m, to)
    decreases |q| - from
  {
    hide Matches, FindLine, Next;
    if from < to {
      var end := Next(q, LF, from, |q|);
      assert q[to - 1] == LF;
      assert from <= end < to;
      FindStep(q, m, from, end);
      NoColonNoMatch(q, m, from, end);
      SkipNoColon(q, m, end + 1, to);
    }
  }

  lemma NoColonNoMatch(q: seq<byte>, m: seq<byte>, from: nat, end: nat)
    requires from <= end <= |q| && forall i :: from <= i < end ==> q[i] != COLON
    ensures !Matches(q, from, end, m)
  {
    hide Next;
  }

  lemma DeleteNothing(p: seq<byte>, n: seq<byte>)
    requires Find(p, n) == None
    ensures DeleteHeader(p, n) == p
  {
    hide Find;
  }

  lemma TitleKept(p: seq<byte>, q: seq<byte>, from: nat)
    requires HasTitle(p) && ScanStart(p) <= from <= |p| && from <= |q| && p[..from] == q[..from]
    requires |q| >= MIN_REQUEST_COUNT
    ensures HasTitle(q) && ScanStart(q) == ScanStart(p)
  {
    hide HasTitle, HeadersStart;
    TitleLength(p);
    assert p[..HeadersStart(p)] == p[..from][..HeadersStart(p)];
    TitleLocal(p, q);
  }

  /** The line found stands between two CRLFs. */
  predicate CrlfLine(p: seq<byte>, n: seq<byte>) {
    match Find(p, n)
    case None => true
    case Some(h) =>
      2 <= h.start <= h.end <= |p| && p[h.start - 2] == CR && p[h.start - 1] == LF && p[h.end - 1] == CR
  }

  /** Frame: deleting a CRLF line of the header section leaves the body as it was. */
  lemma DeleteKeepsBody(p: seq<byte>, n: seq<byte>)
    requires InHeaderSection(p, n) && CrlfLine(p, n) && HeadersEnd(p) != -1
    ensures Body(DeleteHeader(p, n)) == Body(p)
  {
    hide *;
    if Find(p, n) == None {
      DeleteNothing(p, n);
    } else {
      var h := Find(p, n).value;
      DeleteIs(p, n, h);
      SectionHit(p, n, h);
      FindColon(p, n, h);
      LineNoLf(p, n, h);
      CrlfHit(p, n, h);
      LineTakenOut(p, h);
    }
  }

  lemma CrlfHit(p: seq<byte>, n: seq<byte>, h: Hit)
    requires CrlfLine(p, n) && Find(p, n) == Some(h)
    ensures 2 <= h.start <= h.end <= |p| && p[h.start - 2] == CR && p[h.start - 1] == LF && p[h.end - 1] == CR
  {
    hide Find;
  }

  lemma LineTakenOut(p: seq<byte>, h: Hit)
    requires 2 <= h.start <= h.colon < h.end < |p| && p[h.colon] == COLON && p[h.end] == LF
    requires p[h.start - 2] == CR && p[h.start - 1] == LF && p[h.end - 1] == CR
    requires forall i :: h.start <= i < h.end ==> p[i] != LF
    requires h.end < HeadersEnd(p)
    ensures Body(p[..h.start] + p[h.end + 1..]) == Body(p)
  {
    hide Index, At;
    var q, d := p[..h.start] + p[h.end + 1..], h.end + 1 - h.start;
    var e := Index(p, EMPTY_LINE);
    EmptyLineChars(p, e);
    assert e >= h.end - 1;
    forall i | h.start - 2 <= i < |q|
      ensures q[i] == p[i + d]
    {}
    EmptyLineChars(q, e - d);
    forall j | j < e - d
      ensures !At(q, EMPTY_LINE, j)
    {
      EmptyLineChars(q, j);
      EmptyLineChars(p, j);
      EmptyLineChars(p, j + d);
      assert !At(p, EMPTY_LINE, j + d);
      assert j < h.start - 2 ==> !At(p, EMPTY_LINE, j);
    }
    IndexIs(q, EMPTY_LINE, e - d);
    assert q[e - d + 4..] == p[e + 4..];
  }

  /** A header that is there is deleted alike when more text follows. */
  lemma DeleteLonger(p: seq<byte>, z: seq<byte>, n: seq<byte>, h: Hit)
    requires HasTitle(p) && Find(p, n) == Some(h)
    ensures h.start <= h.end < |p| && DeleteHeader(p + z, n) == p[..h.start] + p[h.end + 1..] + z
  {
    hide *;
    var q := p + z;
    FindBounds(p, n);
    ScanAfterTitle(p);
    LongTitled(p, n, h);
    assert q[..|p|] == p;
    TitleKept(p, q, |p|);
    FindLineOf(p, n);
    FindLineOf(q, n);
    FindLonger(p, z, n, ScanStart(p), h);
    DeleteIs(q, n, h);
    assert q[..h.start] == p[..h.start] && q[h.end + 1..] == p[h.end + 1..] + z;
  }

  /** A title and a header line are long enough. */
  lemma LongTitled(p: seq<byte>, n: seq<byte>, h: Hit)
    requires HasTitle(p) && Find(p, n) == Some(h)
    ensures |p| >= MIN_REQUEST_COUNT
  {
    hide HasTitle, FindLine;
    TitleLength(p);
  }
}
