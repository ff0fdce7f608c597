/** proto.go: `Path`, `SetPath` and `SetPathParam` on a whole payload. */
module Paths {
  import opened Bytes
  import opened ByteUtils
  import opened Decimal
  import opened Titles
  import opened Headers
  import HeaderScan
  import HeaderEdits
  import opened Query
  import opened QueryLaws

  /** Behind the first space. */
  function PathStart(p: seq<byte>): (r: nat)
    ensures r <= |p|
  {
    IndexByte(p, SPACE) + 1
  }

  /** The bytes up to the next space, or -1. */
  function PathLength(p: seq<byte>): (r: int)
    ensures r == -1 || 0 <= r < |p| - PathStart(p)
  {
    IndexByte(p[PathStart(p)..], SPACE)
  }

  /** `Path`; of a payload without a request title, nothing. */
  function Path(p: seq<byte>): seq<byte> {
    if !HasRequestTitle(p) || PathLength(p) == -1 then []
    else p[PathStart(p)..PathStart(p) + PathLength(p)]
  }

  /** `SetPath`. It also takes a response title for one to edit: the status code stands where a path
      would, and if nothing but CRLF follows it the byte before it is doubled instead. */
  function SetPath(p: seq<byte>, path: seq<byte>): seq<byte> {
    var start := PathStart(p);
    if !HasTitle(p) || start == 0 then []
    else if PathLength(p) == -1 then p[..start] + path + p[start - 1..]
    else Replace(p, start, start + PathLength(p), path)
  }

  function SetPathParam(p: seq<byte>, n: seq<byte>, v: seq<byte>): seq<byte> {
    SetPath(p, SetParam(Path(p), n, v))
  }

  // ----- the edits on slices ------------------------------------------------------------

  /** The overlapping copies of `Replace` when the range ends one byte before it begins. */
  lemma ShiftRightDoubles(w: seq<byte>, w1: seq<byte>, w2: seq<byte>, off: nat, len: nat, from: nat, b: seq<byte>)
    requires 1 <= from <= len && off + len + |b| + 1 <= |w|
    requires w1 == Over(w, off + from + |b|, Window(w, off + from - 1, len - from + 1))
    requires w2 == Over(w1, off + from, b)
    ensures var was := Window(w, off, len);
            Window(w2, off, len + |b| + 1) == was[..from] + b + was[from - 1..]
  {
    hide Over;
    var was := Window(w, off, len);
    var tail := Window(w, off + from - 1, len - from + 1);
    var now, target := Window(w2, off, len + |b| + 1), was[..from] + b + was[from - 1..];
    forall k | 0 <= k < len + |b| + 1
      ensures now[k] == target[k]
    {
      OverAt(w1, off + from, b, off + k);
      OverAt(w, off + from + |b|, tail, off + k);
    }
  }

  method DoubleGap(r: Slice, len: nat, from: nat, b: Slice)
    requires r.Valid() && b.Valid()
    requires 1 <= from <= len && r.len == len + b.len + 1
    modifies r.arr
    ensures Unmoved(r, from + b.len, b) ==>
              r.Contents() == var was := Window(old(r.arr[..]), r.off, len);
                              was[..from] + old(b.Contents()) + was[from - 1..]
  {
    hide Over, Window;
    ghost var w, text := r.arr[..], b.Contents();
    CopyWithin(r, from + b.len, from - 1, len - from + 1);
    ghost var w1 := r.arr[..];
    if Unmoved(r, from + b.len, b) && r.arr == b.arr {
      OverOutside(w, r.off + from + b.len, Window(w, r.off + from - 1, len - from + 1), b.off, b.len);
    }
    var dst := Slice(r.arr, r.off + from, b.len, b.len);
    var _ := Copy(dst, b);
    if Unmoved(r, from + b.len, b) {
      ShiftRightDoubles(w, w1, r.arr[..], r.off, len, from, text);
    }
  }

  method SetPathSlice(payload: Slice, path: Slice, spare: nat) returns (r: Slice)
    requires payload.Valid() && path.Valid()
    modifies payload.arr
    ensures r.Valid() && (r.arr == payload.arr || fresh(r.arr))
    ensures Apart(payload, path) ==> r.Contents() == SetPath(old(payload.Contents()), old(path.Contents()))
  {
    hide Apart, Spared, Unmoved, HasTitle, Replace, PathStart, PathLength;
    var bytes := HeaderEdits.ReadSlice(payload);
    ghost var text := path.Contents();
    var start := PathStart(bytes);
    var end := PathLength(bytes);
    if !HasTitle(bytes) || start == 0 {
      r := payload.Upto(0);
    } else if end == -1 {
      r := DoublePath(payload, start, path, spare);
    } else {
      r := ReplaceApart(payload, start, start + end, path, spare);
    }
  }

  /** The case without a second space: `Replace` with the end of the range one byte before its start. */
  method DoublePath(payload: Slice, start: nat, path: Slice, spare: nat) returns (r: Slice)
    requires payload.Valid() && path.Valid() && 1 <= start <= payload.len
    modifies payload.arr
    ensures r.Valid() && (r.arr == payload.arr || fresh(r.arr))
    ensures Apart(payload, path) ==>
              r.Contents() == var was := old(payload.Contents());
                              was[..start] + old(path.Contents()) + was[start - 1..]
  {
    hide Apart, Spared, Unmoved, Window;
    if Apart(payload, path) {
      ApartSpared(payload, start - 1, path.len + 1, path);
    }
    r := Widen(payload, start - 1, path.len + 1, path, spare);
    DoubleGap(r, payload.len, start, path);
  }

  /** The new path is built in a buffer of its own before the payload is edited. */
  method SetPathParamSlice(payload: Slice, name: seq<byte>, value: Slice, spare: nat) returns (r: Slice)
    requires payload.Valid() && value.Valid()
    modifies payload.arr
    ensures r.Valid() && (r.arr == payload.arr || fresh(r.arr))
    ensures r.Contents() == SetPathParam(old(payload.Contents()), name, old(value.Contents()))
  {
    hide HasRequestTitle, FindParam, Replace, SetPath, Path, Separator, Pattern;
    var bytes := HeaderEdits.ReadSlice(payload);
    var text := HeaderEdits.ReadSlice(value);
    var path := Path(bytes);
    match FindParam(path, name)
    case Some(s) =>
      var newPath := MakeSlice(path);
      newPath := ReplaceSlice(newPath, s.from, s.to, value, spare);
      r := SetPathSlice(payload, newPath, spare);
    case None =>
      var newPath := MakeSlice(path + Pattern(Separator(path), name) + text);
      r := SetPathSlice(payload, newPath, spare);
  }

  // ----- the parts of a request line ------------------------------------------------------

  /** A path as it can stand in a request line. */
  predicate CleanPath(x: seq<byte>) {
    SPACE !in x && Index(x, CRLF) == -1
  }

  lemma MethodBytes(m: seq<byte>)
    requires m in METHODS
    ensures |m| >= 3 && SPACE !in m && CR !in m
  {}

  lemma OneSpace(a: seq<byte>, b: seq<byte>)
    ensures multiset(a + [SPACE] + b)[SPACE] == multiset(a)[SPACE] + 1 + multiset(b)[SPACE]
  {}

  lemma NoSpace(a: seq<byte>)
    ensures multiset(a)[SPACE] == 0 <==> SPACE !in a
  {}

  lemma TwoSpaces(a: seq<byte>, b: seq<byte>, c: seq<byte>)
    requires multiset(a + [SPACE] + (b + [SPACE] + c))[SPACE] == 2
    ensures SPACE !in a && SPACE !in b && SPACE !in c
  {
    OneSpace(a, b + [SPACE] + c);
    OneSpace(b, c);
    NoSpace(a);
    NoSpace(b);
    NoSpace(c);
  }

  lemma LineSpaces(line: seq<byte>) returns (f: nat, g: nat)
    requires RequestLine(line)
    ensures f < |line| && g < |line| - f - 1
    ensures multiset(line)[SPACE] == 2 && line[..f] in METHODS && line[f] == SPACE
    ensures line[f + 1..][g] == SPACE && IsHttp1(line[f + 1 + g + 1..])
  {
    hide IsHttp1, METHODS;
    f := IndexByte(line, SPACE);
    g := IndexByte(line[f + 1..], SPACE);
  }

  /** Two single spaces split a request line into method, path and version. */
  lemma LineParts(line: seq<byte>) returns (f: nat, e: nat)
    requires RequestLine(line)
    ensures f < e < |line| && line[f] == SPACE && line[e] == SPACE
    ensures line[..f] in METHODS && SPACE !in line[..f]
    ensures SPACE !in line[f + 1..e] && SPACE !in line[e + 1..] && IsHttp1(line[e + 1..])
  {
    hide *;
    var g;
    f, g := LineSpaces(line);
    e := f + 1 + g;
    var rest := line[f + 1..];
    assert rest[g + 1..] == line[e + 1..];
    assert rest[..g] == line[f + 1..e];
    CutAt(line, f);
    CutAt(rest, g);
    TwoSpaces(line[..f], rest[..g], rest[g + 1..]);
  }

  lemma CutAt(s: seq<byte>, k: nat)
    requires k < |s| && s[k] == SPACE
    ensures s == s[..k] + [SPACE] + s[k + 1..]
  {}

  lemma PartsLine(m: seq<byte>, x: seq<byte>, ver: seq<byte>)
    requires m in METHODS && SPACE !in x && SPACE !in ver && IsHttp1(ver)
    ensures RequestLine(m + [SPACE] + x + [SPACE] + ver)
  {
    hide IsHttp1, METHODS;
    var line := m + [SPACE] + x + [SPACE] + ver;
    var rest := x + [SPACE] + ver;
    assert line == m + [SPACE] + rest;
    LineCounts(m, x, ver);
    FirstSpace(m, rest);
    FirstSpace(x, ver);
    assert line[|m| + 1 + |x| + 1..] == rest[|x| + 1..];
  }

  lemma LineCounts(m: seq<byte>, x: seq<byte>, ver: seq<byte>)
    requires m in METHODS && SPACE !in x && SPACE !in ver
    ensures SPACE !in m && multiset(m + [SPACE] + (x + [SPACE] + ver))[SPACE] == 2
  {
    MethodBytes(m);
    NoSpace(m);
    NoSpace(x);
    NoSpace(ver);
    OneSpace(m, x + [SPACE] + ver);
    OneSpace(x, ver);
  }

  lemma FirstSpace(a: seq<byte>, b: seq<byte>)
    requires SPACE !in a
    ensures var s := a + [SPACE] + b;
            IndexByte(s, SPACE) == |a| && s[..|a|] == a && s[|a| + 1..] == b
  {
    hide IndexByte;
    var s := a + [SPACE] + b;
    assert s[..|a|] == a;
    IndexByteIs(s, SPACE, |a|);
  }

  /** Where a path ends. */
  function PathEnd(p: seq<byte>): int {
    PathStart(p) + PathLength(p)
  }

  /** A request, cut around its path. */
  lemma RequestParts(p: seq<byte>)
    requires HasRequestTitle(p)
    ensures var f := PathStart(p) - 1;
            var e := PathEnd(p);
            var k := Index(p, CRLF);
            && PathLength(p) >= 0 && 0 <= f < e < k <= |p| - 2
            && p[..f] in METHODS && Method(p) == p[..f]
            && p[f] == SPACE && p[e] == SPACE
            && Path(p) == p[f + 1..e] && SPACE !in p[f + 1..e]
            && SPACE !in p[e + 1..k] && IsHttp1(p[e + 1..k])
  {
    hide *;
    var k, line := TitleLine(p);
    var f, e := LineParts(line);
    PrefixSlices(p, k, f, e);
    assert SPACE !in p[..f];
    IndexByteIs(p, SPACE, f);
    var rest := p[f + 1..];
    assert rest[..e - f - 1] == p[f + 1..e];
    IndexByteIs(rest, SPACE, e - f - 1);
    PathAt(p, f, e);
  }

  lemma TitleLine(p: seq<byte>) returns (k: nat, line: seq<byte>)
    requires HasRequestTitle(p)
    ensures k == Index(p, CRLF) <= |p| - 2 && line == p[..k] && RequestLine(line)
  {
    hide RequestLine, Index;
    k := Index(p, CRLF);
    line := p[..k];
  }

  lemma PrefixSlices(p: seq<byte>, k: nat, f: nat, e: nat)
    requires f < e < k <= |p|
    ensures var line := p[..k];
            && line[..f] == p[..f] && line[f + 1..e] == p[f + 1..e] && line[e + 1..] == p[e + 1..k]
            && line[f] == p[f] && line[e] == p[e]
  {}

  /** The first two spaces bound the method and the path. */
  lemma PathAt(p: seq<byte>, f: nat, e: nat)
    requires HasRequestTitle(p) && f < e < |p|
    requires IndexByte(p, SPACE) == f && IndexByte(p[f + 1..], SPACE) == e - f - 1
    ensures PathStart(p) == f + 1 && PathLength(p) == e - f - 1 && PathEnd(p) == e
    ensures Path(p) == p[f + 1..e] && Method(p) == p[..f]
  {
    hide HasRequestTitle, IndexByte, Index;
    assert p[PathStart(p)..] == p[f + 1..];
  }

  lemma PathIsClean(p: seq<byte>)
    ensures CleanPath(Path(p))
  {
    hide HasRequestTitle, PathLength, PathStart, Index, IsHttp1;
    if HasRequestTitle(p) {
      RequestParts(p);
      NoBreakInside(p, PathStart(p), PathEnd(p));
    } else {
      assert forall j :: !At(Path(p), CRLF, j);
    }
  }

  lemma NoBreakInside(p: seq<byte>, from: nat, to: nat)
    requires from <= to <= |p| && to <= Index(p, CRLF)
    ensures Index(p[from..to], CRLF) == -1
  {
    hide Index;
    var x := p[from..to];
    forall j
      ensures !At(x, CRLF, j)
    {
      BreakChars(x, j);
      BreakChars(p, from + j);
    }
  }

  /** A payload put together from the parts of a request line and what follows it. */
  function Request(m: seq<byte>, x: seq<byte>, ver: seq<byte>, z: seq<byte>): seq<byte> {
    m + [SPACE] + x + [SPACE] + ver + z
  }

  lemma NoBreakInLine(m: seq<byte>, x: seq<byte>, ver: seq<byte>, z: seq<byte>, j: int)
    requires m in METHODS && CleanPath(x) && IsHttp1(ver) && CRLF <= z && j < |m| + |x| + |ver| + 2
    ensures !At(Request(m, x, ver, z), CRLF, j)
  {
    hide IsHttp1, Index;
    MethodBytes(m);
    var q := Request(m, x, ver, z);
    if 0 <= j {
      if j > |m| + |x| + 1 {
        VersionChars(ver, j - |m| - |x| - 2);
      } else if |m| < j < |m| + |x| {
        BreakChars(x, j - |m| - 1);
      }
      BreakChars(q, j);
    }
  }

  lemma RequestIndex(m: seq<byte>, x: seq<byte>, ver: seq<byte>, z: seq<byte>)
    requires m in METHODS && CleanPath(x) && IsHttp1(ver) && CRLF <= z
    ensures Index(Request(m, x, ver, z), CRLF) == |m| + |x| + |ver| + 2
  {
    hide IsHttp1, Index, CleanPath;
    var q := Request(m, x, ver, z);
    var k := |m| + |x| + |ver| + 2;
    assert q[k..k + 2] == z[..2];
    forall j | j < k
      ensures !At(q, CRLF, j)
    {
      NoBreakInLine(m, x, ver, z, j);
    }
    IndexIs(q, CRLF, k);
  }

  lemma RequestTitled(m: seq<byte>, x: seq<byte>, ver: seq<byte>, z: seq<byte>)
    requires m in METHODS && CleanPath(x) && SPACE !in ver && IsHttp1(ver) && CRLF <= z
    requires x != []
    ensures HasRequestTitle(Request(m, x, ver, z))
  {
    hide IsHttp1, Index, RequestLine;
    var q := Request(m, x, ver, z);
    RequestIndex(m, x, ver, z);
    PartsLine(m, x, ver);
    MethodBytes(m);
    VersionLength(ver);
    assert q[..|m| + |x| + |ver| + 2] == m + [SPACE] + x + [SPACE] + ver;
  }

  lemma SetPathIsRequest(p: seq<byte>, x: seq<byte>)
    requires HasRequestTitle(p)
    ensures var k := Index(p, CRLF);
            && PathLength(p) >= 0 && 1 <= PathStart(p) && PathEnd(p) < k <= |p| - 2
            && SetPath(p, x) == Request(p[..PathStart(p) - 1], x, p[PathEnd(p) + 1..k], p[k..])
            && CRLF <= p[k..]
  {
    hide *;
    RequestParts(p);
    RequestIsTitle(p);
    var k := Index(p, CRLF);
    var f, e := PathStart(p) - 1, PathEnd(p);
    SetPathIs(p, x);
    ReplaceSplits(p, f + 1, e, x);
    BreakBehind(p);
    SplitsAtPath(p, f, e, k, x);
  }

  lemma SetPathIs(p: seq<byte>, x: seq<byte>)
    requires HasTitle(p) && PathStart(p) > 0 && PathLength(p) >= 0
    ensures PathEnd(p) == PathStart(p) + PathLength(p)
    ensures SetPath(p, x) == Replace(p, PathStart(p), PathEnd(p), x)
  {
    hide HasTitle, PathStart, PathLength, Replace;
  }

  lemma BreakBehind(p: seq<byte>)
    requires Index(p, CRLF) >= 0
    ensures Index(p, CRLF) <= |p| - 2 && CRLF <= p[Index(p, CRLF)..]
  {
    hide Index;
    var k := Index(p, CRLF);
    assert p[k..k + 2] == p[k..][..2];
  }

  lemma SplitsAtPath(p: seq<byte>, f: nat, e: nat, k: nat, x: seq<byte>)
    requires f < e < k <= |p| && p[f] == SPACE && p[e] == SPACE
    ensures p[..f + 1] + x + p[e..] == Request(p[..f], x, p[e + 1..k], p[k..])
  {
    assert p[..f + 1] == p[..f] + [SPACE];
    assert p[e..] == [SPACE] + p[e + 1..k] + p[k..];
  }

  // ----- laws -------------------------------------------------------------------------

  /** Setting a path that fits a request line keeps the request a request. */
  lemma SetPathTitled(p: seq<byte>, x: seq<byte>)
    requires HasRequestTitle(p) && CleanPath(x) && x != []
    ensures var q := SetPath(p, x);
            && HasRequestTitle(q) && Path(q) == x && Method(q) == Method(p)
            && PathEnd(q) == PathEnd(p) - |Path(p)| + |x|
            && Index(q, CRLF) == Index(p, CRLF) - |Path(p)| + |x|
            && 0 <= PathEnd(p) <= Index(p, CRLF) <= |p|
            && 0 <= PathEnd(q) <= |q|
            && q[PathEnd(q)..] == p[PathEnd(p)..]
  {
    hide HasRequestTitle, PathStart, PathLength, Index, IsHttp1, CleanPath, SetPath, Path, Method, METHODS, Request;
    var k := Index(p, CRLF);
    RequestParts(p);
    SetPathIsRequest(p, x);
    var m, ver, z := p[..PathStart(p) - 1], p[PathEnd(p) + 1..k], p[k..];
    var q := SetPath(p, x);
    CleanSpace(x);
    RequestTitled(m, x, ver, z);
    RequestIndex(m, x, ver, z);
    RequestParts(q);
    MethodBytes(m);
    MethodBytes(q[..PathStart(q) - 1]);
    RequestSpaces(m, x, ver, z, PathStart(q) - 1, PathEnd(q));
    RequestBehind(m, x, ver, z);
    SplitBehind(p, PathEnd(p), k);
  }

  lemma RequestBehind(m: seq<byte>, x: seq<byte>, ver: seq<byte>, z: seq<byte>)
    ensures var q := Request(m, x, ver, z);
            |q| == |m| + |x| + |ver| + |z| + 2 && q[|m| + 1 + |x|..] == [SPACE] + ver + z
  {}

  lemma SplitBehind(p: seq<byte>, e: nat, k: nat)
    requires e < k <= |p| && p[e] == SPACE
    ensures p[e..] == [SPACE] + p[e + 1..k] + p[k..]
  {}

  lemma CleanSpace(x: seq<byte>)
    requires CleanPath(x)
    ensures SPACE !in x
  {}

  /** The first two spaces of a request. */
  lemma RequestSpaces(m: seq<byte>, x: seq<byte>, ver: seq<byte>, z: seq<byte>, f: nat, e: nat)
    requires SPACE !in m && SPACE !in x
    requires var q := Request(m, x, ver, z);
             && f < e < |q| && q[f] == SPACE && q[e] == SPACE
             && SPACE !in q[0..f] && SPACE !in q[f + 1..e]
    ensures f == |m| && e == |m| + 1 + |x|
    ensures Request(m, x, ver, z)[..f] == m && Request(m, x, ver, z)[f + 1..e] == x
  {
    var q := Request(m, x, ver, z);
    NotBetween(q, 0, f);
    NotBetween(q, f + 1, e);
    assert q[|m|] == SPACE && q[|m| + 1 + |x|] == SPACE;
    assert forall i :: 0 <= i < |m| ==> q[i] == m[i];
    assert f == |m|;
    assert forall i :: |m| < i < |m| + 1 + |x| ==> q[i] == x[i - |m| - 1];
  }

  lemma NotBetween(q: seq<byte>, from: nat, to: nat)
    requires from <= to <= |q| && SPACE !in q[from..to]
    ensures forall i :: from <= i < to ==> q[i] != SPACE
  {
    var t := q[from..to];
    assert forall i :: from <= i < to ==> q[i] == t[i - from];
  }

  /** The path read back is the path just set, exactly when it fits a request line. */
  lemma SetPathThenGet(p: seq<byte>, x: seq<byte>)
    requires HasRequestTitle(p)
    ensures Path(SetPath(p, x)) == x <==> CleanPath(x)
  {
    hide HasRequestTitle, PathStart, PathLength, Index, CleanPath, SetPath;
    PathIsClean(SetPath(p, x));
    if CleanPath(x) {
      if x == [] {
        EmptyPath(p);
      } else {
        SetPathTitled(p, x);
      }
    }
  }

  lemma EmptyPath(p: seq<byte>)
    requires HasRequestTitle(p) && CleanPath([])
    ensures Path(SetPath(p, [])) == []
  {
    hide HasRequestTitle, PathStart, PathLength, Index, IsHttp1, CleanPath, SetPath, Path;
    var k := Index(p, CRLF);
    RequestParts(p);
    SetPathIsRequest(p, []);
    var m, ver, z := p[..PathStart(p) - 1], p[PathEnd(p) + 1..k], p[k..];
    var q := SetPath(p, []);
    MethodBytes(m);
    if HasRequestTitle(q) {
      RequestParts(q);
      MethodBytes(q[..PathStart(q) - 1]);
      RequestSpaces(m, [], ver, z, PathStart(q) - 1, PathEnd(q));
    } else {
      NoPath(q);
    }
  }

  lemma NoPath(q: seq<byte>)
    requires !HasRequestTitle(q)
    ensures Path(q) == []
  {
    hide HasRequestTitle, PathLength, PathStart;
  }

  /** The empty line is found behind the first CRLF, so edits of the first line only move it. */
  lemma BodyBehindLine(p: seq<byte>, q: seq<byte>)
    requires 0 <= Index(p, CRLF) && 0 <= Index(q, CRLF)
    requires p[Index(p, CRLF)..] == q[Index(q, CRLF)..]
    ensures Body(p) == Body(q)
  {
    hide Index;
    var k, k' := Index(p, CRLF), Index(q, CRLF);
    var d := k' - k;
    var e := Index(p, EMPTY_LINE);
    forall j
      ensures At(p, EMPTY_LINE, j) <==> At(q, EMPTY_LINE, j + d)
    {
      EmptyLineBehind(p, j);
      EmptyLineBehind(q, j + d);
      if k <= j <= |p| - 4 {
        TailSlice(p, k, j, j + 4);
        TailSlice(q, k', j + d, j + d + 4);
      }
    }
    if e != -1 {
      EmptyLineBehind(p, e);
      assert At(q, EMPTY_LINE, e + d);
      forall j | j < e + d
        ensures !At(q, EMPTY_LINE, j)
      {
        assert !At(p, EMPTY_LINE, j - d);
        assert At(p, EMPTY_LINE, j - d) <==> At(q, EMPTY_LINE, j - d + d);
      }
      IndexIs(q, EMPTY_LINE, e + d);
      assert p[e + 4..] == p[k..][e + 4 - k..];
      assert q[e + d + 4..] == q[k'..][e + 4 - k..];
    } else {
      forall j
        ensures !At(q, EMPTY_LINE, j)
      {
        assert !At(p, EMPTY_LINE, j - d);
        assert At(p, EMPTY_LINE, j - d) <==> At(q, EMPTY_LINE, j - d + d);
      }
    }
  }

  lemma EmptyLineBehind(p: seq<byte>, j: int)
    ensures At(p, EMPTY_LINE, j) && Index(p, CRLF) != -1 ==> j >= Index(p, CRLF)
  {
    hide Index;
    if At(p, EMPTY_LINE, j) {
      assert p[j..j + 2] == p[j..j + 4][..2];
      assert At(p, CRLF, j);
    }
  }

  lemma HeadersBehindLine(p: seq<byte>, q: seq<byte>, m: seq<byte>)
    requires HasTitle(p) && HasTitle(q)
    requires 0 <= Index(p, CRLF) && 0 <= Index(q, CRLF)
    requires p[Index(p, CRLF)..] == q[Index(q, CRLF)..]
    ensures Header(p, m) == Header(q, m)
  {
    hide Index, HasTitle, FindLine, LineText, LineValue;
    var i, j := Index(p, CRLF), Index(q, CRLF);
    assert p[i + 2..] == p[i..][2..] == q[j..][2..] == q[j + 2..];
    HeaderScan.SameSuffix(p, q, i + 2, j + 2, m);
  }

  /** A name or value that can be written into a request path. */
  predicate CleanText(s: seq<byte>) {
    SPACE !in s && CR !in s && LF !in s
  }

  lemma SetParamClean(p: seq<byte>, n: seq<byte>, v: seq<byte>)
    requires CleanPath(p) && CleanText(n) && CleanText(v)
    ensures CleanPath(SetParam(p, n, v)) && SetParam(p, n, v) != []
  {
    hide Index, SetParam, EditOf, Joined;
    var e := EditOf(p, n);
    var q := SetParam(p, n, v);
    SetIsJoined(p, n, v);
    SameOutside(p, n, v);
    var tail := p[|p| - |e.b|..];
    assert forall i :: 0 <= i < |e.b| ==> tail[i] == p[|p| - |e.b| + i];
    forall i | 0 <= i < |q|
      ensures q[i] != SPACE
    {
      JoinedAt(e.a, e.c, n, v, e.b, i);
    }
    forall j
      ensures !At(q, CRLF, j)
    {
      if 0 <= j <= |q| - 2 {
        JoinedAt(e.a, e.c, n, v, e.b, j);
        JoinedAt(e.a, e.c, n, v, e.b, j + 1);
        NoBreakPair(p, j);
        NoBreakPair(p, j - |q| + |p|);
      }
      BreakChars(q, j);
    }
  }

  lemma NoBreakPair(p: seq<byte>, j: int)
    requires Index(p, CRLF) == -1
    ensures 0 <= j <= |p| - 2 ==> !(p[j] == CR && p[j + 1] == LF)
  {
    hide Index;
    assert !At(p, CRLF, j);
    BreakChars(p, j);
  }

  /** Setting a query parameter of a request: it reads back, whether it was there or not, and the
      method, everything behind the path, every header and the body are unchanged. */
  lemma SetPathParamThenGet(p: seq<byte>, n: seq<byte>, v: seq<byte>)
    requires HasRequestTitle(p)
    requires CleanText(n) && Unsplit(n) && CleanText(v) && AMP !in v
    ensures var q := SetPathParam(p, n, v);
            && HasRequestTitle(q) && ParamValue(Path(q), n) == v && FindParam(Path(q), n).Some?
            && Path(q) == SetParam(Path(p), n, v)
            && Method(q) == Method(p)
            && 0 <= PathEnd(p) <= |p| && 0 <= PathEnd(q) <= |q| && q[PathEnd(q)..] == p[PathEnd(p)..]
            && Body(q) == Body(p)
            && forall m :: Header(q, m) == Header(p, m)
  {
    hide *;
    var x := SetParam(Path(p), n, v);
    var q := SetPathParam(p, n, v);
    IsSetPath(p, n, v);
    PathIsClean(p);
    SetParamClean(Path(p), n, v);
    SetPathTitled(p, x);
    SetThenGet(Path(p), n, v);
    ValueFound(x, n);
    SameBehindLine(p, q);
    BodyBehindLine(p, q);
    RequestIsTitle(p);
    RequestIsTitle(q);
    forall m
      ensures Header(q, m) == Header(p, m)
    {
      HeadersBehindLine(p, q, m);
    }
  }

  lemma IsSetPath(p: seq<byte>, n: seq<byte>, v: seq<byte>)
    ensures SetPathParam(p, n, v) == SetPath(p, SetParam(Path(p), n, v))
  {
    hide SetPath, SetParam, Path;
  }

  lemma ValueFound(x: seq<byte>, n: seq<byte>)
    requires FindParam(x, n).Some?
    ensures var s := FindParam(x, n).value;
            s.from <= s.to <= |x| && ParamValue(x, n) == x[s.from..s.to]
  {
    hide ParamEnd;
  }

  lemma RequestIsTitle(p: seq<byte>)
    requires HasRequestTitle(p)
    ensures HasTitle(p)
  {
    hide HasRequestTitle, HasResponseTitle;
  }

  lemma SameBehindLine(p: seq<byte>, q: seq<byte>)
    requires 0 <= PathEnd(p) <= Index(p, CRLF) <= |p| && 0 <= PathEnd(q) <= |q|
    requires q[PathEnd(q)..] == p[PathEnd(p)..]
    requires Index(q, CRLF) - PathEnd(q) == Index(p, CRLF) - PathEnd(p)
    ensures 0 <= Index(q, CRLF) <= |q| && q[Index(q, CRLF)..] == p[Index(p, CRLF)..]
  {
    hide Index, PathEnd;
    var o := Index(p, CRLF) - PathEnd(p);
    assert |q| - PathEnd(q) == |p| - PathEnd(p);
    assert q[PathEnd(q)..][o..] == q[Index(q, CRLF)..];
    assert p[PathEnd(p)..][o..] == p[Index(p, CRLF)..];
  }

  /** In a request with a well-formed query every other parameter keeps its value. */
  lemma SetPathParamKeepsOthers(p: seq<byte>, n: seq<byte>, v: seq<byte>, m: seq<byte>)
    requires HasRequestTitle(p) && WellFormed(Path(p))
    requires CleanText(n) && CleanText(v) && Unsplit(v) && Distinct(n, m)
    ensures ParamValue(Path(SetPathParam(p, n, v)), m) == ParamValue(Path(p), m)
  {
    hide *;
    UnsplitBytes(v);
    DistinctPlain(n, m);
    SetPathParamThenGet(p, n, v);
    WellFormedKept(Path(p), n, v, m);
  }

  lemma DistinctPlain(n: seq<byte>, m: seq<byte>)
    requires Distinct(n, m)
    ensures Unsplit(n)
  {}

  // ----- responses ------------------------------------------------------------------------------

  /** A status line with a reason: the path takes the place of the code. */
  lemma SetPathOfAnswer(ver: seq<byte>, n: nat, reason: seq<byte>, x: seq<byte>)
    requires IsHttp1(ver) && |ver| == VERSION_LEN && SPACE !in ver && n in STATUS_CODES
    requires Index(ver + [SPACE] + FormatNat(n) + ([SPACE] + reason), CRLF) >= 0 && |reason| >= 1
    ensures SetPath(ver + [SPACE] + FormatNat(n) + ([SPACE] + reason), x) == ver + [SPACE] + x + [SPACE] + reason
  {
    hide *;
    var p, code := ver + [SPACE] + FormatNat(n) + ([SPACE] + reason), FormatNat(n);
    AnswerParts(ver, code, reason, x);
    FirstSpace(ver, code + ([SPACE] + reason));
    CodeDigits(n);
    CodeNoSpace(n);
    FirstSpace(code, reason);
    ResponseTitled(ver, n, [SPACE] + reason);
    ResponseIsTitle(p);
    SetPathBy(p, x, |ver| + 1, |code|);
    ReplaceSplits(p, |ver| + 1, |ver| + 1 + |code|, x);
  }

  lemma AnswerParts(ver: seq<byte>, code: seq<byte>, reason: seq<byte>, x: seq<byte>)
    ensures var p := ver + [SPACE] + code + ([SPACE] + reason);
            && p == ver + [SPACE] + (code + ([SPACE] + reason))
            && p[|ver| + 1..] == code + [SPACE] + reason
            && p[..|ver| + 1] + x + p[|ver| + 1 + |code|..] == ver + [SPACE] + x + [SPACE] + reason
  {
    var p := ver + [SPACE] + code + ([SPACE] + reason);
    assert p == ver + [SPACE] + (code + ([SPACE] + reason));
    assert p[..|ver| + 1] == ver + [SPACE] && p[|ver| + 1 + |code|..] == [SPACE] + reason;
  }

  /** A status line without one, and no space behind it: the path is inserted before the code. */
  lemma SetPathOfBareAnswer(ver: seq<byte>, n: nat, rest: seq<byte>, x: seq<byte>)
    requires IsHttp1(ver) && |ver| == VERSION_LEN && SPACE !in ver && n in STATUS_CODES
    requires CRLF <= rest && SPACE !in rest && Index(ver + [SPACE] + FormatNat(n) + rest, CRLF) >= 0
    ensures SetPath(ver + [SPACE] + FormatNat(n) + rest, x) == ver + [SPACE] + x + [SPACE] + FormatNat(n) + rest
  {
    hide *;
    var p, code := ver + [SPACE] + FormatNat(n) + rest, FormatNat(n);
    FirstSpace(ver, code + rest);
    assert p == ver + [SPACE] + (code + rest);
    CodeDigits(n);
    CodeNoSpace(n);
    BreakStarts(rest);
    assert p[|ver| + 1..] == code + rest;
    NoSpaceThere(code, rest);
    ResponseTitled(ver, n, rest);
    ResponseIsTitle(p);
    SetPathBy(p, x, |ver| + 1, -1);
    assert p[..|ver| + 1] == ver + [SPACE] && p[|ver|..] == [SPACE] + code + rest;
  }

  lemma SetPathBy(p: seq<byte>, x: seq<byte>, start: nat, length: int)
    requires HasTitle(p) && start >= 1 && IndexByte(p, SPACE) == start - 1 && start <= |p|
    requires IndexByte(p[start..], SPACE) == length
    ensures length == -1 ==> SetPath(p, x) == p[..start] + x + p[start - 1..]
    ensures length >= 0 ==> start + length <= |p| && SetPath(p, x) == Replace(p, start, start + length, x)
  {
    hide HasTitle, IndexByte, Replace, Index;
    StartBy(p, start);
  }

  lemma StartBy(p: seq<byte>, start: nat)
    requires start >= 1 && IndexByte(p, SPACE) == start - 1
    ensures PathStart(p) == start <= |p| && PathLength(p) == IndexByte(p[start..], SPACE)
  {
    hide IndexByte;
  }

  lemma NoSpaceThere(a: seq<byte>, b: seq<byte>)
    requires SPACE !in a && SPACE !in b
    ensures IndexByte(a + b, SPACE) == -1
  {}

  lemma CodeNoSpace(n: nat)
    ensures SPACE !in FormatNat(n)
  {
    hide FormatNat;
    assert AllDigits(FormatNat(n));
  }

  lemma BreakStarts(rest: seq<byte>)
    requires CRLF <= rest
    ensures |rest| >= 2 && rest[0] == CR
  {}
}
