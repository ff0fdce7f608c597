/** proto.go: reading and setting one query parameter of a request path. */
module Query {
  import opened Bytes
  import opened ByteUtils

  const AMP: byte := 38
  const QUESTION: byte := 63
  const EQUALS: byte := 61

  lemma QueryBytes()
    ensures [AMP] == Ascii("&") && [QUESTION] == Ascii("?") && [EQUALS] == Ascii("=")
  {}

  /** What is searched for: `&name=`, or else `?name=`. */
  function Pattern(c: byte, n: seq<byte>): (r: seq<byte>)
    ensures |r| == |n| + 2
  {
    [c] + n + [EQUALS]
  }

  /** Where a value stands in the path. */
  datatype Span = Span(from: nat, to: nat)

  /** A value ends before the next `&` or with the path. */
  function ParamEnd(path: seq<byte>, from: nat): (r: nat)
    requires from <= |path|
    ensures from <= r <= |path|
  {
    var end := IndexByte(path[from..], AMP);
    if end == -1 then |path| else from + end
  }

  function ParamStart(path: seq<byte>, n: seq<byte>): (r: int)
    ensures r == -1 || 0 <= r <= |path| - |n| - 2
  {
    var k := Index(path, Pattern(AMP, n));
    if k != -1 then k else Index(path, Pattern(QUESTION, n))
  }

  /** `PathParam` on a path. */
  function FindParam(path: seq<byte>, n: seq<byte>): (r: Option<Span>)
    ensures r.Some? ==> |n| + 2 <= r.value.from <= r.value.to <= |path|
  {
    var k := ParamStart(path, n);
    if k == -1 then None else Some(Span(k + |n| + 2, ParamEnd(path, k + |n| + 2)))
  }

  /** The value `PathParam` returns. */
  function ParamValue(path: seq<byte>, n: seq<byte>): seq<byte> {
    match FindParam(path, n)
    case None => []
    case Some(s) => path[s.from..s.to]
  }

  /** The separator a new parameter is appended with. */
  function Separator(path: seq<byte>): byte {
    if QUESTION in path then AMP else QUESTION
  }

  /** `SetPathParam` on a path. */
  function SetParam(path: seq<byte>, n: seq<byte>, v: seq<byte>): seq<byte> {
    match FindParam(path, n)
    case Some(s) => Replace(path, s.from, s.to, v)
    case None => path + Pattern(Separator(path), n) + v
  }

  /** A parameter that is not there is appended, as the first one behind a question mark. */
  lemma AppendedAs(path: seq<byte>, n: seq<byte>, v: seq<byte>)
    requires FindParam(path, n) == None
    ensures SetParam(path, n, v)
         == path + Ascii(if Ascii("?")[0] in path then "&" else "?") + n + Ascii("=") + v
  {
    hide FindParam;
    QueryBytes();
    assert [Separator(path)] == Ascii(if Ascii("?")[0] in path then "&" else "?");
    assert path + Pattern(Separator(path), n) + v == path + [Separator(path)] + n + [EQUALS] + v;
  }

  // ----- occurrences of a pattern ------------------------------------------------------

  lemma OccursChars(q: seq<byte>, d: byte, m: seq<byte>, j: int)
    ensures At(q, Pattern(d, m), j) <==>
              0 <= j <= |q| - |m| - 2 && q[j] == d && q[j + 1..j + 1 + |m|] == m && q[j + 1 + |m|] == EQUALS
  {
    if 0 <= j <= |q| - |m| - 2 {
      var w := q[j..j + |m| + 2];
      assert w == [q[j]] + q[j + 1..j + 1 + |m|] + [q[j + 1 + |m|]];
      assert w[1..1 + |m|] == q[j + 1..j + 1 + |m|];
      assert Pattern(d, m)[1..1 + |m|] == m;
    }
  }

  lemma OccursPrefix(p: seq<byte>, q: seq<byte>, len: nat, d: byte, m: seq<byte>, j: int)
    requires len <= |p| && len <= |q| && p[..len] == q[..len] && j + |m| + 2 <= len
    ensures At(p, Pattern(d, m), j) <==> At(q, Pattern(d, m), j)
  {
    if j >= 0 {
      assert forall i :: j <= i < j + |m| + 2 && i < len ==> p[i] == p[..len][i] == q[..len][i] == q[i];
      assert p[j..j + |m| + 2] == q[j..j + |m| + 2];
    }
  }

  lemma OccursSuffix(p: seq<byte>, from: nat, q: seq<byte>, to: nat, d: byte, m: seq<byte>, j: int)
    requires from <= |p| && to <= |q| && p[from..] == q[to..] && j >= from
    ensures At(p, Pattern(d, m), j) <==> At(q, Pattern(d, m), j - from + to)
  {
    assert |p| - from == |q| - to;
    if j + |m| + 2 <= |p| {
      var i := j - from;
      TailSlice(p, from, j, j + |m| + 2);
      TailSlice(q, to, to + i, to + i + |m| + 2);
      assert p[j..j + |m| + 2] == p[from..][i..i + |m| + 2];
      assert q[to + i..to + i + |m| + 2] == q[to..][i..i + |m| + 2];
    }
  }

  /** A name or value without the bytes that give a query its structure. */
  predicate Unsplit(s: seq<byte>) {
    AMP !in s && QUESTION !in s
  }

  predicate Plain(s: seq<byte>) {
    Unsplit(s) && EQUALS !in s
  }

  predicate Sep(c: byte) {
    c == AMP || c == QUESTION
  }

  /** `a`, then the parameter `n` with value `v`, then `b`. */
  function Joined(a: seq<byte>, c: byte, n: seq<byte>, v: seq<byte>, b: seq<byte>): (r: seq<byte>)
    ensures |r| == |a| + |n| + 2 + |v| + |b|
  {
    a + Pattern(c, n) + v + b
  }

  lemma JoinedAt(a: seq<byte>, c: byte, n: seq<byte>, v: seq<byte>, b: seq<byte>, i: nat)
    requires i < |Joined(a, c, n, v, b)|
    ensures Joined(a, c, n, v, b)[i]
         == if i < |a| then a[i]
            else if i == |a| then c
            else if i <= |a| + |n| then n[i - |a| - 1]
            else if i == |a| + |n| + 1 then EQUALS
            else if i < |a| + |n| + 2 + |v| then v[i - |a| - |n| - 2]
            else b[i - |a| - |n| - 2 - |v|]
  {}

  lemma JoinedParts(a: seq<byte>, c: byte, n: seq<byte>, v: seq<byte>, b: seq<byte>)
    ensures var q := Joined(a, c, n, v, b);
            && q[..|a|] == a
            && q[..|a| + |n| + 2] == a + Pattern(c, n)
            && q[|a|..|a| + |n| + 2] == Pattern(c, n)
            && q[|a| + |n| + 2..|a| + |n| + 2 + |v|] == v
            && q[|a| + |n| + 2 + |v|..] == b
  {}

  /** A parameter cannot begin before a separator and end behind it. */
  lemma NoStraddle(q: seq<byte>, k: nat, d: byte, m: seq<byte>, j: int)
    requires k < |q| && Sep(q[k]) && Unsplit(m)
    requires j < k < j + |m| + 2
    ensures !At(q, Pattern(d, m), j)
  {
    hide At;
    OccursChars(q, d, m, j);
    if j >= 0 && j + |m| + 2 <= |q| {
      if k <= j + |m| {
        assert q[k] == q[j + 1..j + 1 + |m|][k - j - 1];
      }
    }
  }

  /** Other parameters stand wholly before or wholly behind a parameter. */
  lemma OccursWhere(a: seq<byte>, c: byte, n: seq<byte>, v: seq<byte>, b: seq<byte>, d: byte, m: seq<byte>, j: int)
    requires Sep(c) && Sep(d) && Unsplit(n) && Unsplit(m) && d !in v
    requires c == d ==> EQUALS !in n && EQUALS !in m && n != m
    requires At(Joined(a, c, n, v, b), Pattern(d, m), j)
    ensures 0 <= j && (j + |m| + 2 <= |a| || j >= |a| + |n| + 2 + |v|)
  {
    hide At, Joined;
    var q := Joined(a, c, n, v, b);
    OccursChars(q, d, m, j);
    JoinedAt(a, c, n, v, b, j);
    JoinedAt(a, c, n, v, b, |a|);
    if j < |a| < j + |m| + 2 {
      NoStraddle(q, |a|, d, m, j);
    }
    if j == |a| {
      SameParam(a, c, n, v, b, m);
    }
  }

  lemma SameParam(a: seq<byte>, c: byte, n: seq<byte>, v: seq<byte>, b: seq<byte>, m: seq<byte>)
    requires EQUALS !in n && EQUALS !in m
    requires At(Joined(a, c, n, v, b), Pattern(c, m), |a|)
    ensures n == m
  {
    hide At, Joined;
    var q := Joined(a, c, n, v, b);
    OccursChars(q, c, m, |a|);
    var w := q[|a| + 1..|a| + 1 + |m|];
    assert forall i :: 0 <= i < |m| ==> w[i] == q[|a| + 1 + i];
    forall i | 0 <= i < |n| && i < |m|
      ensures n[i] == m[i]
    {
      JoinedAt(a, c, n, v, b, |a| + 1 + i);
    }
    if |n| < |m| {
      JoinedAt(a, c, n, v, b, |a| + 1 + |n|);
    } else if |m| < |n| {
      JoinedAt(a, c, n, v, b, |a| + 1 + |m|);
    }
  }

  // ----- what a found parameter looks like ---------------------------------------------

  /** What follows a value. */
  predicate Rest(b: seq<byte>) {
    b == [] || b[0] == AMP
  }

  lemma ParamEndIs(q: seq<byte>, from: nat, to: nat)
    requires from <= to <= |q|
    requires forall i :: from <= i < to ==> q[i] != AMP
    requires to == |q| || q[to] == AMP
    ensures ParamEnd(q, from) == to
  {
    var t := q[from..];
    if to < |q| {
      assert t[to - from] == AMP;
      IndexByteIs(t, AMP, to - from);
    }
  }

  lemma ParamEndStops(q: seq<byte>, from: nat)
    requires from <= |q|
    ensures var to := ParamEnd(q, from);
            && (to == |q| || q[to] == AMP)
            && forall i :: from <= i < to ==> q[i] != AMP
  {
    var t := q[from..];
    var to := ParamEnd(q, from);
    forall i | from <= i < to
      ensures q[i] != AMP
    {
      assert q[i] == t[i - from];
      if IndexByte(t, AMP) != -1 {
        assert t[i - from] == t[..to - from][i - from];
      }
    }
  }

  /** The parameter is found at the first `&n=`, or else at the first `?n=`. */
  lemma FoundAt(q: seq<byte>, c: byte, n: seq<byte>, k: nat)
    requires Sep(c) && At(q, Pattern(c, n), k)
    requires forall j :: j < k ==> !At(q, Pattern(c, n), j)
    requires c == QUESTION ==> forall j :: !At(q, Pattern(AMP, n), j)
    ensures FindParam(q, n) == Some(Span(k + |n| + 2, ParamEnd(q, k + |n| + 2)))
  {
    hide At, ParamEnd, Index;
    IndexIs(q, Pattern(c, n), k);
    if c == QUESTION {
      IndexNone(q, Pattern(AMP, n));
    }
  }

  lemma IndexNone(q: seq<byte>, sub: seq<byte>)
    requires forall j :: !At(q, sub, j)
    ensures Index(q, sub) == -1
  {}

  /** A found parameter: its separator, and the first-occurrence facts. */
  lemma ParamShape(q: seq<byte>, n: seq<byte>) returns (c: byte, k: nat)
    requires FindParam(q, n).Some?
    ensures Sep(c) && k == FindParam(q, n).value.from - |n| - 2 && At(q, Pattern(c, n), k)
    ensures forall j :: j < k ==> !At(q, Pattern(c, n), j)
    ensures c == QUESTION ==> forall j :: !At(q, Pattern(AMP, n), j)
    ensures FindParam(q, n).value.to == ParamEnd(q, k + |n| + 2)
  {
    hide At, ParamEnd;
    k := ParamStart(q, n);
    c := if Index(q, Pattern(AMP, n)) != -1 then AMP else QUESTION;
  }

  lemma NotFound(q: seq<byte>, n: seq<byte>)
    ensures FindParam(q, n) == None <==>
              (forall j :: !At(q, Pattern(AMP, n), j)) && (forall j :: !At(q, Pattern(QUESTION, n), j))
  {
    hide At, ParamEnd;
  }

  /** A path cut at a parameter it has. */
  lemma ParamSplits(p: seq<byte>, n: seq<byte>, c: byte, k: nat)
    requires FindParam(p, n).Some? && At(p, Pattern(c, n), k) && k + |n| + 2 == FindParam(p, n).value.from
    requires FindParam(p, n).value.to == ParamEnd(p, k + |n| + 2)
    ensures var s := FindParam(p, n).value;
            && p == Joined(p[..k], c, n, p[s.from..s.to], p[s.to..])
            && AMP !in p[s.from..s.to] && Rest(p[s.to..])
            && forall v :: SetParam(p, n, v) == Joined(p[..k], c, n, v, p[s.to..])
  {
    hide FindParam, ParamEnd, Replace;
    var s := FindParam(p, n).value;
    ParamEndStops(p, s.from);
    assert p[k..k + |n| + 2] == Pattern(c, n);
    assert p == p[..k] + p[k..k + |n| + 2] + p[s.from..s.to] + p[s.to..];
    forall v
      ensures SetParam(p, n, v) == Joined(p[..k], c, n, v, p[s.to..])
    {
      ReplaceSplits(p, s.from, s.to, v);
      assert p[..s.from] == p[..k] + p[k..k + |n| + 2];
    }
  }

  /** Where the parameter stands that setting `n` writes: its separator, and the text around it. */
  datatype Edit = Edit(a: seq<byte>, c: byte, b: seq<byte>)

  function EditOf(p: seq<byte>, n: seq<byte>): Edit {
    match FindParam(p, n)
    case None => Edit(p, Separator(p), [])
    case Some(s) => Edit(p[..s.from - |n| - 2], p[s.from - |n| - 2], p[s.to..])
  }

  /** Setting `n` writes one parameter between the two unchanged texts of `EditOf`. */
  lemma SetIsJoined(p: seq<byte>, n: seq<byte>, v: seq<byte>)
    ensures var e := EditOf(p, n);
            && SetParam(p, n, v) == Joined(e.a, e.c, n, v, e.b)
            && Sep(e.c) && Rest(e.b)
            && e.a <= p && |e.b| <= |p| && p[|p| - |e.b|..] == e.b
  {
    hide At, ParamEnd, FindParam, Replace, Separator;
    assert Sep(Separator(p)) by { SeparatorIsSep(p); }
    if FindParam(p, n).Some? {
      var c, k := ParamShape(p, n);
      ParamSplits(p, n, c, k);
      OccursChars(p, c, n, k);
    } else {
      assert p + Pattern(Separator(p), n) + v == Joined(p, Separator(p), n, v, []);
    }
  }

  lemma SeparatorIsSep(p: seq<byte>)
    ensures Sep(Separator(p))
  {}

  // ----- get after set -----------------------------------------------------------------

  /** Before its own separator the edited path has no parameter `n`. */
  lemma NoneBefore(p: seq<byte>, n: seq<byte>, v: seq<byte>)
    requires Unsplit(n) && AMP !in v
    ensures var e := EditOf(p, n);
            var q := SetParam(p, n, v);
            && (forall j :: j < |e.a| ==> !At(q, Pattern(e.c, n), j))
            && (e.c == QUESTION ==> forall j :: !At(q, Pattern(AMP, n), j))
  {
    hide *;
    var e := EditOf(p, n);
    var q := SetParam(p, n, v);
    SetIsJoined(p, n, v);
    JoinedParts(e.a, e.c, n, v, e.b);
    JoinedAt(e.a, e.c, n, v, e.b, |e.a|);
    UnsplitBytes(n);
    forall j | j < |e.a|
      ensures !At(q, Pattern(e.c, n), j)
    {
      FirstHere(p, n, e.c, j);
      if j + |n| + 2 <= |e.a| {
        assert p[..|e.a|] == e.a;
        OccursPrefix(p, q, |e.a|, e.c, n, j);
      } else {
        NoStraddle(q, |e.a|, e.c, n, j);
      }
    }
    if e.c == QUESTION {
      forall j
        ensures !At(q, Pattern(AMP, n), j)
      {
        NoAmp(p, n, if j < |e.a| then j else j - |q| + |p|);
        if At(q, Pattern(AMP, n), j) {
          AmpIsSep();
          OccursWhere(e.a, e.c, n, v, e.b, AMP, n, j);
          InOld(p, n, v, AMP, n, j);
        }
      }
    }
  }

  lemma AmpIsSep()
    ensures Sep(AMP) && Sep(QUESTION) && AMP != QUESTION
  {}

  lemma UnsplitBytes(n: seq<byte>)
    requires Unsplit(n)
    ensures AMP !in n && QUESTION !in n
  {}

  /** The old path has no parameter `n` before the place that is edited. */
  lemma FirstHere(p: seq<byte>, n: seq<byte>, c: byte, j: int)
    requires c == EditOf(p, n).c && j < |EditOf(p, n).a|
    ensures j + |n| + 2 <= |EditOf(p, n).a| ==> !At(p, Pattern(c, n), j)
  {
    hide At, ParamEnd, FindParam, Separator;
    NotFound(p, n);
    assert Sep(Separator(p)) by { SeparatorIsSep(p); }
    if FindParam(p, n).Some? {
      var c', k := ParamShape(p, n);
      OccursChars(p, c', n, k);
    }
  }

  lemma NoAmp(p: seq<byte>, n: seq<byte>, j: int)
    requires EditOf(p, n).c == QUESTION
    ensures !At(p, Pattern(AMP, n), j)
  {
    hide At, ParamEnd, FindParam;
    NotFound(p, n);
    if FindParam(p, n).Some? {
      var c', k := ParamShape(p, n);
      OccursChars(p, c', n, k);
    }
  }

  /** A parameter of the edited path that stands clear of the edit stood in the old path. */
  lemma InOld(p: seq<byte>, n: seq<byte>, v: seq<byte>, d: byte, m: seq<byte>, j: int)
    requires var e := EditOf(p, n);
             0 <= j && (j + |m| + 2 <= |e.a| || j >= |e.a| + |n| + 2 + |v|)
    ensures var e := EditOf(p, n);
            var q := SetParam(p, n, v);
            At(q, Pattern(d, m), j) <==> At(p, Pattern(d, m), if j < |e.a| then j else j - |q| + |p|)
  {
    hide *;
    var e := EditOf(p, n);
    var q := SetParam(p, n, v);
    SetIsJoined(p, n, v);
    JoinedParts(e.a, e.c, n, v, e.b);
    if j < |e.a| {
      assert p[..|e.a|] == e.a;
      OccursPrefix(p, q, |e.a|, d, m, j);
    } else {
      OccursSuffix(q, |e.a| + |n| + 2 + |v|, p, |p| - |e.b|, d, m, j);
    }
  }

  /** The value just set is the value read back, whether it replaced one or was appended. */
  lemma SetThenGet(p: seq<byte>, n: seq<byte>, v: seq<byte>)
    requires Unsplit(n) && AMP !in v
    ensures var q := SetParam(p, n, v);
            var from := |EditOf(p, n).a| + |n| + 2;
            && FindParam(q, n) == Some(Span(from, from + |v|))
            && q[from..from + |v|] == v
  {
    hide *;
    var e := EditOf(p, n);
    var q := SetParam(p, n, v);
    var from := |e.a| + |n| + 2;
    SetIsJoined(p, n, v);
    NoneBefore(p, n, v);
    JoinedParts(e.a, e.c, n, v, e.b);
    AtSlice(q, Pattern(e.c, n), |e.a|);
    FoundAt(q, e.c, n, |e.a|);
    forall i | from <= i < from + |v|
      ensures q[i] != AMP
    {
      assert q[i] == q[from..from + |v|][i - from];
    }
    RestBytes(e.b);
    if e.b != [] {
      assert q[from + |v|] == q[from + |v|..][0];
    }
    ParamEndIs(q, from, from + |v|);
  }

  lemma AtSlice(q: seq<byte>, sub: seq<byte>, k: nat)
    requires k + |sub| <= |q| && q[k..k + |sub|] == sub
    ensures At(q, sub, k)
  {}

  lemma RestBytes(b: seq<byte>)
    requires Rest(b)
    ensures b == [] || b[0] == AMP
  {}
}
