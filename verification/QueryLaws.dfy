/** When setting one query parameter leaves the others alone. */
module QueryLaws {
  import opened Bytes
  import opened ByteUtils
  import opened Query

  /** In `p` the parameter `m` stands clear of the place that setting `n` edits: its value ends
      before that place, or at an `&` written there, or it begins behind the value of `n`. */
  predicate Clear(p: seq<byte>, n: seq<byte>, m: seq<byte>) {
    var e := EditOf(p, n);
    match FindParam(p, m)
    case None => true
    case Some(s) =>
      || s.to < |e.a|
      || (s.to == |e.a| && e.c == AMP)
      || s.from - |m| - 2 >= |p| - |e.b|
  }

  /** Where `m` should be found after setting `n`: where it was, or moved along with the text
      behind the edit. */
  function Moved(p: seq<byte>, n: seq<byte>, v: seq<byte>, m: seq<byte>): Option<Span> {
    var d := |SetParam(p, n, v)| - |p|;
    match FindParam(p, m)
    case None => None
    case Some(s) =>
      if s.from - |m| - 2 >= |p| - |EditOf(p, n).b| && s.from + d >= 0 && s.to + d >= 0
      then Some(Span(s.from + d, s.to + d))
      else Some(s)
  }

  predicate Distinct(n: seq<byte>, m: seq<byte>) {
    Plain(n) && Plain(m) && n != m
  }

  // ----- no parameter appears or disappears ---------------------------------------------

  /** Each other parameter of the edited path stood in the old one. */
  lemma OldParam(p: seq<byte>, n: seq<byte>, v: seq<byte>, d: byte, m: seq<byte>, j: int)
    requires Distinct(n, m) && Sep(d) && d !in v
    requires At(SetParam(p, n, v), Pattern(d, m), j)
    ensures var e := EditOf(p, n);
            var q := SetParam(p, n, v);
            && 0 <= j && (j + |m| + 2 <= |e.a| || j >= |e.a| + |n| + 2 + |v|)
            && At(p, Pattern(d, m), if j < |e.a| then j else j - |q| + |p|)
  {
    hide At, SetParam, EditOf, Joined;
    var e := EditOf(p, n);
    SetIsJoined(p, n, v);
    OccursWhere(e.a, e.c, n, v, e.b, d, m, j);
    InOld(p, n, v, d, m, j);
  }

  lemma EditLengths(p: seq<byte>, n: seq<byte>, v: seq<byte>)
    ensures var e := EditOf(p, n);
            && |SetParam(p, n, v)| == |e.a| + |n| + 2 + |v| + |e.b|
            && |e.a| + |e.b| <= |p|
            && (|e.a| < |p| ==> |e.a| + |n| + 2 + |e.b| <= |p| && p[|e.a|] == e.c)
            && (|e.a| == |p| ==> e.b == [])
  {
    hide FindParam, SetParam, Joined;
    SetIsJoined(p, n, v);
  }

  lemma NewSide(p: seq<byte>, n: seq<byte>, v: seq<byte>, m: seq<byte>)
    requires FindParam(p, m).Some? && Clear(p, n, m)
    ensures var e := EditOf(p, n);
            var s := FindParam(p, m).value;
            var k := s.from - |m| - 2;
            var d := |SetParam(p, n, v)| - |p|;
            && (k < |p| - |e.b| ==> s.to <= |e.a| && Moved(p, n, v, m) == Some(s))
            && (k >= |p| - |e.b| ==>
                  && k + d >= |e.a| + |n| + 2 + |v|
                  && Moved(p, n, v, m) == Some(Span(s.from + d, s.to + d)))
  {
    hide FindParam, SetParam, EditOf;
    EditLengths(p, n, v);
  }

  /** A parameter that stands clear is found at its old place, or moved with the text. */
  lemma ClearKept(p: seq<byte>, n: seq<byte>, v: seq<byte>, m: seq<byte>)
    requires Distinct(n, m) && Unsplit(v) && Clear(p, n, m)
    ensures FindParam(SetParam(p, n, v), m) == Moved(p, n, v, m)
  {
    hide *;
    var q := SetParam(p, n, v);
    AmpIsSep();
    UnsplitBytes(v);
    if FindParam(p, m) == None {
      ClearNone(p, n, v, m);
    } else {
      var c, k := ParamShape(p, m);
      var e := EditOf(p, n);
      var d := |q| - |p|;
      EditLengths(p, n, v);
      NewSide(p, n, v, m);
      var k' := if k < |p| - |e.b| then k else k + d;
      NewParam(p, n, v, c, m, k, k');
      if c == QUESTION {
        NoAmpNew(p, n, v, m);
      }
      FoundAt(q, c, m, k');
      NewEnd(p, n, v, m);
    }
  }

  lemma ClearNone(p: seq<byte>, n: seq<byte>, v: seq<byte>, m: seq<byte>)
    requires Distinct(n, m) && Unsplit(v) && FindParam(p, m) == None
    ensures FindParam(SetParam(p, n, v), m) == None && Moved(p, n, v, m) == None
  {
    hide At, SetParam, EditOf, FindParam;
    var q := SetParam(p, n, v);
    NotFound(p, m);
    NotFound(q, m);
    forall d, j | d == AMP || d == QUESTION
      ensures !At(q, Pattern(d, m), j)
    {
      if At(q, Pattern(d, m), j) {
        OldParam(p, n, v, d, m, j);
      }
    }
  }

  /** At its new place the parameter occurs, for the first time. */
  lemma NewParam(p: seq<byte>, n: seq<byte>, v: seq<byte>, c: byte, m: seq<byte>, k: nat, k': int)
    requires Distinct(n, m) && Unsplit(v) && Sep(c) && At(p, Pattern(c, m), k)
    requires forall j :: j < k ==> !At(p, Pattern(c, m), j)
    requires var e := EditOf(p, n);
             || (k + |m| + 2 <= |e.a| && k' == k)
             || (k >= |p| - |e.b| && k' == k + |SetParam(p, n, v)| - |p|)
    ensures var q := SetParam(p, n, v);
            && 0 <= k' && At(q, Pattern(c, m), k')
            && forall j :: j < k' ==> !At(q, Pattern(c, m), j)
  {
    hide At, SetParam, EditOf, FindParam;
    var e := EditOf(p, n);
    var q := SetParam(p, n, v);
    EditLengths(p, n, v);
    InOld(p, n, v, c, m, k');
    forall j | j < k'
      ensures !At(q, Pattern(c, m), j)
    {
      if At(q, Pattern(c, m), j) {
        OldParam(p, n, v, c, m, j);
      }
    }
  }

  lemma NoAmpNew(p: seq<byte>, n: seq<byte>, v: seq<byte>, m: seq<byte>)
    requires Distinct(n, m) && Unsplit(v) && forall j :: !At(p, Pattern(AMP, m), j)
    ensures forall j :: !At(SetParam(p, n, v), Pattern(AMP, m), j)
  {
    hide At, SetParam, EditOf;
    forall j
      ensures !At(SetParam(p, n, v), Pattern(AMP, m), j)
    {
      if At(SetParam(p, n, v), Pattern(AMP, m), j) {
        OldParam(p, n, v, AMP, m, j);
      }
    }
  }

  /** The text around the edited parameter is unchanged. */
  lemma SameOutside(p: seq<byte>, n: seq<byte>, v: seq<byte>)
    ensures var e := EditOf(p, n);
            var q := SetParam(p, n, v);
            && |e.a| + |e.b| <= |p| && |q| >= |e.a| + |e.b| + 2
            && p[..|e.a|] == q[..|e.a|]
            && p[|p| - |e.b|..] == q[|q| - |e.b|..]
            && q[|e.a|] == e.c
  {
    hide FindParam, SetParam, EditOf, Joined;
    var e := EditOf(p, n);
    EditLengths(p, n, v);
    SetIsJoined(p, n, v);
    JoinedParts(e.a, e.c, n, v, e.b);
    JoinedAt(e.a, e.c, n, v, e.b, |e.a|);
  }

  /** A value that ends before `o`, or at an `&` standing there. */
  lemma PrefixEnd(p: seq<byte>, q: seq<byte>, o: nat, from: nat)
    requires from <= |p| && ParamEnd(p, from) <= o <= |p| && o <= |q| && p[..o] == q[..o]
    requires ParamEnd(p, from) == o ==> o < |q| && q[o] == AMP
    ensures from <= |q| && ParamEnd(q, from) == ParamEnd(p, from)
  {
    hide ParamEnd;
    ParamEndStops(p, from);
    assert forall i :: 0 <= i < o ==> p[i] == p[..o][i] == q[..o][i] == q[i];
    ParamEndIs(q, from, ParamEnd(p, from));
  }

  lemma SuffixEnd(p: seq<byte>, q: seq<byte>, b: nat, from: nat)
    requires b <= |p| && b <= |q| && p[|p| - b..] == q[|q| - b..] && |p| - b <= from <= |p|
    ensures ParamEnd(q, from + |q| - |p|) == ParamEnd(p, from) + |q| - |p|
  {
    assert p[from..] == p[|p| - b..][from - |p| + b..];
    assert q[from + |q| - |p|..] == q[|q| - b..][from - |p| + b..];
  }

  /** Its value ends at the same `&` as before, or at the `&` written behind it. */
  lemma NewEnd(p: seq<byte>, n: seq<byte>, v: seq<byte>, m: seq<byte>)
    requires FindParam(p, m).Some? && Clear(p, n, m)
    ensures var q := SetParam(p, n, v);
            var s := FindParam(p, m).value;
            var k := s.from - |m| - 2;
            var d := |q| - |p|;
            && (k < |p| - |EditOf(p, n).b| ==> s.from <= |q| && ParamEnd(q, s.from) == s.to)
            && (k >= |p| - |EditOf(p, n).b| ==> 0 <= s.from + d <= |q| && ParamEnd(q, s.from + d) == s.to + d)
  {
    hide FindParam, SetParam, EditOf, ParamEnd, Joined;
    var q := SetParam(p, n, v);
    var e := EditOf(p, n);
    var s := FindParam(p, m).value;
    var c, k := ParamShape(p, m);
    EditLengths(p, n, v);
    NewSide(p, n, v, m);
    SameOutside(p, n, v);
    if k < |p| - |e.b| {
      PrefixEnd(p, q, |e.a|, s.from);
    } else {
      SuffixEnd(p, q, |e.b|, s.from);
    }
  }

  // ----- exactly when -----------------------------------------------------------------

  /** A value longer than the path, made of a byte that structures nothing. */
  function Filler(p: seq<byte>): (r: seq<byte>)
    ensures |r| == |p| + 1 && Unsplit(r)
  {
    seq(|p| + 1, i => 97)
  }

  /** A parameter that does not stand clear is not found as it was once `n` gets a long value. */
  lemma UnclearLost(p: seq<byte>, n: seq<byte>, m: seq<byte>)
    requires Distinct(n, m) && !Clear(p, n, m)
    ensures FindParam(SetParam(p, n, Filler(p)), m) != Moved(p, n, Filler(p), m)
  {
    hide At, FindParam, SetParam, EditOf, ParamEnd, Joined, Filler;
    var v := Filler(p);
    var q := SetParam(p, n, v);
    var e := EditOf(p, n);
    var s := FindParam(p, m).value;
    EditLengths(p, n, v);
    if FindParam(q, m) == Some(s) {
      var d, k := ParamShape(q, m);
      SetIsJoined(p, n, v);
      OccursWhere(e.a, e.c, n, v, e.b, d, m, k);
      LongValue(p, n, v, m);
    }
  }

  /** The value of `m` now runs on through the parameter `n` written behind it. */
  lemma LongValue(p: seq<byte>, n: seq<byte>, v: seq<byte>, m: seq<byte>)
    requires Distinct(n, m) && Unsplit(v) && FindParam(p, m).Some? && !Clear(p, n, m)
    requires FindParam(p, m).value.from <= |EditOf(p, n).a|
    ensures |SetParam(p, n, v)| >= |EditOf(p, n).a|
    ensures ParamEnd(SetParam(p, n, v), FindParam(p, m).value.from) == |EditOf(p, n).a| + |n| + 2 + |v|
  {
    hide FindParam, SetParam, EditOf, ParamEnd, Joined;
    var q := SetParam(p, n, v);
    var e := EditOf(p, n);
    var s := FindParam(p, m).value;
    var d, k := ParamShape(p, m);
    ParamEndStops(p, s.from);
    EditLengths(p, n, v);
    SetIsJoined(p, n, v);
    JoinedParts(e.a, e.c, n, v, e.b);
    forall i | s.from <= i < |e.a| + |n| + 2 + |v|
      ensures q[i] != AMP
    {
      JoinedAt(e.a, e.c, n, v, e.b, i);
    }
    if e.b != [] {
      JoinedAt(e.a, e.c, n, v, e.b, |e.a| + |n| + 2 + |v|);
    }
    ParamEndIs(q, s.from, |e.a| + |n| + 2 + |v|);
  }

  /** Setting `n` leaves `m` where it was, and hence as it was, for every value, exactly when `m` stands
      clear. (The value alone may survive otherwise, see `ValueKept`: in `?a=1?b=2&x?b=2` the second
      `?b=2` steps in.) */
  lemma OthersKept(p: seq<byte>, n: seq<byte>, m: seq<byte>)
    requires Distinct(n, m)
    ensures (forall v :: Unsplit(v) ==> FindParam(SetParam(p, n, v), m) == Moved(p, n, v, m))
            <==> Clear(p, n, m)
  {
    hide *;
    if Clear(p, n, m) {
      forall v | Unsplit(v)
        ensures FindParam(SetParam(p, n, v), m) == Moved(p, n, v, m)
      {
        ClearKept(p, n, v, m);
      }
    } else {
      UnclearLost(p, n, m);
    }
  }

  /** Found as it was means that the value is the same. */
  lemma MovedValue(p: seq<byte>, n: seq<byte>, v: seq<byte>, m: seq<byte>)
    requires FindParam(p, m).Some? && Clear(p, n, m)
    ensures var q := SetParam(p, n, v);
            var s := FindParam(p, m).value;
            && Moved(p, n, v, m).Some?
            && var t := Moved(p, n, v, m).value;
            t.from <= t.to <= |q| && q[t.from..t.to] == p[s.from..s.to]
  {
    hide FindParam, SetParam, EditOf, Clear, Moved;
    var q := SetParam(p, n, v);
    var e := EditOf(p, n);
    var s := FindParam(p, m).value;
    NewSide(p, n, v, m);
    EditLengths(p, n, v);
    SameOutside(p, n, v);
    if s.from - |m| - 2 < |p| - |e.b| {
      SliceOfHead(p, |e.a|, s.from, s.to);
      SliceOfHead(q, |e.a|, s.from, s.to);
    } else {
      SliceOfTail(p, |e.b|, s.from, s.to);
      SliceOfTail(q, |e.b|, s.from + |q| - |p|, s.to + |q| - |p|);
    }
  }

  lemma SliceOfHead(s: seq<byte>, len: nat, from: nat, to: nat)
    requires from <= to <= len <= |s|
    ensures s[from..to] == s[..len][from..to]
  {}

  lemma SliceOfTail(s: seq<byte>, len: nat, from: nat, to: nat)
    requires len <= |s| && |s| - len <= from <= to <= |s|
    ensures s[from..to] == s[|s| - len..][from - |s| + len..to - |s| + len]
  {}

  // ----- the value alone ------------------------------------------------------------------

  /** Setting twice is setting once; the place stays the same. */
  lemma SetAgain(p: seq<byte>, n: seq<byte>, u: seq<byte>, v: seq<byte>)
    requires Unsplit(n) && Unsplit(u)
    ensures var q := SetParam(p, n, u);
            SetParam(q, n, v) == SetParam(p, n, v) && EditOf(q, n) == EditOf(p, n)
  {
    hide *;
    var q, e := SetParam(p, n, u), EditOf(p, n);
    UnsplitBytes(u);
    SetThenGet(p, n, u);
    SetIsJoined(p, n, u);
    SetIsJoined(p, n, v);
    JoinedParts(e.a, e.c, n, u, e.b);
    JoinedAt(e.a, e.c, n, u, e.b, |e.a|);
    EditFound(q, n, |e.a| + |n| + 2, |u|);
    SetIsJoined(q, n, v);
  }

  lemma EditFound(q: seq<byte>, n: seq<byte>, from: nat, len: nat)
    requires FindParam(q, n) == Some(Span(from, from + len))
    ensures |n| + 2 <= from <= from + len <= |q|
    ensures EditOf(q, n) == Edit(q[..from - |n| - 2], q[from - |n| - 2], q[from + len..])
  {
    hide ParamStart, ParamEnd;
  }

  /** A parameter that runs on through an empty `n` grows with the value of `n`. */
  lemma RunsThrough(p: seq<byte>, n: seq<byte>, v: seq<byte>, m: seq<byte>)
    requires Distinct(n, m) && Unsplit(v) && SetParam(p, n, []) == p && !Clear(p, n, m)
    ensures FindParam(p, m).Some?
    ensures var s := FindParam(p, m).value;
            FindParam(SetParam(p, n, v), m) == Some(Span(s.from, |EditOf(p, n).a| + |n| + 2 + |v|))
  {
    hide *;
    var e, q := EditOf(p, n), SetParam(p, n, v);
    UnclearFound(p, n, m);
    var c, k := ParamShape(p, m);
    SetIsJoined(p, n, []);
    EditLengths(p, n, []);
    EmptyUnsplit();
    NotIn(c);
    DistinctNames(n, m);
    OccursWhere(e.a, e.c, n, [], e.b, c, m, k);
    UnclearBefore(p, n, m);
    NewParam(p, n, v, c, m, k, k);
    if c == QUESTION {
      NoAmpNew(p, n, v, m);
    }
    FoundAt(q, c, m, k);
    LongValue(p, n, v, m);
  }

  lemma UnclearFound(p: seq<byte>, n: seq<byte>, m: seq<byte>)
    requires !Clear(p, n, m)
    ensures FindParam(p, m).Some?
  {
    hide FindParam, EditOf;
  }

  lemma UnclearBefore(p: seq<byte>, n: seq<byte>, m: seq<byte>)
    requires !Clear(p, n, m) && FindParam(p, m).Some?
    ensures FindParam(p, m).value.from - |m| - 2 < |p| - |EditOf(p, n).b|
  {
    hide FindParam, EditOf;
  }

  lemma EmptyUnsplit()
    ensures Unsplit([])
  {}

  lemma NotIn(c: byte)
    ensures c !in []
  {}

  lemma DistinctNames(n: seq<byte>, m: seq<byte>)
    requires Distinct(n, m)
    ensures Unsplit(n) && Unsplit(m) && EQUALS !in n && EQUALS !in m && n != m
  {}

  /** Setting `n` keeps the value of `m`, wherever it is then found, for every value exactly when the
      empty value keeps it and `m` then stands clear. */
  lemma ValueKept(p: seq<byte>, n: seq<byte>, m: seq<byte>)
    requires Distinct(n, m)
    ensures (forall v :: Unsplit(v) ==> ParamValue(SetParam(p, n, v), m) == ParamValue(p, m))
            <==> ParamValue(SetParam(p, n, []), m) == ParamValue(p, m) && Clear(SetParam(p, n, []), n, m)
  {
    hide *;
    var q := SetParam(p, n, []);
    EmptyUnsplit();
    DistinctNames(n, m);
    SetAgain(p, n, [], []);
    if Clear(q, n, m) {
      forall v | Unsplit(v)
        ensures ParamValue(SetParam(p, n, v), m) == ParamValue(q, m)
      {
        SetAgain(p, n, [], v);
        ClearValue(q, n, v, m);
      }
    } else {
      var v := Filler(p);
      FillerLong(p);
      SetAgain(p, n, [], v);
      RunsThrough(q, n, [], m);
      RunsThrough(q, n, v, m);
      LongerValue(q, m);
      LongerValue(SetParam(p, n, v), m);
    }
  }

  lemma FillerLong(p: seq<byte>)
    ensures Unsplit(Filler(p)) && |Filler(p)| > 0
  {}

  lemma LongerValue(p: seq<byte>, m: seq<byte>)
    ensures FindParam(p, m).Some? ==>
              |ParamValue(p, m)| == FindParam(p, m).value.to - FindParam(p, m).value.from
  {
    hide ParamStart, ParamEnd;
  }

  lemma ClearValue(p: seq<byte>, n: seq<byte>, v: seq<byte>, m: seq<byte>)
    requires Distinct(n, m) && Unsplit(v) && Clear(p, n, m)
    ensures ParamValue(SetParam(p, n, v), m) == ParamValue(p, m)
  {
    hide FindParam, SetParam, Clear;
    ClearKept(p, n, v, m);
    if FindParam(p, m).Some? {
      MovedValue(p, n, v, m);
    }
  }

  // ----- well-formed queries ------------------------------------------------------------

  /** One `?` at most, and every `&` behind it. */
  predicate WellFormed(p: seq<byte>) {
    forall i :: 0 <= i < |p| && Sep(p[i]) ==> (p[i] == AMP <==> QUESTION in p[..i])
  }

  /** In a well-formed query all parameters stand clear of each other. */
  lemma WellFormedClear(p: seq<byte>, n: seq<byte>, m: seq<byte>)
    requires Distinct(n, m) && WellFormed(p)
    ensures Clear(p, n, m)
  {
    hide At, FindParam, ParamEnd, Joined, WellFormed;
    if FindParam(p, m).Some? {
      var d, k := ParamShape(p, m);
      OccursChars(p, d, m, k);
      if FindParam(p, n) == None {
        QuestionBefore(p, k, |p|);
        assert p[..|p|] == p;
      } else {
        var c, kn := ParamShape(p, n);
        OccursChars(p, c, n, kn);
        if k < kn {
          QuestionBefore(p, k, kn);
          SepIsAmp(p, kn);
          if kn < k + |m| + 2 {
            NoStraddle(p, kn, d, m, k);
          }
          ParamEndStops(p, k + |m| + 2);
        } else {
          ParamSplits(p, n, c, kn);
          NotInValue(p, kn, k, FindParam(p, n).value);
          var s := FindParam(p, n).value;
          OccursWhere(p[..kn], c, n, p[s.from..s.to], p[s.to..], d, m, k);
        }
      }
    }
  }

  lemma QuestionBefore(p: seq<byte>, k: nat, to: nat)
    requires WellFormed(p) && k < to <= |p| && Sep(p[k])
    ensures QUESTION in p[..to]
  {
    assert p[..to][k] == p[k];
    if p[k] == AMP {
      var i :| 0 <= i < k && p[..k][i] == QUESTION;
      assert p[..to][i] == QUESTION;
    }
  }

  lemma SepIsAmp(p: seq<byte>, k: nat)
    requires WellFormed(p) && k < |p| && Sep(p[k]) && QUESTION in p[..k]
    ensures p[k] == AMP
  {}

  /** The separator of a parameter at or behind `kn` does not occur in the value found at `kn`. */
  lemma NotInValue(p: seq<byte>, kn: nat, k: nat, s: Span)
    requires WellFormed(p) && kn <= k < |p| && Sep(p[kn]) && Sep(p[k])
    requires kn < s.from <= s.to <= |p| && AMP !in p[s.from..s.to]
    ensures p[k] !in p[s.from..s.to]
  {
    var w := p[s.from..s.to];
    forall i | 0 <= i < |w|
      ensures w[i] != p[k]
    {
      QuestionBefore(p, kn, s.from + i);
      assert w[i] == p[s.from + i];
      if k > kn {
        QuestionBefore(p, kn, k);
      }
    }
  }

  /** In a well-formed query setting one parameter leaves the value of every other as it was. */
  lemma WellFormedKept(p: seq<byte>, n: seq<byte>, v: seq<byte>, m: seq<byte>)
    requires Distinct(n, m) && Unsplit(v) && WellFormed(p)
    ensures ParamValue(SetParam(p, n, v), m) == ParamValue(p, m)
  {
    hide *;
    WellFormedClear(p, n, m);
    ClearValue(p, n, v, m);
  }

  lemma OneByteParam(q: seq<byte>, d: byte, b: byte, j: int)
    ensures At(q, Pattern(d, [b]), j) <==>
              0 <= j <= |q| - 3 && q[j] == d && q[j + 1] == b && q[j + 2] == EQUALS
  {
    hide At;
    OccursChars(q, d, [b], j);
    if 0 <= j <= |q| - 3 {
      assert q[j + 1..j + 2] == [q[j + 1]];
    }
  }

  /** In `?a=1?b=2` each of the two names stands once. */
  lemma NamesOnce(p: seq<byte>, d: byte, b: byte, j: int)
    requires p == [63, 97, 61, 49, 63, 98, 61, 50] && (b == 97 || b == 98)
    ensures At(p, Pattern(d, [b]), j) <==> d == QUESTION && j == if b == 97 then 0 else 4
  {
    hide At;
    OneByteParam(p, d, b, j);
  }

  lemma NamedFound(p: seq<byte>, b: byte, k: nat)
    requires p == [63, 97, 61, 49, 63, 98, 61, 50] && (b == 97 || b == 98)
    requires k == if b == 97 then 0 else 4
    ensures FindParam(p, [b]) == Some(Span(k + 3, 8))
  {
    hide At, ParamEnd, FindParam;
    forall d, j
      ensures At(p, Pattern(d, [b]), j) <==> d == QUESTION && j == k
    {
      NamesOnce(p, d, b, j);
    }
    FoundAt(p, QUESTION, [b], k);
    ParamEndIs(p, k + 3, 8);
  }

  /** Without that a parameter can get lost: in `?a=1?b=2` the parameter `b` stands inside the value
      of `a`, and setting `a` to `9` removes it. */
  lemma ParamInsideValueLost()
    ensures var p := Ascii("?a=1?b=2");
            var q := SetParam(p, Ascii("a"), Ascii("9"));
            && Distinct(Ascii("a"), Ascii("b")) && Unsplit(Ascii("9"))
            && ParamValue(p, Ascii("b")) == Ascii("2") && FindParam(q, Ascii("b")) == None
  {
    hide At, FindParam, SetParam, Pattern;
    var p: seq<byte> := [63, 97, 61, 49, 63, 98, 61, 50];
    assert p == Ascii("?a=1?b=2") && [97] == Ascii("a") && [98] == Ascii("b") && [57] == Ascii("9");
    NamedFound(p, 97, 0);
    NamedFound(p, 98, 4);
    assert p[7..8] == Ascii("2");
    OneParamLeft(p);
  }

  lemma OneParamLeft(p: seq<byte>)
    requires p == [63, 97, 61, 49, 63, 98, 61, 50] && FindParam(p, [97]) == Some(Span(3, 8))
    ensures FindParam(SetParam(p, [97], [57]), [98]) == None
  {
    hide At, ParamEnd, FindParam, Replace, Pattern;
    ReplaceSplits(p, 3, 8, [57]);
    var q := SetParam(p, [97], [57]);
    assert q == [63, 97, 61, 57];
    forall c, j
      ensures !At(q, Pattern(c, [98]), j)
    {
      OneByteParam(q, c, 98, j);
    }
    NotFound(q, [98]);
  }
}
