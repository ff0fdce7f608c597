/** How the header scan of proto.go reacts to an edit of one line of the payload. */
module HeaderScan {
  import opened Bytes
  import opened Headers

  // ----- the scan looks forward only ----------------------------------------------------

  function Moved(o: Option<Hit>, d: nat): Option<Hit> {
    match o
    case None => None
    case Some(h) => Some(Hit(h.start + d, h.colon + d, h.end + d))
  }

  lemma NextShift(a: seq<byte>, s: seq<byte>, b: byte, from: nat, to: nat)
    requires from <= to <= |s|
    ensures Next(a + s, b, |a| + from, |a| + to)
         == if Next(s, b, from, to) == -1 then -1 else |a| + Next(s, b, from, to)
  {
    hide IndexByte;
    assert (a + s)[|a| + from..|a| + to] == s[from..to];
  }

  lemma NextSame(p: seq<byte>, q: seq<byte>, b: byte, from: nat, to: nat)
    requires from <= to <= |p| && to <= |q| && p[from..to] == q[from..to]
    ensures Next(p, b, from, to) == Next(q, b, from, to)
  {
    hide IndexByte;
  }

  lemma NextIs(s: seq<byte>, b: byte, from: nat, to: nat, k: nat)
    requires from <= k < to <= |s| && s[k] == b
    requires forall j :: from <= j < k ==> s[j] != b
    ensures Next(s, b, from, to) == k
  {
    hide Next;
  }

  lemma MatchesShift(a: seq<byte>, s: seq<byte>, start: nat, end: nat, name: seq<byte>)
    requires start <= end <= |s|
    ensures Matches(a + s, |a| + start, |a| + end, name) == Matches(s, start, end, name)
  {
    hide Next, EqualFold;
    NextShift(a, s, COLON, start, end);
    var c := Next(s, COLON, start, end);
    if c >= 0 {
      assert (a + s)[|a| + start..|a| + c] == s[start..c];
    }
  }

  lemma MatchesSame(p: seq<byte>, q: seq<byte>, start: nat, end: nat, name: seq<byte>)
    requires start <= end <= |p| && end <= |q| && p[start..end] == q[start..end]
    ensures Matches(p, start, end, name) == Matches(q, start, end, name)
  {
    hide Next, EqualFold;
    NextSame(p, q, COLON, start, end);
    var c := Next(p, COLON, start, end);
    if c >= 0 {
      assert p[start..c] == p[start..end][..c - start] == q[start..end][..c - start] == q[start..c];
    }
  }

  lemma {:induction false} FindShift(a: seq<byte>, s: seq<byte>, name: seq<byte>, from: nat)
    ensures FindLine(a + s, name, |a| + from) == Moved(FindLine(s, name, from), |a|)
    decreases |s| - from
  {
    hide Next, Matches, FindLine;
    if from >= |s| {
      FindNone(s, name, from);
      FindNone(a + s, name, |a| + from);
    } else {
      var end := Next(s, LF, from, |s|);
      if end != -1 {
        FindShift(a, s, name, end + 1);
      }
      ShiftStep(a, s, name, from);
    }
  }

  lemma ShiftStep(a: seq<byte>, s: seq<byte>, name: seq<byte>, from: nat)
    requires from < |s|
    requires var end := Next(s, LF, from, |s|);
             end != -1 ==> FindLine(a + s, name, |a| + end + 1) == Moved(FindLine(s, name, end + 1), |a|)
    ensures FindLine(a + s, name, |a| + from) == Moved(FindLine(s, name, from), |a|)
  {
    hide *;
    NextShift(a, s, LF, from, |s|);
    var end := Next(s, LF, from, |s|);
    FindStep(s, name, from, end);
    MovedNone(|a|);
    if end == -1 {
      FindStep(a + s, name, |a| + from, -1);
    } else {
      FindStep(a + s, name, |a| + from, |a| + end);
      MatchesShift(a, s, from, end, name);
      NextShift(a, s, COLON, from, end);
      if Matches(s, from, end, name) {
        MovedSome(Hit(from, Next(s, COLON, from, end), end), |a|);
      }
    }
  }

  lemma MovedNone(d: nat)
    ensures Moved(None, d) == None
  {}

  lemma MovedSome(h: Hit, d: nat)
    ensures Moved(Some(h), d) == Some(Hit(h.start + d, h.colon + d, h.end + d))
  {}

  // ----- one line of `p` rewritten in `q` ------------------------------------------------

  /** `q` is `p` with the line at `h.start` replaced by one that ends before `next`. */
  predicate LineEdited(p: seq<byte>, q: seq<byte>, h: Hit, next: nat) {
    && h.start <= h.end < |p|
    && h.start < next <= |q|
    && p[..h.start] == q[..h.start]
    && Next(q, LF, h.start, |q|) == next - 1
    && p[h.end + 1..] == q[next..]
  }

  /** Up to the found line two texts are scanned in the same steps if they agree that far. */
  lemma CommonLine(p: seq<byte>, q: seq<byte>, n: seq<byte>, from: nat, h: Hit)
    requires FindLine(p, n, from) == Some(h) && from < h.start
    requires h.start <= |p| && h.start <= |q| && p[..h.start] == q[..h.start]
    ensures var end := Next(p, LF, from, |p|);
            && from <= end < h.start
            && Next(q, LF, from, |q|) == end
            && p[from..end] == q[from..end]
            && FindLine(p, n, end + 1) == Some(h)
  {
    hide Next, Matches, FindLine;
    var end := Next(p, LF, from, |p|);
    FindStep(p, n, from, end);
    FindFrom(p, n, end + 1);
    var cut := h.start;
    HeadSlice(p, cut, from, end);
    HeadSlice(q, cut, from, end);
    assert forall j :: from <= j <= end ==> p[..cut][j] == q[..cut][j];
    assert forall j :: from <= j <= end ==> p[j] == q[j];
    NextIs(q, LF, from, |q|, end);
  }

  lemma FindFrom(s: seq<byte>, name: seq<byte>, from: nat)
    ensures FindLine(s, name, from).Some? ==>
              from <= FindLine(s, name, from).value.start <= FindLine(s, name, from).value.colon
              < FindLine(s, name, from).value.end < |s|
  {
    hide Next, Matches;
  }

  /** If the new line still matches, the scan stops there. */
  lemma {:induction false} FindEdited(p: seq<byte>, q: seq<byte>, n: seq<byte>, from: nat, h: Hit, next: nat)
    requires FindLine(p, n, from) == Some(h) && LineEdited(p, q, h, next)
    requires Matches(q, h.start, next - 1, n)
    ensures FindLine(q, n, from) == Some(Hit(h.start, Next(q, COLON, h.start, next - 1), next - 1))
    decreases h.start - from
  {
    hide Next, Matches, FindLine;
    FindFrom(p, n, from);
    FindStep(q, n, from, Next(q, LF, from, |q|));
    if from < h.start {
      CommonLine(p, q, n, from, h);
      var end := Next(p, LF, from, |p|);
      FindStep(p, n, from, end);
      MatchesSame(p, q, from, end, n);
      FindFrom(p, n, end + 1);
      NotHere(p, n, from, end, h);
      FindEdited(p, q, n, end + 1, h, next);
    }
  }

  lemma EditedPrefix(p: seq<byte>, q: seq<byte>, h: Hit, next: nat)
    requires LineEdited(p, q, h, next)
    ensures h.start <= |p| && h.start <= |q| && p[..h.start] == q[..h.start]
  {
    hide Next;
  }

  lemma NotHere(p: seq<byte>, n: seq<byte>, from: nat, end: nat, h: Hit)
    requires from < |p| && end == Next(p, LF, from, |p|) && FindLine(p, n, from) == Some(h) && from < h.start
    ensures !Matches(p, from, end, n)
  {
    hide Next, Matches, FindLine;
    FindStep(p, n, from, end);
  }

  /** A header `m` that matches neither the old nor the new line is found where it was, moved along
      with the text behind the edit. */
  lemma {:induction false} FindOther(p: seq<byte>, q: seq<byte>, n: seq<byte>, m: seq<byte>,
                                     from: nat, h: Hit, next: nat)
    requires FindLine(p, n, from) == Some(h) && LineEdited(p, q, h, next)
    requires !Matches(p, h.start, h.end, m) && !Matches(q, h.start, next - 1, m)
    ensures SameHit(p, q, FindLine(p, m, from), FindLine(q, m, from))
    decreases h.start - from
  {
    hide *;
    FindFrom(p, n, from);
    if from == h.start {
      OtherFromEdit(p, q, n, m, h, next);
    } else {
      CommonLine(p, q, n, from, h) by { EditedPrefix(p, q, h, next); }
      var end := Next(p, LF, from, |p|);
      FindStep(q, m, from, end);
      FindStep(p, m, from, end);
      MatchesSame(p, q, from, end, m);
      NextSame(p, q, COLON, from, end);
      if Matches(p, from, end, m) {
        SameHitHere(p, q, from, end, m);
      } else {
        FindOther(p, q, n, m, end + 1, h, next);
      }
    }
  }

  /** With the line found for `n` taken out, a header `m` it does not match is found as before. */
  lemma {:induction false} FindDeleted(p: seq<byte>, q: seq<byte>, n: seq<byte>, m: seq<byte>, from: nat, h: Hit)
    requires FindLine(p, n, from) == Some(h) && h.start <= h.end < |p| && q == p[..h.start] + p[h.end + 1..]
    requires !Matches(p, h.start, h.end, m)
    ensures SameHit(p, q, FindLine(p, m, from), FindLine(q, m, from))
    decreases h.start - from
  {
    hide *;
    FindFrom(p, n, from);
    assert q[..h.start] == p[..h.start];
    if from == h.start {
      LineEnd(p, n, from, h);
      FindStep(p, m, h.start, h.end);
      assert q[h.start..] == p[h.end + 1..];
      SameSuffix(p, q, h.end + 1, h.start, m);
    } else {
      CommonLine(p, q, n, from, h);
      var end := Next(p, LF, from, |p|);
      FindDeleted(p, q, n, m, end + 1, h);
      SameHitStep(p, q, m, from, end);
    }
  }

  /** A line both texts share keeps what is found the same. */
  lemma SameHitStep(p: seq<byte>, q: seq<byte>, m: seq<byte>, from: nat, end: nat)
    requires from <= end < |p| && end < |q| && p[from..end] == q[from..end]
    requires Next(p, LF, from, |p|) == end == Next(q, LF, from, |q|)
    requires SameHit(p, q, FindLine(p, m, end + 1), FindLine(q, m, end + 1))
    ensures SameHit(p, q, FindLine(p, m, from), FindLine(q, m, from))
  {
    hide *;
    FindStep(q, m, from, end);
    FindStep(p, m, from, end);
    MatchesSame(p, q, from, end, m);
    NextSame(p, q, COLON, from, end);
    if Matches(p, from, end, m) {
      SameHitHere(p, q, from, end, m);
    }
  }

  /** What is found stays found when more text follows. */
  lemma {:induction false} FindLonger(a: seq<byte>, z: seq<byte>, n: seq<byte>, from: nat, h: Hit)
    requires FindLine(a, n, from) == Some(h)
    ensures FindLine(a + z, n, from) == Some(h)
    decreases |a| - from
  {
    hide *;
    FindFrom(a, n, from);
    var end := Next(a, LF, from, |a|);
    FindStep(a, n, from, end);
    NextLonger(a, z, LF, from);
    FindStep(a + z, n, from, end);
    HeadSlice(a + z, |a|, from, end);
    assert (a + z)[..|a|] == a;
    MatchesSame(a, a + z, from, end, n);
    NextSame(a, a + z, COLON, from, end);
    if !Matches(a, from, end, n) {
      FindLonger(a, z, n, end + 1, h);
    }
  }

  lemma NextLonger(a: seq<byte>, z: seq<byte>, b: byte, from: nat)
    requires from <= |a| && Next(a, b, from, |a|) != -1
    ensures Next(a + z, b, from, |a + z|) == Next(a, b, from, |a|)
  {
    hide Next;
    NextIs(a + z, b, from, |a + z|, Next(a, b, from, |a|));
  }

  /** The scan for `m` from the edited line on. */
  lemma OtherFromEdit(p: seq<byte>, q: seq<byte>, n: seq<byte>, m: seq<byte>, h: Hit, next: nat)
    requires FindLine(p, n, h.start) == Some(h) && LineEdited(p, q, h, next)
    requires !Matches(p, h.start, h.end, m) && !Matches(q, h.start, next - 1, m)
    ensures SameHit(p, q, FindLine(p, m, h.start), FindLine(q, m, h.start))
  {
    hide Next, Matches, FindLine, SameHit;
    LineEnd(p, n, h.start, h);
    FindStep(p, m, h.start, h.end);
    FindStep(q, m, h.start, next - 1);
    SameSuffix(p, q, h.end + 1, next, m);
  }

  lemma SameSuffix(p: seq<byte>, q: seq<byte>, i: nat, j: nat, m: seq<byte>)
    requires i <= |p| && j <= |q| && p[i..] == q[j..]
    ensures SameHit(p, q, FindLine(p, m, i), FindLine(q, m, j))
  {
    hide *;
    var rest := p[i..];
    assert p == p[..i] + rest;
    assert q == q[..j] + rest;
    SameRest(p[..i], q[..j], rest, m);
  }

  lemma SameRest(a: seq<byte>, b: seq<byte>, s: seq<byte>, m: seq<byte>)
    ensures SameHit(a + s, b + s, FindLine(a + s, m, |a|), FindLine(b + s, m, |b|))
  {
    hide *;
    FindShift(a, s, m, 0);
    FindShift(b, s, m, 0);
    SameHitMoved(a, b, s, m);
  }

  lemma LineEnd(p: seq<byte>, n: seq<byte>, from: nat, h: Hit)
    requires FindLine(p, n, from) == Some(h)
    ensures h.start < |p| && h.end == Next(p, LF, h.start, |p|)
  {
    hide Next, Matches;
  }

  /** Both hits have the same text between colon and LF, hence the same value. */
  predicate SameHit(p: seq<byte>, q: seq<byte>, a: Option<Hit>, b: Option<Hit>) {
    match (a, b)
    case (None, None) => true
    case (Some(g), Some(h)) =>
      g.colon < g.end <= |p| && h.colon < h.end <= |q| && LineText(p, g) == LineText(q, h)
    case _ => false
  }

  lemma SameHitHere(p: seq<byte>, q: seq<byte>, from: nat, end: nat, m: seq<byte>)
    requires from <= end <= |p| && end <= |q| && p[from..end] == q[from..end] && Matches(p, from, end, m)
    ensures var h := Some(Hit(from, Next(p, COLON, from, end), end)); SameHit(p, q, h, h)
  {
    hide Next, EqualFold;
    var c := Next(p, COLON, from, end);
    assert p[c + 1..end] == p[from..end][c + 1 - from..] == q[from..end][c + 1 - from..] == q[c + 1..end];
  }

  lemma SameHitMoved(a: seq<byte>, b: seq<byte>, s: seq<byte>, m: seq<byte>)
    ensures SameHit(a + s, b + s, Moved(FindLine(s, m, 0), |a|), Moved(FindLine(s, m, 0), |b|))
  {
    hide *;
    FindFrom(s, m, 0);
    match FindLine(s, m, 0)
    case None =>
      MovedNone(|a|);
      MovedNone(|b|);
      SameNone(a + s, b + s);
    case Some(h) =>
      MovedSome(h, |a|);
      MovedSome(h, |b|);
      SameMoved(a, b, s, h);
  }

  lemma SameNone(p: seq<byte>, q: seq<byte>)
    ensures SameHit(p, q, None, None)
  {}

  lemma SameMoved(a: seq<byte>, b: seq<byte>, s: seq<byte>, h: Hit)
    requires h.colon < h.end <= |s|
    ensures SameHit(a + s, b + s, Some(Hit(h.start + |a|, h.colon + |a|, h.end + |a|)),
                    Some(Hit(h.start + |b|, h.colon + |b|, h.end + |b|)))
  {
    hide LineText;
    TextMoved(a, s, h);
    TextMoved(b, s, h);
  }

  lemma TextMoved(a: seq<byte>, s: seq<byte>, h: Hit)
    requires h.colon < h.end <= |s|
    ensures LineText(a + s, Hit(h.start + |a|, h.colon + |a|, h.end + |a|)) == LineText(s, h)
  {}

  /** A line matches only names that fold to each other. */
  lemma MatchesOne(s: seq<byte>, start: nat, end: nat, n: seq<byte>, m: seq<byte>)
    requires start <= end <= |s| && Matches(s, start, end, n) && !EqualFold(n, m)
    ensures !Matches(s, start, end, m)
  {
    hide Next;
  }
}
