/** What `HasFullPayload` decides, and why keeping its state between calls changes no answer. */
module FullPayloadLaws {
  import opened Bytes
  import opened Titles
  import opened Headers
  import opened FullPayload

  // ----- growing the list of segments ---------------------------------------------------

  lemma {:induction false} BodyPosStable(q: seq<seq<byte>>, p: seq<seq<byte>>, pos: nat)
    requires q <= p && BodyPos(q, pos) != -1
    ensures BodyPos(p, pos) == BodyPos(q, pos)
  {
    hide HeadersEnd;
    assert q[0] == p[0] && q[1..] <= p[1..];
    if HeadersEnd(q[0]) < 0 {
      BodyPosStable(q[1..], p[1..], pos + |q[0]|);
    }
  }

  /** The header loop stops inside the segments that hold the header section. */
  lemma {:induction false} ParseStable(st: Framing, q: seq<seq<byte>>, p: seq<seq<byte>>, pos: nat)
    requires q <= p && q != [] && st.body <= pos + Total(q)
    ensures ParseHeaders(st, p, pos) == ParseHeaders(st, q, pos)
    ensures ParseHeaders(st, q, pos).headerParsed
    ensures var r := ParseHeaders(st, q, pos);
            (r.body, r.headerStart, r.headerEnd, r.hasFullPayload)
            == (st.body, st.headerStart, st.headerEnd, st.hasFullPayload)
    decreases |q|
  {
    hide ReadHeaders;
    assert q[0] == p[0] && q[1..] <= p[1..];
    var st1 := ReadHeaders(st, q[0]);
    KeepsPlace(st, q[0]);
    if !(st1.bodyLen > 0 || pos + |q[0]| >= st.body) {
      ParseStable(st1, q[1..], p[1..], pos + |q[0]|);
    }
  }

  lemma KeepsPlace(st: Framing, data: seq<byte>)
    ensures var r := ReadHeaders(st, data);
            (r.body, r.headerStart, r.headerEnd, r.hasFullPayload, r.headerParsed)
            == (st.body, st.headerStart, st.headerEnd, st.hasFullPayload, st.headerParsed)
  {
    hide SaysChunked, SaysContinue, DeclaredLength;
  }

  // ----- the state a call leaves ------------------------------------------------------------

  /** `HasFullPayload` never reads the flag of that name. */
  function Erase(st: Framing): Framing {
    st.(hasFullPayload := false)
  }

  predicate SameOutcome(a: (Framing, bool), b: (Framing, bool)) {
    Erase(a.0) == Erase(b.0) && a.1 == b.1
  }

  lemma {:induction false} ParseErased(st: Framing, p: seq<seq<byte>>, pos: nat)
    ensures Erase(ParseHeaders(st, p, pos)) == Erase(ParseHeaders(Erase(st), p, pos))
    decreases |p|
  {
    hide ReadHeaders;
    if p != [] {
      ReadErased(st, p[0]);
      KeepsPlace(st, p[0]);
      KeepsPlace(Erase(st), p[0]);
      ParseErased(ReadHeaders(st, p[0]), p[1..], pos + |p[0]|);
    }
  }

  lemma ReadErased(st: Framing, data: seq<byte>)
    ensures ReadHeaders(Erase(st), data) == Erase(ReadHeaders(st, data))
  {
    hide SaysChunked, SaysContinue, DeclaredLength;
  }

  lemma CheckErased(st: Framing, p: seq<seq<byte>>)
    ensures SameOutcome(Check(st, p), Check(Erase(st), p))
  {
    hide HasTitle, ParseHeaders, LocateStart, LocateBody, Complete;
    if p != [] {
      LocateErased(st, p);
      var st2 := LocateBody(LocateStart(st, p), p);
      ParseErased(st2, p, 0);
      CompleteErased(st2, p);
      CompleteErased(ParseHeaders(st2, p, 0), p);
      CompleteErased(ParseHeaders(Erase(st2), p, 0), p);
    }
  }

  lemma LocateErased(st: Framing, p: seq<seq<byte>>)
    requires p != []
    ensures LocateStart(Erase(st), p) == Erase(LocateStart(st, p))
    ensures LocateBody(LocateStart(Erase(st), p), p) == Erase(LocateBody(LocateStart(st, p), p))
  {
    hide HeadersStart, BodyPos;
  }

  lemma CompleteErased(st: Framing, p: seq<seq<byte>>)
    requires p != []
    ensures Complete(Erase(st), p) == Complete(st, p)
  {
    hide Total, HasSuffix;
  }

  /** The state once the header section of `p` is known. */
  function Learned(p: seq<seq<byte>>): Framing
    requires p != []
  {
    ParseHeaders(FRESH.(headerStart := HeadersStart(p[0]), body := BodyPos(p, 0), headerEnd := BodyPos(p, 0)), p, 0)
  }

  lemma LearnedFields(p: seq<seq<byte>>)
    requires p != [] && BodyPos(p, 0) != -1
    ensures var r := Learned(p);
            r.headerParsed && r.headerStart == HeadersStart(p[0]) && r.body == r.headerEnd == BodyPos(p, 0) >= 4
            && !r.hasFullPayload
  {
    hide BodyPos, ParseHeaders, HeadersStart;
    ParseStable(FRESH.(headerStart := HeadersStart(p[0]), body := BodyPos(p, 0), headerEnd := BodyPos(p, 0)), p, p, 0);
  }

  /** A call on a fresh state ends in one of four ways. */
  lemma FreshCheck(p: seq<seq<byte>>)
    ensures var (st, full) := Check(FRESH, p);
            if p == [] || !HasTitle(p[0]) then st == FRESH && !full
            else if BodyPos(p, 0) == -1 then st == FRESH.(headerStart := HeadersStart(p[0])) && !full
            else Erase(st) == Learned(p) && full == Complete(Learned(p), p)
    ensures p != [] && HasTitle(p[0]) ==> HeadersStart(p[0]) >= 14
  {
    hide HasTitle, HeadersStart, BodyPos, ParseHeaders, HasSuffix;
    if p != [] && HasTitle(p[0]) {
      TitleLength(p[0]);
      if BodyPos(p, 0) != -1 {
        LearnedFields(p);
      }
    }
  }

  /** Once the header section is known a call only compares lengths or suffixes. */
  lemma LearnedCheck(st: Framing, p: seq<seq<byte>>)
    requires p != [] && HasTitle(p[0])
    requires st.headerParsed && st.headerStart >= 1 && st.body >= 1 && st.headerEnd >= 1
    ensures Erase(Check(st, p).0) == Erase(st) && Check(st, p).1 == Complete(st, p)
  {
    hide HasTitle, HeadersStart, BodyPos, ParseHeaders, HasSuffix;
  }

  lemma StartedCheck(p: seq<seq<byte>>)
    requires p != [] && HasTitle(p[0])
    ensures SameOutcome(Check(FRESH.(headerStart := HeadersStart(p[0])), p), Check(FRESH, p))
  {
    hide HasTitle, HeadersStart, BodyPos, ParseHeaders, HasSuffix;
    TitleLength(p[0]);
  }

  /** A call on `q` leaves a state from which a call on any extension of `q` behaves like a first call. */
  lemma CheckAbsorbs(q: seq<seq<byte>>, p: seq<seq<byte>>)
    requires q <= p
    ensures SameOutcome(Check(Check(FRESH, q).0, p), Check(FRESH, p))
  {
    hide Check, HasTitle, BodyPos, Learned, Complete;
    FreshCheck(q);
    if q != [] && HasTitle(q[0]) {
      assert p[0] == q[0];
      if BodyPos(q, 0) == -1 {
        StartedCheck(p);
      } else {
        var st := Check(FRESH, q).0;
        CheckErased(st, p);
        LearnedFields(q);
        LearnedCheck(Learned(q), p);
        LearnedStable(q, p);
        FreshCheck(p);
      }
    }
  }

  lemma LearnedStable(q: seq<seq<byte>>, p: seq<seq<byte>>)
    requires q <= p && q != [] && BodyPos(q, 0) != -1
    ensures BodyPos(p, 0) == BodyPos(q, 0) && Learned(p) == Learned(q)
  {
    hide BodyPos, ParseHeaders, HeadersStart;
    BodyPosStable(q, p, 0);
    assert p[0] == q[0];
    ParseStable(FRESH.(headerStart := HeadersStart(p[0]), body := BodyPos(p, 0), headerEnd := BodyPos(p, 0)), q, p, 0);
  }

  /** The flag of that name is set once a chunked message without trailers was found complete, and stays. */
  lemma FlagMeans(st: Framing, p: seq<seq<byte>>)
    ensures var (st1, full) := Check(st, p);
            st1.hasFullPayload <==> st.hasFullPayload || (full && st1.isChunked && !st1.hasTrailer)
  {
    hide HasTitle, HeadersStart, BodyPos, ParseHeaders, Complete;
    if p != [] {
      var st2 := LocateBody(LocateStart(st, p), p);
      ParsePlace(st2, p, 0);
    }
  }

  lemma {:induction false} ParsePlace(st: Framing, p: seq<seq<byte>>, pos: nat)
    ensures ParseHeaders(st, p, pos).hasFullPayload == st.hasFullPayload
    decreases |p|
  {
    hide ReadHeaders;
    if p != [] {
      KeepsPlace(st, p[0]);
      ParsePlace(ReadHeaders(st, p[0]), p[1..], pos + |p[0]|);
    }
  }

  // ----- cache coherence over a history of calls ---------------------------------------------

  /** The state after calls on `history[0]`, `history[1]`, ... */
  function StateAfter(history: seq<seq<seq<byte>>>): Framing {
    if history == [] then FRESH
    else Check(StateAfter(history[..|history| - 1]), history[|history| - 1]).0
  }

  /** Each list of segments extends the one before it. */
  predicate Growing(history: seq<seq<seq<byte>>>) {
    forall i :: 0 <= i < |history| - 1 ==> history[i] <= history[i + 1]
  }

  /** Cache coherence: after any calls on growing lists of segments, the answer on a further extension
      is the answer a fresh state would give, and so is the state apart from the unread flag. */
  lemma {:induction false} CacheCoherent(history: seq<seq<seq<byte>>>, p: seq<seq<byte>>)
    requires Growing(history) && (history != [] ==> history[|history| - 1] <= p)
    ensures SameOutcome(Check(StateAfter(history), p), Check(FRESH, p))
  {
    hide Check;
    if history != [] {
      var before, q := history[..|history| - 1], history[|history| - 1];
      assert before != [] ==> before[|before| - 1] == history[|history| - 2] <= q;
      CacheCoherent(before, q);
      CheckErased(StateAfter(history), p);
      CheckErased(Check(FRESH, q).0, p);
      CheckAbsorbs(q, p);
    }
  }

  // ----- which messages are complete --------------------------------------------------------

  /** The declared length is the one of segment `k`: the first with a positive length, or the segment
      `j` in which the header section ends. */
  predicate LengthFrom(p: seq<seq<byte>>, j: nat, k: nat) {
    && k <= j < |p|
    && (forall i :: 0 <= i < j ==> HeadersEnd(p[i]) == -1)
    && HeadersEnd(p[j]) != -1
    && (forall i :: 0 <= i < k ==> DeclaredLength(p[i]) <= 0)
    && (k < j ==> DeclaredLength(p[k]) > 0)
    && (forall i :: 0 <= i <= k ==> !SaysChunked(p[i]))
  }

  /** A message that is not chunked is complete exactly when the bytes behind the header section are as
      many as its Content-Length says. */
  lemma CompleteByLength(p: seq<seq<byte>>, j: nat, k: nat)
    requires p != [] && HasTitle(p[0]) && LengthFrom(p, j, k)
    ensures Check(FRESH, p).1 <==> Total(p) == Total(p[..j]) + HeadersEnd(p[j]) + DeclaredLength(p[k])
  {
    hide Check, HasTitle, ParseHeaders, BodyPos, SaysChunked, DeclaredLength, HeadersEnd, HasSuffix;
    FreshCheck(p);
    BodyPosAt(p, j, 0);
    var st := FRESH.(headerStart := HeadersStart(p[0]), body := BodyPos(p, 0), headerEnd := BodyPos(p, 0));
    ParseLength(st, p, j, k, 0);
  }

  lemma {:induction false} BodyPosAt(p: seq<seq<byte>>, j: nat, pos: nat)
    requires j < |p| && HeadersEnd(p[j]) != -1 && forall i :: 0 <= i < j ==> HeadersEnd(p[i]) == -1
    ensures BodyPos(p, pos) == pos + Total(p[..j]) + HeadersEnd(p[j])
  {
    hide HeadersEnd;
    if j > 0 {
      BodyPosAt(p[1..], j - 1, pos + |p[0]|);
      assert p[..j][1..] == p[1..][..j - 1];
    }
  }

  lemma {:induction false} ParseLength(st: Framing, p: seq<seq<byte>>, j: nat, k: nat, pos: nat)
    requires LengthFrom(p, j, k) && !st.isChunked
    requires st.body == pos + Total(p[..j]) + HeadersEnd(p[j])
    ensures var r := ParseHeaders(st, p, pos); !r.isChunked && r.bodyLen == DeclaredLength(p[k]) && r.body == st.body
    decreases j
  {
    hide SaysChunked, DeclaredLength, HeadersEnd, SaysContinue;
    EndInside(p[j]);
    var st1 := ReadHeaders(st, p[0]);
    if j > 0 {
      assert p[..j][1..] == p[1..][..j - 1];
      if k > 0 {
        ParseLength(st1, p[1..], j - 1, k - 1, pos + |p[0]|);
      }
    }
  }

  lemma EndInside(data: seq<byte>)
    ensures HeadersEnd(data) == -1 || 4 <= HeadersEnd(data) <= |data|
  {}

  // ----- the segments against the joined bytes ----------------------------------------------

  lemma {:induction false} TotalIsConcat(from: seq<seq<byte>>)
    ensures |Concat(from)| == Total(from)
  {
    if from != [] {
      TotalIsConcat(from[1..]);
    }
  }

  /** The `n` bytes from `at` on of the joined payloads stand in one of them. */
  predicate InOneSegment(p: seq<seq<byte>>, at: nat, n: nat) {
    p != [] && if at < |p[0]| then at + n <= |p[0]| else InOneSegment(p[1..], at - |p[0]|, n)
  }

  /** The end of the header section is found where it is in the joined bytes exactly if the first empty
      line of those, when there is one, stands in one segment. */
  lemma HeaderSectionFound(p: seq<seq<byte>>)
    ensures BodyPos(p, 0) == HeadersEnd(Concat(p))
       <==> Index(Concat(p), EMPTY_LINE) == -1 || InOneSegment(p, Index(Concat(p), EMPTY_LINE), 4)
  {
    hide BodyPos, Index, InOneSegment, Concat;
    FoundFrom(p, 0);
  }

  /** Otherwise it is found later or not at all. */
  lemma {:induction false} FoundFrom(p: seq<seq<byte>>, pos: nat)
    ensures var e := Index(Concat(p), EMPTY_LINE);
            if e == -1 then BodyPos(p, pos) == -1
            else if InOneSegment(p, e, 4) then BodyPos(p, pos) == pos + e + 4
            else BodyPos(p, pos) == -1 || BodyPos(p, pos) > pos + e + 4
  {
    hide Index, At, HeadersEnd;
    if p == [] {
      NothingInNothing();
    } else {
      var first, rest := p[0], Concat(p[1..]);
      assert Concat(p) == first + rest;
      JoinedIndex(first, rest);
      EndIs(first);
      EndIs(rest);
      if HeadersEnd(first) == -1 {
        FoundFrom(p[1..], pos + |first|);
      }
    }
  }

  lemma EndIs(p: seq<byte>)
    ensures HeadersEnd(p) == if Index(p, EMPTY_LINE) == -1 then -1 else Index(p, EMPTY_LINE) + 4
    ensures Index(p, EMPTY_LINE) >= -1
  {}

  lemma NothingInNothing()
    ensures Index([], EMPTY_LINE) == -1
  {}

  /** The first empty line of joined texts is the one of the first text, or crosses into the second, or is
      the one of the second. */
  lemma JoinedIndex(a: seq<byte>, b: seq<byte>)
    ensures var e, k, j := Index(a + b, EMPTY_LINE), Index(a, EMPTY_LINE), Index(b, EMPTY_LINE);
            if k != -1 then e == k && k + 4 <= |a|
            else if e != -1 && e < |a| then e + 4 > |a|
            else e == if j == -1 then -1 else |a| + j
  {
    hide Index;
    var c := a + b;
    var e, k, j := Index(c, EMPTY_LINE), Index(a, EMPTY_LINE), Index(b, EMPTY_LINE);
    if k != -1 {
      forall i | i <= k
        ensures At(c, EMPTY_LINE, i) <==> At(a, EMPTY_LINE, i)
      {
        AtFront(a, b, i);
      }
      IndexIs(c, EMPTY_LINE, k);
    } else if e != -1 && e < |a| {
      AtFront(a, b, e);
    } else {
      if j != -1 {
        AtBack(a, b, j);
        assert At(c, EMPTY_LINE, |a| + j);
      }
      if e != -1 {
        AtBack(a, b, e - |a|);
      }
    }
  }

  lemma AtFront(a: seq<byte>, b: seq<byte>, i: int)
    ensures i + 4 <= |a| ==> (At(a + b, EMPTY_LINE, i) <==> At(a, EMPTY_LINE, i))
    ensures At(a, EMPTY_LINE, i) ==> i + 4 <= |a|
  {
    EmptyLineChars(a + b, i);
    EmptyLineChars(a, i);
  }

  lemma AtBack(a: seq<byte>, b: seq<byte>, i: int)
    ensures 0 <= i ==> (At(a + b, EMPTY_LINE, |a| + i) <==> At(b, EMPTY_LINE, i))
  {
    EmptyLineChars(a + b, |a| + i);
    EmptyLineChars(b, i);
  }

  /** With the first empty line of the joined bytes in one segment, a message that is not chunked is
      complete exactly when the joined bytes are a header section and a body of its Content-Length. */
  lemma CompleteInBytes(p: seq<seq<byte>>, j: nat, k: nat)
    requires p != [] && HasTitle(p[0]) && LengthFrom(p, j, k)
    requires Index(Concat(p), EMPTY_LINE) != -1 ==> InOneSegment(p, Index(Concat(p), EMPTY_LINE), 4)
    ensures Check(FRESH, p).1 <==> |Concat(p)| == HeadersEnd(Concat(p)) + DeclaredLength(p[k])
  {
    hide Check, HasTitle, HeadersEnd, Index, InOneSegment, BodyPos, SaysChunked, DeclaredLength, Concat;
    CompleteByLength(p, j, k);
    BodyPosAt(p, j, 0);
    HeaderSectionFound(p);
    TotalIsConcat(p);
  }

  /** What the end of a chunked body is recognised by. */
  function EndMark(head: seq<byte>): seq<byte> {
    if Header(head, TRAILER) != [] then EMPTY_LINE else LAST_CHUNK
  }

  /** A chunked message with its header section in the first segment is complete exactly when it has a
      body and its last segment ends in the mark, whatever the chunks say. */
  lemma CompleteByMark(p: seq<seq<byte>>)
    requires p != [] && HasTitle(p[0]) && HeadersEnd(p[0]) != -1 && SaysChunked(p[0])
    ensures Check(FRESH, p).1 <==> Total(p) > HeadersEnd(p[0]) && HasSuffix(p[|p| - 1], EndMark(p[0]))
  {
    hide Check, HasTitle, ParseHeaders, BodyPos, SaysChunked, HeadersEnd, HasSuffix, Total, HeadersStart, Header;
    FreshCheck(p);
    BodyPosAt(p, 0, 0);
    var st := FRESH.(headerStart := HeadersStart(p[0]), body := BodyPos(p, 0), headerEnd := BodyPos(p, 0));
    NoTotal(p);
    ParseChunked(st, p);
  }

  lemma NoTotal(p: seq<seq<byte>>)
    ensures Total(p[..0]) == 0
  {}

  lemma ParseChunked(st: Framing, p: seq<seq<byte>>)
    requires p != [] && SaysChunked(p[0]) && HeadersEnd(p[0]) != -1 && st.body == HeadersEnd(p[0])
    ensures var r := ParseHeaders(st, p, 0);
            r.isChunked && r.hasTrailer == (Header(p[0], TRAILER) != []) && r.body == st.body
  {
    hide SaysChunked, DeclaredLength, HeadersEnd, SaysContinue, Header;
    EndInside(p[0]);
  }

  /** An empty line that is split between segments is never seen: such a message never completes. */
  lemma SplitEmptyLine(p: seq<seq<byte>>)
    requires forall i :: 0 <= i < |p| ==> HeadersEnd(p[i]) == -1
    ensures !Check(FRESH, p).1
  {
    hide Check, HasTitle, HeadersEnd;
    FreshCheck(p);
    NoBodyPos(p, 0);
  }

  lemma {:induction false} NoBodyPos(p: seq<seq<byte>>, pos: nat)
    requires forall i :: 0 <= i < |p| ==> HeadersEnd(p[i]) == -1
    ensures BodyPos(p, pos) == -1
  {
    hide HeadersEnd;
    if p != [] {
      NoBodyPos(p[1..], pos + |p[0]|);
    }
  }
}
