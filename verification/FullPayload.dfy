/** proto.go: `HasFullPayload`, the test whether the segments of a message are complete, which keeps
    what it learned about the header section in an `HTTPState` between calls. */
module FullPayload {
  import opened Bytes
  import opened Decimal
  import opened Titles
  import opened Headers

  /** The value of an `HTTPState`. */
  datatype Framing = Framing(
    body: int,
    headerStart: int,
    headerEnd: int,
    headerParsed: bool,
    hasFullPayload: bool,
    isChunked: bool,
    bodyLen: int,
    hasTrailer: bool,
    continue100: bool)

  const FRESH := Framing(0, 0, 0, false, false, false, 0, false, false)

  const TRANSFER_ENCODING := Ascii("Transfer-Encoding")
  const CHUNKED := Ascii("chunked")
  const TRAILER := Ascii("Trailer")
  const CONTENT_LENGTH := Ascii("Content-Length")
  const EXPECT := Ascii("Expect")
  const CONTINUE := Ascii("100-continue")
  const LAST_CHUNK: seq<byte> := [48] + EMPTY_LINE

  function Total(payloads: seq<seq<byte>>): nat {
    if payloads == [] then 0 else |payloads[0]| + Total(payloads[1..])
  }

  /** The index behind the first empty line that lies inside one segment, counted from `pos`. */
  function BodyPos(payloads: seq<seq<byte>>, pos: nat): (r: int)
    ensures r == -1 || pos + 4 <= r <= pos + Total(payloads)
  {
    if payloads == [] then -1
    else
      var end := HeadersEnd(payloads[0]);
      if end >= 0 then pos + end else BodyPos(payloads[1..], pos + |payloads[0]|)
  }

  predicate SaysChunked(data: seq<byte>) {
    Header(data, TRANSFER_ENCODING) != [] && Index(data, CHUNKED) > 0
  }

  predicate SaysContinue(data: seq<byte>) {
    Header(data, EXPECT) == CONTINUE
  }

  function DeclaredLength(data: seq<byte>): int64 {
    AtoI(Header(data, CONTENT_LENGTH), 10).0
  }

  /** What one segment tells about the body. */
  function ReadHeaders(st: Framing, data: seq<byte>): Framing {
    var st1 := if SaysChunked(data) then st.(isChunked := true, hasTrailer := Header(data, TRAILER) != [])
               else st.(bodyLen := DeclaredLength(data));
    if SaysContinue(data) then st1.(continue100 := true) else st1
  }

  /** The header loop: segments are read until a positive length is known or the header section ends. */
  function ParseHeaders(st: Framing, payloads: seq<seq<byte>>, pos: nat): Framing
    decreases |payloads|
  {
    if payloads == [] then st
    else
      var st1 := ReadHeaders(st, payloads[0]);
      if st1.bodyLen > 0 || pos + |payloads[0]| >= st.body then st1.(headerParsed := true)
      else ParseHeaders(st1, payloads[1..], pos + |payloads[0]|)
  }

  function LocateStart(st: Framing, payloads: seq<seq<byte>>): Framing
    requires payloads != []
  {
    if st.headerStart < 1 then st.(headerStart := HeadersStart(payloads[0])) else st
  }

  function LocateBody(st: Framing, payloads: seq<seq<byte>>): Framing {
    if st.body < 1 || st.headerEnd < 1 then
      var pos := BodyPos(payloads, 0);
      if pos == -1 then st else st.(body := pos, headerEnd := pos)
    else st
  }

  /** The final test on the segments, once the header section is known. */
  function Complete(st: Framing, payloads: seq<seq<byte>>): bool
    requires payloads != []
  {
    var last := payloads[|payloads| - 1];
    if st.isChunked then
      Total(payloads) - st.body >= 1 && HasSuffix(last, if st.hasTrailer then EMPTY_LINE else LAST_CHUNK)
    else
      st.bodyLen == Total(payloads) - st.body
  }

  /** `HasFullPayload`: the state it leaves and its answer. */
  function Check(st: Framing, payloads: seq<seq<byte>>): (Framing, bool) {
    if payloads == [] || !HasTitle(payloads[0]) then (st, false)
    else
      var st1 := LocateStart(st, payloads);
      if st1.headerStart < 0 then (st1, false)
      else
        var st2 := LocateBody(st1, payloads);
        if st2.headerEnd < 1 then (st2, false)
        else
          var st3 := if st2.headerParsed then st2 else ParseHeaders(st2, payloads, 0);
          var full := Complete(st3, payloads);
          (if full && st3.isChunked && !st3.hasTrailer then st3.(hasFullPayload := true) else st3, full)
  }

  // ----- the state object -----------------------------------------------------------------

  class HTTPState {
    var Body: int
    var HeaderStart: int
    var HeaderEnd: int
    var HeaderParsed: bool
    var HasFullPayload: bool
    var IsChunked: bool
    var BodyLen: int
    var HasTrailer: bool
    var Continue100: bool

    constructor ()
      ensures View() == FRESH
    {
      Body, HeaderStart, HeaderEnd, BodyLen := 0, 0, 0, 0;
      HeaderParsed, HasFullPayload, IsChunked, HasTrailer, Continue100 := false, false, false, false, false;
    }

    ghost function View(): Framing
      reads this
    {
      Framing(Body, HeaderStart, HeaderEnd, HeaderParsed, HasFullPayload, IsChunked, BodyLen, HasTrailer,
              Continue100)
    }

    /** The loop that looks for the empty line. */
    method FindBody(payloads: seq<seq<byte>>)
      modifies this
      ensures View() == LocateBody(old(View()), payloads)
    {
      hide HeadersEnd;
      if Body >= 1 && HeaderEnd >= 1 {
        return;
      }
      var pos, i := 0, 0;
      while i < |payloads|
        invariant 0 <= i <= |payloads| && 0 <= pos
        invariant View() == old(View())
        invariant BodyPos(payloads, 0) == BodyPos(payloads[i..], pos)
      {
        var data := payloads[i];
        assert payloads[i..][1..] == payloads[i + 1..];
        var endPos := HeadersEnd(data);
        if endPos < 0 {
          pos := pos + |data|;
        } else {
          pos := pos + endPos;
          HeaderEnd := pos;
          Body := pos;
          return;
        }
        i := i + 1;
      }
    }

    /** One pass of the header loop. */
    method ReadSegment(data: seq<byte>)
      modifies this
      ensures View() == ReadHeaders(old(View()), data)
    {
      hide SaysChunked, SaysContinue, DeclaredLength;
      ReadBody(data);
      ReadExpect(data);
    }

    /** The first half of a pass: what the segment tells about the length of the body. */
    method ReadBody(data: seq<byte>)
      modifies this
      ensures View() == if SaysChunked(data) then
                          old(View()).(isChunked := true, hasTrailer := Header(data, TRAILER) != [])
                        else old(View()).(bodyLen := DeclaredLength(data))
    {
      hide Header, Index, DeclaredLength;
      var chunked := GetHeader(data, TRANSFER_ENCODING);
      if |chunked| > 0 && Index(data, CHUNKED) > 0 {
        IsChunked := true;
        var trailer := GetHeader(data, TRAILER);
        HasTrailer := |trailer| > 0;
      } else {
        var n := GetLength(data);
        BodyLen := n;
      }
    }

    /** The second half of a pass: whether the segment announces a 100-continue. */
    method ReadExpect(data: seq<byte>)
      modifies this
      ensures View() == old(View()).(continue100 := old(Continue100) || SaysContinue(data))
    {
      hide Header;
      var expected := GetHeader(data, EXPECT);
      if expected == CONTINUE {
        Continue100 := true;
      }
    }

    method ParseSegments(payloads: seq<seq<byte>>)
      modifies this
      ensures View() == ParseHeaders(old(View()), payloads, 0)
    {
      hide ReadHeaders;
      var pos, i := 0, 0;
      while i < |payloads|
        invariant 0 <= i <= |payloads| && 0 <= pos && Body == old(Body)
        invariant ParseHeaders(old(View()), payloads, 0) == ParseHeaders(View(), payloads[i..], pos)
      {
        assert payloads[i..][1..] == payloads[i + 1..];
        ghost var was := View();
        KeepsBody(was, payloads[i]);
        ReadSegment(payloads[i]);
        pos := pos + |payloads[i]|;
        if BodyLen > 0 || pos >= Body {
          HeaderParsed := true;
          return;
        }
        i := i + 1;
      }
    }

    /** `HasFullPayload` on a message whose protocol state is this object. */
    method HasFull(payloads: seq<seq<byte>>) returns (full: bool)
      modifies this
      ensures (View(), full) == Check(old(View()), payloads)
    {
      hide HasTitle, HeadersStart, BodyPos, ParseHeaders, HasSuffix;
      if |payloads| == 0 || !HasTitle(payloads[0]) {
        return false;
      }
      if HeaderStart < 1 {
        HeaderStart := HeadersStart(payloads[0]);
        if HeaderStart < 0 {
          return false;
        }
      }
      FindBody(payloads);
      if HeaderEnd < 1 {
        return false;
      }
      if !HeaderParsed {
        ParseSegments(payloads);
      }
      var bodyLen := SumLengths(payloads);
      bodyLen := bodyLen - Body;
      var last := payloads[|payloads| - 1];
      if IsChunked {
        if bodyLen < 1 {
          return false;
        }
        if HasTrailer {
          return HasSuffix(last, EMPTY_LINE);
        }
        if HasSuffix(last, LAST_CHUNK) {
          HasFullPayload := true;
          return true;
        }
        return false;
      }
      full := BodyLen == bodyLen;
    }
  }

  /** The value `header` returns, without its positions. */
  method GetHeader(data: seq<byte>, name: seq<byte>) returns (value: seq<byte>)
    ensures value == Header(data, name)
  {
    hide *;
    var text, _, _, _, _, _ := FindHeader(data, name);
    return text;
  }

  method GetLength(data: seq<byte>) returns (n: int)
    ensures n == DeclaredLength(data)
  {
    hide Header, AtoI;
    var text := GetHeader(data, CONTENT_LENGTH);
    var length, _ := ParseUnsigned(text, 10);
    return length;
  }

  method SumLengths(payloads: seq<seq<byte>>) returns (n: int)
    ensures n == Total(payloads)
  {
    n := 0;
    for i := 0 to |payloads|
      invariant n + Total(payloads[i..]) == Total(payloads)
    {
      assert payloads[i..][1..] == payloads[i + 1..];
      n := n + |payloads[i]|;
    }
  }

  lemma KeepsBody(st: Framing, data: seq<byte>)
    ensures ReadHeaders(st, data).body == st.body
  {
    hide SaysChunked, SaysContinue, DeclaredLength;
  }
}
