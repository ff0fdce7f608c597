/** Requests as clients write them meet the conditions of the reassembly theorems. */
module ClientRequests {
  import opened Bytes
  import opened Decimal
  import opened Packets
  import opened Titles
  import opened Headers
  import opened HeaderEdits
  import opened HeaderLists
  import opened FullPayload
  import opened Messages
  import opened MessageLaws
  import opened StreamLaws
  import opened Chunked
  import opened ChunkedCuts
  import Paths
  import Reassembly
  import Continue100

  // ----- the header section ---------------------------------------------------------------

  /** A first line and header lines that can be put together. */
  predicate Written(line: Start, fields: seq<Field>) {
    line.Valid() && Writable(fields)
  }

  /** The last line added for Content-Length says `n`. */
  predicate States(fields: seq<Field>, k: nat, n: nat) {
    LastFor(fields, k, CONTENT_LENGTH) && fields[k].value == FormatNat(n)
  }

  lemma LengthDigits(n: nat)
    ensures ReadsBack(FormatNat(n))
    ensures n <= MAX_INT64 ==> AtoI(FormatNat(n), 10) == (n, true)
  {
    hide AtoI, FormatNat;
    var s := FormatNat(n);
    assert AllDigits(s);
    ValueOfFormat(n);
    if n <= MAX_INT64 {
      AtoIReads(s, 10);
    }
  }

  lemma SaysBy(p: seq<byte>)
    ensures Header(p, TRANSFER_ENCODING) == [] ==> !SaysChunked(p)
    ensures SaysContinue(p) <==> Header(p, EXPECT) == CONTINUE
    ensures DeclaredLength(p) == AtoI(Header(p, CONTENT_LENGTH), 10).0
    ensures CONTINUE != []
  {
    hide Header;
  }

  /** Header names are found in any case, their values in theirs. */
  lemma NamesInAnyCase(p: seq<byte>)
    ensures DeclaredLength(p) == AtoI(Header(p, Ascii("content-length")), 10).0
    ensures SaysContinue(p) <==> Header(p, Ascii("expect")) == Ascii("100-continue")
    ensures SaysChunked(p) <==> Header(p, Ascii("transfer-encoding")) != [] && Index(p, Ascii("chunked")) > 0
    ensures Header(p, TRAILER) == Header(p, Ascii("trailer"))
  {
    hide Header, AtoI, Index, EqualFold;
    NamesFold();
    FoldHeader(p, CONTENT_LENGTH, Ascii("content-length"));
    FoldHeader(p, EXPECT, Ascii("expect"));
    FoldHeader(p, TRANSFER_ENCODING, Ascii("transfer-encoding"));
    FoldHeader(p, TRAILER, Ascii("trailer"));
  }

  lemma NamesFold()
    ensures EqualFold(CONTENT_LENGTH, Ascii("content-length")) && EqualFold(EXPECT, Ascii("expect"))
    ensures EqualFold(TRANSFER_ENCODING, Ascii("transfer-encoding")) && EqualFold(TRAILER, Ascii("trailer"))
  {}

  lemma WrittenFacts(line: Start, fields: seq<Field>)
    requires Written(line, fields)
    ensures line.Valid() && Writable(fields)
    ensures Head(line, fields) == AddAll(Bare(line), fields) && OpenHead(Bare(line))
    ensures OpenHead(Head(line, fields)) && (HasRequestTitle(Head(line, fields)) <==> line.Ask?)
  {
    hide Start.Valid, Writable, AddAll, Bare, OpenHead, HasRequestTitle;
    BareIsOpen(line);
    HeadOpen(line, fields);
  }

  /** A written header section states the length it was given, is chunked only if a line says so, and
      expects only if a line says so. */
  lemma HeadStates(line: Start, fields: seq<Field>, k: nat, n: nat)
    requires Written(line, fields) && States(fields, k, n) && n <= MAX_INT64
    ensures var p := Head(line, fields);
            && OpenHead(p) && DeclaredLength(p) == n && Header(p, CONTENT_LENGTH) == FormatNat(n)
            && (Silent(fields, TRANSFER_ENCODING) ==> !SaysChunked(p))
            && (Silent(fields, EXPECT) ==> !SaysContinue(p))
  {
    hide *;
    var p := Head(line, fields);
    WrittenFacts(line, fields);
    LengthDigits(n);
    StatesFacts(fields, k, n);
    ListValue(Bare(line), fields, k, CONTENT_LENGTH);
    SaysBy(p);
    if Silent(fields, TRANSFER_ENCODING) {
      HeadSilent(line, fields, TRANSFER_ENCODING);
    }
    if Silent(fields, EXPECT) {
      HeadSilent(line, fields, EXPECT);
    }
  }

  lemma StatesFacts(fields: seq<Field>, k: nat, n: nat)
    requires States(fields, k, n)
    ensures k < |fields| && LastFor(fields, k, CONTENT_LENGTH) && fields[k].value == FormatNat(n)
  {
    hide Silent, FormatNat, EqualFold;
  }

  /** With bytes of the body behind it the header section still states its length. */
  lemma LengthBehind(p: seq<byte>, lead: seq<byte>)
    requires OpenHead(p) && Header(p, CONTENT_LENGTH) != []
    ensures DeclaredLength(p + lead) == DeclaredLength(p)
  {
    hide *;
    HeaderThere(p, CONTENT_LENGTH);
    ValueBehind(p, lead, CONTENT_LENGTH);
    SaysBy(p);
    SaysBy(p + lead);
  }

  lemma HeaderThere(p: seq<byte>, n: seq<byte>)
    ensures Header(p, n) != [] ==> Find(p, n).Some?
  {
    hide Find, LineValue, LineText;
  }

  // ----- segments ---------------------------------------------------------------------------

  /** Payloads sent one after the other, from `isn` on. */
  function Cut(isn: nat, payloads: seq<seq<byte>>): (r: seq<Pkt>)
    requires isn + Total(payloads) < 0x1_0000_0000
    ensures |r| == |payloads|
    ensures r != [] ==> r[0].seqNo == isn
    ensures forall i :: 0 <= i < |r| ==> r[i] == Reassembly.Segment(r[i].seqNo, payloads[i])
    decreases |payloads|
  {
    if payloads == [] then []
    else [Reassembly.Segment(isn, payloads[0])] + Cut(isn + |payloads[0]|, payloads[1..])
  }

  lemma {:induction false} CutNeighbours(isn: nat, payloads: seq<seq<byte>>)
    requires isn + Total(payloads) < 0x1_0000_0000
    ensures var segs := Cut(isn, payloads);
            Contiguous(segs) && Short(segs) && SumLength(segs) == Total(payloads)
    decreases |payloads|
  {
    hide Contiguous, Short, SumLength;
    if payloads == [] {
      NoNeighbours();
    } else {
      var rest := Cut(isn + |payloads[0]|, payloads[1..]);
      CutNeighbours(isn + |payloads[0]|, payloads[1..]);
      assert Reassembly.Segment(isn, payloads[0]).payload == payloads[0];
      Prepended(Reassembly.Segment(isn, payloads[0]), rest);
    }
  }

  lemma NoNeighbours()
    ensures Contiguous([]) && Short([]) && SumLength([]) == 0
  {}

  lemma Prepended(p: Pkt, rest: seq<Pkt>)
    requires Contiguous(rest) && Short(rest) && |p.payload| < 0x1_0000_0000
    requires rest != [] ==> rest[0].seqNo == p.seqNo + |p.payload|
    ensures Contiguous([p] + rest) && Short([p] + rest)
    ensures SumLength([p] + rest) == |p.payload| + SumLength(rest)
  {
    assert ([p] + rest)[1..] == rest;
  }

  lemma MessageBy(segs: seq<Pkt>)
    requires segs != [] && Contiguous(segs) && Short(segs)
    requires forall i :: 0 <= i < |segs| ==> segs[i] == Reassembly.Bare(segs[i]) && segs[i].payload != []
    requires forall i :: 1 <= i < |segs| ==> !HasTitle(segs[i].payload)
    requires var p := segs[0].payload; HasTitle(p) && HeadersEnd(p) != -1 && !SaysContinue(p)
    ensures Reassembly.HttpMessage(segs) <==> Reassembly.Finishes(segs)
    ensures Reassembly.HttpMessage(segs) ==>
              (Reassembly.Request(segs) <==> HasRequestTitle(segs[0].payload))
              && (Reassembly.Response(segs) <==> !HasRequestTitle(segs[0].payload))
  {
    hide HasTitle, SaysContinue, HeadersEnd, HasRequestTitle, HasSuffix, Contiguous, Short, Reassembly.Bare,
         Reassembly.Finishes;
  }

  lemma FirstNotEmpty(p: seq<byte>)
    requires HasTitle(p)
    ensures p != []
  {
    hide RequestLine, StatusLine;
  }

  /** The segments are those of a message of the side its first line says. */
  predicate SentBy(segs: seq<Pkt>, asks: bool) {
    if asks then Reassembly.Request(segs) else Reassembly.Response(segs)
  }

  /** Payloads whose first begins with a whole header section are the segments of a message of its side
      exactly if the last of them finishes it. */
  lemma CutMessage(first: seq<byte>, pieces: seq<seq<byte>>, isn: nat)
    requires HasTitle(first) && HeadersEnd(first) != -1 && !SaysContinue(first)
    requires forall i :: 0 <= i < |pieces| ==> pieces[i] != [] && !HasTitle(pieces[i])
    requires isn + Total([first] + pieces) < 0x1_0000_0000
    ensures var segs := Cut(isn, [first] + pieces);
            && (SentBy(segs, HasRequestTitle(first)) <==> Reassembly.Finishes(segs))
            && SumLength(segs) == |first| + Total(pieces)
            && Payloads(segs) == [first] + pieces
  {
    hide HasTitle, HasRequestTitle, HeadersEnd, SaysContinue, Contiguous, Short, SumLength, Total,
         Reassembly.HttpMessage, Reassembly.Finishes;
    FirstNotEmpty(first);
    PieceTotal(first, pieces);
    CutNeighbours(isn, [first] + pieces);
    MessageBy(Cut(isn, [first] + pieces));
  }

  /** Whatever the method and the path, or the status, the header lines and the bytes of the body, and
      however it is cut behind the header section, a message that states its length meets the conditions
      under which it is reassembled, as a request or as a response, unless a piece of its body starts like a
      message or its first segment is taken to be chunked or expecting. */
  lemma WrittenMessage(line: Start, fields: seq<Field>, k: nat, lead: seq<byte>, pieces: seq<seq<byte>>, isn: nat)
    requires Written(line, fields) && States(fields, k, |lead| + Total(pieces))
    requires var first := Head(line, fields) + lead; !SaysChunked(first) && !SaysContinue(first)
    requires forall i :: 0 <= i < |pieces| ==> pieces[i] != [] && !HasTitle(pieces[i])
    requires isn + |Head(line, fields)| + |lead| + Total(pieces) < 0x1_0000_0000
    ensures var payloads := [Head(line, fields) + lead] + pieces;
            && isn + Total(payloads) < 0x1_0000_0000
            && SentBy(Cut(isn, payloads), line.Ask?)
            && Payloads(Cut(isn, payloads)) == payloads
  {
    hide *;
    var p, first := Head(line, fields), Head(line, fields) + lead;
    PieceTotal(first, pieces);
    FitsMachineInt(|lead| + Total(pieces));
    WrittenFacts(line, fields);
    HeadStates(line, fields, k, |lead| + Total(pieces));
    NotEmptyNumber(|lead| + Total(pieces));
    BodyBehind(p, lead);
    LengthBehind(p, lead);
    CutMessage(first, pieces, isn);
    FinishesByLength(Cut(isn, [first] + pieces), first, pieces);
  }

  lemma NotEmptyNumber(n: nat)
    ensures FormatNat(n) != []
  {
    hide FormatNat;
    LengthDigits(n);
  }

  lemma FinishesByLength(segs: seq<Pkt>, p: seq<byte>, pieces: seq<seq<byte>>)
    requires Payloads(segs) == [p] + pieces && !SaysChunked(p)
    ensures segs != []
    ensures Reassembly.Finishes(segs) <==> SumLength(segs) == HeadersEnd(p) + DeclaredLength(p)
  {
    hide SaysChunked, HeadersEnd, DeclaredLength, SumLength;
    assert |segs| == |Payloads(segs)|;
    assert segs[0].payload == Payloads(segs)[0];
  }

  lemma FitsMachineInt(n: nat)
    requires n < 0x1_0000_0000
    ensures n <= MAX_INT64
  {}

  lemma PieceTotal(p: seq<byte>, pieces: seq<seq<byte>>)
    ensures Total([p] + pieces) == |p| + Total(pieces)
  {
    assert ([p] + pieces)[1..] == pieces;
  }

  // ----- chunked requests -------------------------------------------------------------------

  /** The last line added for Transfer-Encoding says, among other things, that the body is chunked. */
  predicate StatesChunked(fields: seq<Field>, k: nat) {
    LastFor(fields, k, TRANSFER_ENCODING) && ReadsBack(fields[k].value) && Index(fields[k].value, CHUNKED) != -1
  }

  lemma HeadChunked(line: Start, fields: seq<Field>, k: nat, lead: seq<byte>)
    requires Written(line, fields) && StatesChunked(fields, k)
    ensures SaysChunked(Head(line, fields) + lead)
  {
    hide *;
    var p := Head(line, fields);
    WrittenFacts(line, fields);
    ChunkedFacts(fields, k);
    ListValue(Bare(line), fields, k, TRANSFER_ENCODING);
    HeaderThere(p, TRANSFER_ENCODING);
    ValueBehind(p, lead, TRANSFER_ENCODING);
    BodyBehind(p, lead);
    HeaderInside(p + lead, TRANSFER_ENCODING);
    SaysChunkedBy(p + lead);
  }

  lemma ChunkedFacts(fields: seq<Field>, k: nat)
    requires StatesChunked(fields, k)
    ensures k < |fields| && LastFor(fields, k, TRANSFER_ENCODING) && ReadsBack(fields[k].value)
    ensures Index(fields[k].value, CHUNKED) != -1 && fields[k].value != []
  {
    hide Silent, EqualFold, Index;
  }

  /** A header value stands in the payload, behind a colon. */
  lemma HeaderInside(p: seq<byte>, n: seq<byte>)
    requires Index(Header(p, n), CHUNKED) != -1
    ensures Index(p, CHUNKED) != -1
  {
    hide *;
    var v := Header(p, n);
    ChunkedText();
    IndexAt(v);
    HeaderText(p, n);
    NothingInEmpty();
    FindBounds(p, n);
    var h := Find(p, n).value;
    HitText(p, h);
    var i := Index(v, CHUNKED);
    AtInside(p, ValueStart(p, h), ValueEnd(p, h), i);
    IndexAt(p);
  }

  lemma NothingInEmpty()
    ensures Index([], CHUNKED) == -1
  {}

  lemma ChunkedText()
    ensures |CHUNKED| == 7 && CHUNKED[0] == 99
  {}

  lemma IndexAt(s: seq<byte>)
    ensures Index(s, CHUNKED) == -1 <==> forall j :: !At(s, CHUNKED, j)
    ensures Index(s, CHUNKED) != -1 ==> At(s, CHUNKED, Index(s, CHUNKED))
  {
    hide At;
    assert forall j :: j < 0 ==> !At(s, CHUNKED, j) by { NotBefore(s); }
  }

  lemma NotBefore(s: seq<byte>)
    ensures forall j :: j < 0 ==> !At(s, CHUNKED, j)
  {}

  lemma AtInside(p: seq<byte>, from: nat, to: nat, i: int)
    requires from <= to <= |p| && At(p[from..to], CHUNKED, i)
    ensures At(p, CHUNKED, from + i)
  {
    hide CHUNKED;
    SliceOfSlice(p, from, to, i, i + |CHUNKED|);
  }

  lemma SaysChunkedBy(p: seq<byte>)
    requires HasTitle(p) && Header(p, TRANSFER_ENCODING) != [] && Index(p, CHUNKED) != -1
    ensures SaysChunked(p)
  {
    hide Header, HasTitle;
    TitleStarts(p);
    StartsWith(p);
  }

  lemma StartsWith(p: seq<byte>)
    requires p != [] && p[0] != 99
    ensures !At(p, CHUNKED, 0)
  {
    ChunkedText();
    if |p| >= 7 {
      assert p[0..7][0] == p[0];
    }
  }

  lemma TitleStarts(p: seq<byte>)
    requires HasTitle(p)
    ensures p != [] && p[0] != 99
  {
    hide RequestLine, StatusLine;
    if HasRequestTitle(p) {
      LineStarts(p[..Index(p, CRLF)]);
    } else {
      StatusStarts(p[..VERSION_LEN + 5]);
    }
  }

  lemma LineStarts(line: seq<byte>)
    requires RequestLine(line)
    ensures line != [] && line[0] != 99
  {
    hide IsHttp1, METHODS;
    var f := IndexByte(line, SPACE);
    MethodStart(line[..f]);
    assert line[0] == line[..f][0];
  }

  lemma StatusStarts(head: seq<byte>)
    requires |head| == VERSION_LEN + 5 && StatusLine(head)
    ensures head[0] != 99
  {
    hide IsHttp1, AtoI, KnownStatus;
    VersionStarts(head[..VERSION_LEN]);
    assert head[0] == head[..VERSION_LEN][..2][0];
  }

  /** A chunked message without trailers, of a quiet body, meets the conditions under which it is
      reassembled exactly if its last segment holds the whole end of the body and the zero chunk's line
      ends in the digit. */
  lemma WrittenChunked(line: Start, fields: seq<Field>, k: nat, cs: seq<Chunk>, lead: seq<byte>,
                      pieces: seq<seq<byte>>, isn: nat)
    requires Written(line, fields) && StatesChunked(fields, k)
    requires var first := Head(line, fields) + lead; !SaysContinue(first) && Header(first, TRAILER) == []
    requires GoodBody(cs) && QuietBody(cs) && CutOf([lead] + pieces, WriteChunks(cs))
    requires forall i :: 0 <= i < |pieces| ==> !HasTitle(pieces[i])
    requires isn + |Head(line, fields)| + |lead| + Total(pieces) < 0x1_0000_0000
    ensures var payloads := [Head(line, fields) + lead] + pieces;
            && isn + Total(payloads) < 0x1_0000_0000
            && Payloads(Cut(isn, payloads)) == payloads
            && (SentBy(Cut(isn, payloads), line.Ask?) <==>
                |([lead] + pieces)[|pieces|]| >= 5 && EndsInZero(cs[|cs| - 1]))
  {
    hide *;
    var p, first := Head(line, fields), Head(line, fields) + lead;
    PieceTotal(first, pieces);
    WrittenFacts(line, fields);
    HeadChunked(line, fields, k, lead);
    BodyBehind(p, lead);
    PiecesNotEmpty(lead, pieces, WriteChunks(cs));
    CutMessage(first, pieces, isn);
    LeadStart(cs, lead, pieces);
    FinishesByMark(Cut(isn, [first] + pieces), p, lead, pieces);
    CutMarksLast(cs, [lead] + pieces);
  }

  lemma PiecesNotEmpty(lead: seq<byte>, pieces: seq<seq<byte>>, w: seq<byte>)
    requires CutOf([lead] + pieces, w)
    ensures forall i :: 0 <= i < |pieces| ==> pieces[i] != []
  {
    var parts := [lead] + pieces;
    assert forall i :: 0 <= i < |pieces| ==> pieces[i] == parts[i + 1];
  }

  lemma LeadStart(cs: seq<Chunk>, lead: seq<byte>, pieces: seq<seq<byte>>)
    requires GoodBody(cs) && CutOf([lead] + pieces, WriteChunks(cs))
    ensures NoBreak(lead)
  {
    hide GoodChunk, WriteChunks;
    StartsWithDigit(cs);
    assert Concat([lead] + pieces) == lead + Concat(([lead] + pieces)[1..]);
  }

  /** The header section itself ends in an empty line; with body bytes behind it the mark is theirs. */
  lemma LeadMarked(p: seq<byte>, lead: seq<byte>)
    requires NoBreak(lead)
    ensures HasSuffix(p + lead, LAST_CHUNK) && lead != [] <==> HasSuffix(lead, LAST_CHUNK)
  {
    hide At, HasSuffix;
    SuffixIsAt(p + lead);
    SuffixIsAt(lead);
    MarkSplits(p, lead, |p + lead| - 5);
    MarkChars(p, |p + lead| - 5);
    MarkChars(lead, |lead| - 5);
  }

  lemma FinishesByMark(segs: seq<Pkt>, p: seq<byte>, lead: seq<byte>, pieces: seq<seq<byte>>)
    requires Payloads(segs) == [p + lead] + pieces && NoBreak(lead)
    requires SaysChunked(p + lead) && HeadersEnd(p + lead) == |p| && Header(p + lead, TRAILER) == []
    ensures segs != [] && (Reassembly.Finishes(segs) <==> MarksLast([lead] + pieces))
  {
    hide SaysChunked, HeadersEnd, HasSuffix, Header, NoBreak;
    LeadMarked(p, lead);
    var parts := [lead] + pieces;
    assert |segs| == |Payloads(segs)| == |parts|;
    assert segs[0].payload == Payloads(segs)[0] == p + lead;
    forall i | 0 <= i < |segs|
      ensures Reassembly.Marked(segs, i) <==> HasSuffix(parts[i], LAST_CHUNK)
    {
      assert segs[i].payload == Payloads(segs)[i];
    }
  }

  // ----- requests that wait for an interim response --------------------------------------------

  /** A request that asks for an interim response, with its body in one segment, meets the conditions of
      the 100-continue theorem; what is sent of it is the request without the Expect line. */
  lemma ClientExpecting(line: Start, fields: seq<Field>, k: nat, e: nat, body: seq<byte>, t: Pkt,
                        isn: nat)
    requires line.Ask? && Written(line, fields) && States(fields, k, |body|) && body != []
    requires LastFor(fields, e, EXPECT) && fields[e].value == CONTINUE && Silent(fields, TRANSFER_ENCODING)
    requires t.direction != DirOutcoming && t.spare == 0
    requires isn + |Head(line, fields)| + |body| < 0x1_0000_0000
    ensures var head := Head(line, fields);
            var p := t.(seqNo := isn, payload := head);
            && Continue100.Expecting(p, t.(ack := (t.ack + CONTINUE_LENGTH) % 0x1_0000_0000,
                                           seqNo := isn + |head|, payload := body))
            && Continue100.WithoutExpect(p) == Head(line, fields[..e] + fields[e + 1..])
  {
    hide *;
    var head := Head(line, fields);
    FitsMachineInt(|body|);
    WrittenFacts(line, fields);
    OpenFacts(head);
    HeadStates(line, fields, k, |body|);
    HeadExpects(line, fields, e);
    FirstNotEmpty(head);
    var p, q := PairOf(t, isn, head, body);
    ExpectingPair(p, q);
    LineOut(t.(seqNo := isn, payload := head));
    PayloadOf(t, isn, head);
  }

  lemma PayloadOf(t: Pkt, isn: nat, head: seq<byte>)
    requires isn < 0x1_0000_0000
    ensures t.(seqNo := isn, payload := head).payload == head
  {}

  lemma PairOf(t: Pkt, isn: nat, head: seq<byte>, body: seq<byte>) returns (p: Pkt, q: Pkt)
    requires isn + |head| + |body| < 0x1_0000_0000
    ensures p == t.(seqNo := isn, payload := head)
    ensures q == t.(ack := (t.ack + CONTINUE_LENGTH) % 0x1_0000_0000, seqNo := isn + |head|, payload := body)
    ensures SameEndpoints(p, q) && q.ack == (p.ack + CONTINUE_LENGTH) % 0x1_0000_0000
    ensures p.payload == head && q.payload == body && q.seqNo == p.seqNo + |head|
    ensures p.spare == t.spare && p.direction == t.direction
  {
    p := t.(seqNo := isn, payload := head);
    q := t.(ack := (t.ack + CONTINUE_LENGTH) % 0x1_0000_0000, seqNo := isn + |head|, payload := body);
  }

  lemma ExpectingPair(p: Pkt, q: Pkt)
    requires SameEndpoints(p, q) && q.ack == (p.ack + CONTINUE_LENGTH) % 0x1_0000_0000
    requires p.direction != DirOutcoming && p.spare == 0 && p.payload != [] && q.payload != []
    requires q.seqNo == p.seqNo + |p.payload|
    requires HasRequestTitle(p.payload) && HeadersEnd(p.payload) == |p.payload|
    requires SaysContinue(p.payload) && !SaysChunked(p.payload) && DeclaredLength(p.payload) == |q.payload|
    ensures Continue100.Expecting(p, q)
  {
    hide SameEndpoints, HasRequestTitle, HeadersEnd, SaysContinue, SaysChunked, DeclaredLength;
  }

  lemma HeadExpects(line: Start, fields: seq<Field>, e: nat)
    requires Written(line, fields) && LastFor(fields, e, EXPECT) && fields[e].value == CONTINUE
    ensures SaysContinue(Head(line, fields))
    ensures DeleteHeader(Head(line, fields), EXPECT) == Head(line, fields[..e] + fields[e + 1..])
  {
    hide *;
    WrittenFacts(line, fields);
    LastForFacts(fields, e, EXPECT);
    ContinueReads();
    ListValue(Bare(line), fields, e, EXPECT);
    ListDelete(Bare(line), fields, e, EXPECT);
    SaysBy(Head(line, fields));
    HeadIs(line, fields[..e] + fields[e + 1..]);
  }

  lemma HeadIs(line: Start, fields: seq<Field>)
    ensures Head(line, fields) == AddAll(Bare(line), fields)
  {
    hide AddAll, Bare;
  }

  lemma ContinueReads()
    ensures ReadsBack(CONTINUE)
  {}

  lemma LineOut(head: Pkt)
    requires SaysContinue(head.payload)
    ensures Continue100.WithoutExpect(head) == DeleteHeader(head.payload, EXPECT)
  {
    hide Find;
    Continue100.ExpectFound(head.payload);
    DeleteIs(head.payload, EXPECT, Find(head.payload, EXPECT).value);
  }
}
