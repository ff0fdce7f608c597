/** proto.go: `CheckChunked`, which measures how much of a chunked body has arrived in full. */
module Chunked {
  import opened Bytes
  import opened Decimal

  const SEMICOLON: byte := 59

  /** The size text at `at` has sixteen hexadecimal digits or more: too many for a machine int. */
  predicate LongSize(buf: seq<byte>, at: nat) {
    at + 16 <= |buf| && forall i :: at <= i < at + 16 ==> IsDigit(buf[i], 16)
  }

  /** One chunk at `at`: where it ends and whether it is the last, if it is there in full. The two LFs
      are tested together, by the AND of their bytes. */
  function ChunkAt(buf: seq<byte>, at: nat): Option<(nat, bool)>
    requires at < |buf| && !LongSize(buf, at)
    ensures ChunkAt(buf, at).Some? ==> at + 4 <= ChunkAt(buf, at).value.0 <= |buf|
  {
    var cr := IndexByte(buf[at..], CR);
    if cr < 1 then None
    else
      var text := buf[at..at + cr];
      var (chkLen, ok) := AtoI(text, 16);
      SmallSize(buf, at, cr);
      if !ok && IndexByte(text, SEMICOLON) < 1 then None
      else
        var sz := at + cr + 1;
        var allChunk := sz + chkLen + 2;
        if allChunk >= |buf| || BitAnd(buf[sz], buf[allChunk]) != LF || buf[allChunk - 1] != CR then None
        else Some((allChunk + 1, chkLen == 0))
  }

  /** The scan from `at` on: the end of the last full chunk, and whether the zero chunk was seen. */
  function Scan(buf: seq<byte>, at: nat): (nat, bool)
    decreases |buf| - at
  {
    if at >= |buf| || LongSize(buf, at) then (at, false)
    else
      match ChunkAt(buf, at)
      case None => (at, false)
      case Some((next, last)) => if last then (next, true) else Scan(buf, next)
  }

  /** No size text the scan comes to is too long for a machine int. */
  predicate ShortSizes(buf: seq<byte>, at: nat)
    decreases |buf| - at
  {
    at >= |buf| ||
    (!LongSize(buf, at) &&
     match ChunkAt(buf, at)
     case None => true
     case Some((next, last)) => last || ShortSizes(buf, next))
  }

  // ----- size texts -------------------------------------------------------------------------

  function Digits(s: seq<byte>): (r: nat)
    ensures r <= |s| && (forall i :: 0 <= i < r ==> IsDigit(s[i], 16))
    ensures r < |s| ==> !IsDigit(s[r], 16)
  {
    if s == [] || !IsDigit(s[0], 16) then 0 else 1 + Digits(s[1..])
  }

  lemma {:induction false} SmallValue(s: seq<byte>)
    requires forall i :: 0 <= i < |s| ==> IsDigit(s[i], 16)
    ensures Value(s, 16) < Pow16(|s|)
  {
    if s != [] {
      SmallValue(s[..|s| - 1]);
    }
  }

  function Pow16(n: nat): nat {
    if n == 0 then 1 else 16 * Pow16(n - 1)
  }

  lemma {:induction false} Pow16Grows(a: nat, b: nat)
    requires a <= b
    ensures Pow16(a) <= Pow16(b)
  {
    if a < b {
      Pow16Grows(a, b - 1);
    }
  }

  lemma Pow16Fits()
    ensures Pow16(15) <= MAX_INT64
  {
    assert Pow16(5) == 0x10_0000;
    assert Pow16(10) == 0x100_0000_0000;
  }

  /** Fewer than sixteen digits at the front make a number that fits, and `atoI` reads it. */
  lemma ShortText(s: seq<byte>)
    requires Digits(s) < 16
    ensures AtoI(s, 16) == (Value(s[..Digits(s)], 16), Digits(s) == |s|)
  {
    hide AtoI, Value, IsDigit, Pow16;
    var n := Digits(s);
    var t := s[..n];
    SmallValue(t);
    Pow16Grows(n, 15);
    Pow16Fits();
    AtoIReads(t, 16);
    if n < |s| {
      AtoIStops(s, 16, n);
    } else {
      assert t == s;
    }
  }

  lemma SmallSize(buf: seq<byte>, at: nat, cr: nat)
    requires at + cr <= |buf| && !LongSize(buf, at)
    ensures AtoI(buf[at..at + cr], 16).0 >= 0
  {
    hide AtoI, IsDigit;
    var text := buf[at..at + cr];
    if Digits(text) < 16 {
      ShortText(text);
    } else {
      assert forall i :: at <= i < at + 16 ==> buf[i] == text[i - at];
      assert false;
    }
  }

  /** `ChunkAt` from its parts. */
  lemma ChunkIs(buf: seq<byte>, at: nat, cr: nat, n: nat)
    requires at < |buf| && !LongSize(buf, at)
    requires cr >= 1 && IndexByte(buf[at..], CR) == cr && AtoI(buf[at..at + cr], 16).0 == n
    requires AtoI(buf[at..at + cr], 16).1 || IndexByte(buf[at..at + cr], SEMICOLON) >= 1
    ensures var end := at + cr + n + 3;
            ChunkAt(buf, at) == if end >= |buf| || BitAnd(buf[at + cr + 1], buf[end]) != LF || buf[end - 1] != CR
                                then None else Some((end + 1, n == 0))
  {
    hide AtoI, IndexByte, BitAnd, LongSize;
  }

  // ----- the loop -----------------------------------------------------------------------------

  /** The body of the scanning loop. */
  method ReadChunk(buf: seq<byte>, chunkEnd: nat) returns (r: Option<(nat, bool)>)
    requires chunkEnd < |buf| && !LongSize(buf, chunkEnd)
    ensures r == ChunkAt(buf, chunkEnd)
  {
    hide AtoI, IndexByte, BitAnd, LongSize;
    var sz := IndexByte(buf[chunkEnd..], CR);
    if sz < 1 {
      return None;
    }
    sz := sz + chunkEnd;
    var text := buf[chunkEnd..sz];
    var chkLen, ok := ParseUnsigned(text, 16);
    if !ok && IndexByte(text, SEMICOLON) < 1 {
      return None;
    }
    SmallSize(buf, chunkEnd, sz - chunkEnd);
    sz := sz + 1;
    var allChunk := sz + chkLen + 2;
    if allChunk >= |buf| || BitAnd(buf[sz], buf[allChunk]) != LF || buf[allChunk - 1] != CR {
      return None;
    }
    r := Some((allChunk + 1, chkLen == 0));
  }

  /** `CheckChunked`. */
  method CheckChunked(bufs: seq<seq<byte>>) returns (chunkEnd: nat, full: bool)
    requires bufs != [] ==> ShortSizes(bufs[0], 0)
    ensures (chunkEnd, full) == if bufs == [] then (0, false) else Scan(bufs[0], 0)
  {
    hide ChunkAt, LongSize;
    chunkEnd, full := 0, false;
    if |bufs| == 0 {
      return;
    }
    var buf := bufs[0];
    while chunkEnd < |buf|
      invariant !full && Scan(buf, 0) == Scan(buf, chunkEnd) && ShortSizes(buf, chunkEnd)
      decreases |buf| - chunkEnd
    {
      var chunk := ReadChunk(buf, chunkEnd);
      if chunk == None {
        break;
      }
      ChunkMoves(buf, chunkEnd);
      var (next, last) := chunk.value;
      chunkEnd := next;
      if last {
        full := true;
        break;
      }
    }
  }

  // ----- more bytes never take anything back ---------------------------------------------------

  lemma ChunkStable(buf: seq<byte>, more: seq<byte>, at: nat)
    requires at < |buf| && !LongSize(buf, at) && ChunkAt(buf, at).Some?
    ensures !LongSize(buf + more, at) && ChunkAt(buf + more, at) == ChunkAt(buf, at)
  {
    hide AtoI, BitAnd, LongSize, IndexByte, ChunkAt;
    var cr, n := ChunkParts(buf, at);
    var all := buf + more;
    var text, post := buf[at..at + cr], buf[at + cr..];
    NotLonger(buf, more, at, cr);
    SameFirstCr(buf, more, at, cr);
    assert all[at..at + cr] == text;
    ChunkIs(all, at, cr, n);
  }

  lemma SameFirstCr(buf: seq<byte>, more: seq<byte>, at: nat, cr: nat)
    requires at + cr < |buf| && IndexByte(buf[at..], CR) == cr
    ensures IndexByte((buf + more)[at..], CR) == cr
  {
    hide IndexByte;
    var rest := buf[at..];
    assert (buf + more)[at..] == rest + more;
    assert rest[..cr] == (rest + more)[..cr] && rest[cr] == CR;
    IndexByteIs(rest + more, CR, cr);
  }

  /** The parts of a chunk that was read. */
  lemma ChunkParts(buf: seq<byte>, at: nat) returns (cr: nat, n: nat)
    requires at < |buf| && !LongSize(buf, at) && ChunkAt(buf, at).Some?
    ensures cr >= 1 && at + cr + n + 3 < |buf| && IndexByte(buf[at..], CR) == cr && buf[at + cr] == CR
    ensures AtoI(buf[at..at + cr], 16).0 == n
    ensures AtoI(buf[at..at + cr], 16).1 || IndexByte(buf[at..at + cr], SEMICOLON) >= 1
    ensures BitAnd(buf[at + cr + 1], buf[at + cr + n + 3]) == LF && buf[at + cr + n + 2] == CR
    ensures ChunkAt(buf, at) == Some((at + cr + n + 4, n == 0))
  {
    hide AtoI, IndexByte, BitAnd, LongSize;
    cr := IndexByte(buf[at..], CR);
    SmallSize(buf, at, cr);
    n := AtoI(buf[at..at + cr], 16).0;
  }

  lemma CrNoDigit()
    ensures !IsDigit(CR, 16) && !IsDigit(SEMICOLON, 16)
  {}

  lemma NotLonger(buf: seq<byte>, more: seq<byte>, at: nat, cr: nat)
    requires at + cr < |buf| && buf[at + cr] == CR && !LongSize(buf, at)
    ensures !LongSize(buf + more, at)
  {
    hide IsDigit;
    CrNoDigit();
    assert (buf + more)[at + cr] == CR;
    assert forall i :: 0 <= i < |buf| ==> (buf + more)[i] == buf[i];
  }

  /** Prefix stability: further bytes never lower the end of the checked chunks, and never change the
      answer once it is full. */
  lemma {:induction false} ScanStable(buf: seq<byte>, more: seq<byte>, at: nat)
    ensures Scan(buf, at).0 <= Scan(buf + more, at).0
    ensures Scan(buf, at).1 ==> Scan(buf + more, at) == Scan(buf, at)
    decreases |buf| - at
  {
    hide ChunkAt, LongSize;
    ScanForward(buf + more, at);
    if at < |buf| && !LongSize(buf, at) && ChunkAt(buf, at).Some? {
      ChunkStable(buf, more, at);
      ChunkMoves(buf, at);
      var (next, last) := ChunkAt(buf, at).value;
      if !last {
        ScanStable(buf, more, next);
      }
    }
  }

  lemma ChunkMoves(buf: seq<byte>, at: nat)
    requires at < |buf| && !LongSize(buf, at)
    ensures ChunkAt(buf, at).Some? ==> at + 4 <= ChunkAt(buf, at).value.0 <= |buf|
  {}

  lemma {:induction false} ScanForward(buf: seq<byte>, at: nat)
    ensures at <= Scan(buf, at).0
    decreases |buf| - at
  {
    hide LongSize;
    if at < |buf| && !LongSize(buf, at) && ChunkAt(buf, at).Some? {
      ScanForward(buf, ChunkAt(buf, at).value.0);
    }
  }

  // ----- encodings ------------------------------------------------------------------------------

  /** A chunk as it is sent: size text, extensions, data. */
  datatype Chunk = Chunk(size: seq<byte>, ext: seq<byte>, data: seq<byte>)

  predicate GoodChunk(c: Chunk) {
    && 1 <= |c.size| < 16
    && (forall i :: 0 <= i < |c.size| ==> IsDigit(c.size[i], 16))
    && Value(c.size, 16) == |c.data|
    && (c.ext == [] || (c.ext[0] == SEMICOLON && CR !in c.ext))
  }

  function WriteChunk(c: Chunk): (r: seq<byte>)
    ensures |r| == |c.size| + |c.ext| + 4 + |c.data|
  {
    c.size + c.ext + CRLF + c.data + CRLF
  }

  function WriteChunks(cs: seq<Chunk>): seq<byte> {
    if cs == [] then [] else WriteChunk(cs[0]) + WriteChunks(cs[1..])
  }

  /** A body: non-empty chunks and the zero chunk. */
  predicate GoodBody(cs: seq<Chunk>) {
    && cs != []
    && (forall i :: 0 <= i < |cs| ==> GoodChunk(cs[i]))
    && (forall i :: 0 <= i < |cs| - 1 ==> cs[i].data != [])
    && cs[|cs| - 1].data == []
  }

  lemma {:induction false} DigitsOf(size: seq<byte>, rest: seq<byte>)
    requires forall i :: 0 <= i < |size| ==> IsDigit(size[i], 16)
    requires rest == [] || !IsDigit(rest[0], 16)
    ensures Digits(size + rest) == |size|
  {
    hide IsDigit;
    if size != [] {
      assert (size + rest)[1..] == size[1..] + rest;
      DigitsOf(size[1..], rest);
    } else {
      assert size + rest == rest;
    }
  }

  /** The size line of a chunk in a buffer: no CR before its end, and the size it states. */
  lemma SizeLine(pre: seq<byte>, c: Chunk, post: seq<byte>)
    requires GoodChunk(c)
    ensures var buf := pre + c.size + c.ext + post;
            var text := c.size + c.ext;
            && buf[|pre|..|pre| + |text|] == text
            && CR !in text
            && AtoI(text, 16) == (|c.data|, c.ext == [])
            && (c.ext != [] ==> IndexByte(text, SEMICOLON) >= 1)
  {
    hide AtoI, Value;
    var text := c.size + c.ext;
    assert !IsDigit(SEMICOLON, 16) && !IsDigit(CR, 16);
    DigitsOf(c.size, c.ext);
    assert text[..|c.size|] == c.size;
    ShortText(text);
    forall i | 0 <= i < |text|
      ensures text[i] != CR
    {
      if i < |c.size| {
        assert text[i] == c.size[i];
      } else {
        assert text[i] == c.ext[i - |c.size|];
      }
    }
    if c.ext != [] {
      assert text[|c.size|] == SEMICOLON;
      assert text[0] == c.size[0];
    }
  }

  lemma BothLf()
    ensures BitAnd(LF, LF) == LF
  {
    assert BitAnd(0, 0) == 0;
    assert BitAnd(1, 1) == 1;
    assert BitAnd(2, 2) == 2;
    assert BitAnd(5, 5) == 5;
  }

  lemma NoLongSize(pre: seq<byte>, c: Chunk, post: seq<byte>)
    requires GoodChunk(c) && (c.ext == [] ==> post == [] || post[0] == CR)
    ensures !LongSize(pre + c.size + c.ext + post, |pre|)
  {
    var buf := pre + c.size + c.ext + post;
    var k := |pre| + |c.size|;
    assert !IsDigit(SEMICOLON, 16) && !IsDigit(CR, 16);
    if k < |buf| {
      assert buf[k] == if c.ext != [] then c.ext[0] else post[0];
    }
  }

  /** A whole chunk is read to its end, whatever stands around it. */
  lemma WholeChunk(pre: seq<byte>, c: Chunk, tail: seq<byte>)
    requires GoodChunk(c)
    ensures var buf := pre + WriteChunk(c) + tail;
            && !LongSize(buf, |pre|)
            && ChunkAt(buf, |pre|) == Some((|pre| + |WriteChunk(c)|, c.data == []))
  {
    hide AtoI, LongSize, GoodChunk, BitAnd, IndexByte, ChunkAt;
    var text, post := c.size + c.ext, CRLF + c.data + CRLF + tail;
    assert pre + WriteChunk(c) + tail == pre + text + post;
    WholeChunkAt(pre, c, text, post, tail);
  }

  lemma WholeChunkAt(pre: seq<byte>, c: Chunk, text: seq<byte>, post: seq<byte>, tail: seq<byte>)
    requires GoodChunk(c) && text == c.size + c.ext && post == CRLF + c.data + CRLF + tail
    ensures var buf := pre + text + post;
            && !LongSize(buf, |pre|)
            && ChunkAt(buf, |pre|) == Some((|pre| + |text| + |c.data| + 4, c.data == []))
  {
    hide *;
    TextSplit(pre, c, post);
    StartsWithCr(c.data, tail);
    BehindSize(pre + text, c.data, tail);
    SizeLine(pre, c, post);
    NoLongSize(pre, c, post);
    SizeNotEmpty(c);
    FirstCr(pre, text, post);
    BothLf();
    ChunkIs(pre + text + post, |pre|, |text|, |c.data|);
  }

  lemma TextSplit(pre: seq<byte>, c: Chunk, post: seq<byte>)
    ensures pre + c.size + c.ext + post == pre + (c.size + c.ext) + post
  {}

  lemma StartsWithCr(data: seq<byte>, tail: seq<byte>)
    ensures var post := CRLF + data + CRLF + tail;
            post != [] && post[0] == CR
  {}

  /** The first CR of a chunk ends its size line. */
  lemma FirstCr(pre: seq<byte>, text: seq<byte>, post: seq<byte>)
    requires CR !in text && post != [] && post[0] == CR
    ensures IndexByte((pre + text + post)[|pre|..], CR) == |text|
  {
    var s := (pre + text + post)[|pre|..];
    assert s == text + post;
    assert s[..|text|] == text && s[|text|] == CR;
    IndexByteIs(s, CR, |text|);
  }

  lemma BehindSize(front: seq<byte>, data: seq<byte>, tail: seq<byte>)
    ensures var buf := front + (CRLF + data + CRLF + tail);
            var n := |front|;
            |buf| == n + |data| + 4 + |tail| && buf[n] == CR
            && buf[n + 1] == LF && buf[n + |data| + 2] == CR && buf[n + |data| + 3] == LF
  {}

  lemma SizeNotEmpty(c: Chunk)
    requires GoodChunk(c)
    ensures |c.size| >= 1
  {}

  /** A chunk that has not arrived in full is not counted. */
  lemma PartChunk(pre: seq<byte>, c: Chunk, k: nat)
    requires GoodChunk(c) && 0 < k < |WriteChunk(c)|
    ensures var buf := pre + WriteChunk(c)[..k];
            !LongSize(buf, |pre|) && ChunkAt(buf, |pre|) == None
  {
    hide AtoI, LongSize, GoodChunk, BitAnd, IndexByte, ChunkAt;
    var w := WriteChunk(c);
    var buf := pre + w[..k];
    var text := c.size + c.ext;
    var n := |text|;
    SizeLine([], c, CRLF + c.data + CRLF);
    SizeNotEmpty(c);
    PartNotLong(pre, c, k);
    assert w == text + CRLF + c.data + CRLF;
    if k <= n {
      assert w[..k] == text[..k];
      assert CR !in w[..k];
      NoCr(buf, |pre|, w[..k]);
    } else {
      var post := w[n..k];
      assert buf == pre + text + post && post[0] == CR;
      FirstCr(pre, text, post);
      assert buf[|pre|..|pre| + n] == text;
      ChunkIs(buf, |pre|, n, |c.data|);
    }
  }

  lemma NoCr(buf: seq<byte>, at: nat, rest: seq<byte>)
    requires at < |buf| && !LongSize(buf, at) && buf[at..] == rest && CR !in rest
    ensures ChunkAt(buf, at) == None
  {
    hide AtoI, BitAnd, LongSize;
  }

  lemma PartNotLong(pre: seq<byte>, c: Chunk, k: nat)
    requires GoodChunk(c) && k < |WriteChunk(c)|
    ensures !LongSize(pre + WriteChunk(c)[..k], |pre|)
  {
    hide Value;
    var w := WriteChunk(c);
    var buf := pre + w[..k];
    assert w == c.size + c.ext + (CRLF + c.data + CRLF);
    NoLongSize(pre, c, CRLF + c.data + CRLF);
    var all := pre + w;
    assert all == pre + c.size + c.ext + (CRLF + c.data + CRLF);
    assert forall i :: 0 <= i < |buf| ==> buf[i] == all[i];
  }

  /** Completeness: on the encoding of any chunked body, with anything behind it, the scan returns
      exactly the encoding's length, and full. */
  lemma {:induction false} ScanComplete(pre: seq<byte>, cs: seq<Chunk>, tail: seq<byte>)
    requires GoodBody(cs)
    ensures Scan(pre + WriteChunks(cs) + tail, |pre|) == (|pre| + |WriteChunks(cs)|, true)
    decreases |cs|
  {
    hide ChunkAt, LongSize, GoodChunk, Scan, WriteChunk;
    var c, rest := cs[0], WriteChunks(cs[1..]) + tail;
    var buf := pre + WriteChunks(cs) + tail;
    assert buf == pre + WriteChunk(c) + rest;
    WholeChunk(pre, c, rest);
    ScanStep(buf, |pre|);
    if |cs| > 1 {
      ScanComplete(pre + WriteChunk(c), cs[1..], tail);
      assert buf == pre + WriteChunk(c) + WriteChunks(cs[1..]) + tail;
    }
  }

  lemma ScanStep(buf: seq<byte>, at: nat)
    requires at < |buf| && !LongSize(buf, at)
    ensures var r := ChunkAt(buf, at);
            Scan(buf, at)
            == if r == None then (at, false) else if r.value.1 then (r.value.0, true) else Scan(buf, r.value.0)
  {
    hide ChunkAt, LongSize;
  }

  /** On a proper prefix of the encoding the scan stops at the last chunk boundary, and is not full:
      the first `j` chunks have arrived and `k` bytes of the next. */
  lemma {:induction false} ScanPartial(pre: seq<byte>, cs: seq<Chunk>, j: nat, k: nat)
    requires GoodBody(cs) && j < |cs| && k < |WriteChunk(cs[j])|
    ensures Scan(pre + WriteChunks(cs[..j]) + WriteChunk(cs[j])[..k], |pre|) == (|pre| + |WriteChunks(cs[..j])|, false)
    decreases j
  {
    hide ChunkAt, LongSize, GoodChunk;
    var part := WriteChunk(cs[j])[..k];
    var buf := pre + WriteChunks(cs[..j]) + part;
    if j == 0 {
      assert buf == pre + part;
      if k > 0 {
        PartChunk(pre, cs[0], k);
      }
    } else {
      var c := cs[0];
      assert cs[..j][1..] == cs[1..][..j - 1];
      var rest := WriteChunks(cs[1..][..j - 1]) + part;
      assert buf == pre + WriteChunk(c) + rest;
      WholeChunk(pre, c, rest);
      ScanPartial(pre + WriteChunk(c), cs[1..], j - 1, k);
      assert buf == pre + WriteChunk(c) + WriteChunks(cs[1..][..j - 1]) + part;
    }
  }

  // ----- soundness --------------------------------------------------------------------------------

  /** What the scan takes for a chunk: where the two LFs belong it accepts any two bytes whose AND is LF. */
  datatype Loose = Loose(text: seq<byte>, first: byte, data: seq<byte>, second: byte)

  predicate GoodLoose(c: Loose) {
    && c.text != [] && CR !in c.text
    && AtoI(c.text, 16).0 == |c.data|
    && (AtoI(c.text, 16).1 || IndexByte(c.text, SEMICOLON) >= 1)
    && BitAnd(c.first, c.second) == LF
  }

  function WriteLoose(cs: seq<Loose>): seq<byte> {
    if cs == [] then [] else cs[0].text + [CR, cs[0].first] + cs[0].data + [CR, cs[0].second] + WriteLoose(cs[1..])
  }

  lemma ChunkRange(buf: seq<byte>, at: nat)
    requires at < |buf| && !LongSize(buf, at) && ChunkAt(buf, at).Some?
    ensures var s := at + IndexByte(buf[at..], CR);
            at < s && s + 4 <= ChunkAt(buf, at).value.0 <= |buf|
  {
    hide AtoI, BitAnd, LongSize, IndexByte, ChunkAt;
    var cr, n := ChunkParts(buf, at);
  }

  /** The chunk read at `at`. */
  function LooseAt(buf: seq<byte>, at: nat): Loose
    requires at < |buf| && !LongSize(buf, at) && ChunkAt(buf, at).Some?
  {
    ChunkRange(buf, at);
    var s := at + IndexByte(buf[at..], CR);
    var next := ChunkAt(buf, at).value.0;
    Loose(buf[at..s], buf[s + 1], buf[s + 2..next - 2], buf[next - 1])
  }

  /** The chunks the scan from `at` on reads. */
  function Pieces(buf: seq<byte>, at: nat): seq<Loose>
    decreases |buf| - at
  {
    if at >= |buf| || LongSize(buf, at) || ChunkAt(buf, at) == None then []
    else
      var (next, last) := ChunkAt(buf, at).value;
      [LooseAt(buf, at)] + if last then [] else Pieces(buf, next)
  }

  /** Soundness: what the scan measured is the sequence of the chunks it read, none but the last of them
      empty, and the scan is full exactly when the last is. */
  lemma {:induction false} ScanSound(buf: seq<byte>, at: nat)
    requires at <= |buf|
    ensures var cs := Pieces(buf, at);
            && at <= Scan(buf, at).0 <= |buf| && buf[at..Scan(buf, at).0] == WriteLoose(cs)
            && (forall i :: 0 <= i < |cs| ==> GoodLoose(cs[i]) && Digits(cs[i].text) < 16)
            && (forall i :: 0 <= i < |cs| - 1 ==> cs[i].data != [])
            && (Scan(buf, at).1 <==> cs != [] && cs[|cs| - 1].data == [])
    decreases |buf| - at
  {
    hide *;
    ScanTurn(buf, at);
    NoneWritten();
    if at < |buf| && !LongSize(buf, at) && ChunkAt(buf, at).Some? {
      ChunkSound(buf, at);
      PiecesStep(buf, at);
      var c := LooseAt(buf, at);
      var (next, last) := ChunkAt(buf, at).value;
      if last {
        WriteCons(c, []);
        assert [c] + [] == [c];
      } else {
        ScanSound(buf, next);
        var rest, end := Pieces(buf, next), Scan(buf, next).0;
        WriteCons(c, rest);
        assert buf[at..end] == buf[at..next] + buf[next..end];
        ConsLoose(c, rest);
      }
    }
  }

  lemma ScanTurn(buf: seq<byte>, at: nat)
    requires at <= |buf|
    ensures if at < |buf| && !LongSize(buf, at) && ChunkAt(buf, at).Some? then
              var r := ChunkAt(buf, at).value; Scan(buf, at) == if r.1 then (r.0, true) else Scan(buf, r.0)
            else Scan(buf, at) == (at, false) && Pieces(buf, at) == [] && buf[at..at] == []
  {
    hide ChunkAt, LongSize, LooseAt;
  }

  lemma NoneWritten()
    ensures WriteLoose([]) == []
  {}

  lemma WriteCons(c: Loose, rest: seq<Loose>)
    ensures WriteLoose([c] + rest) == c.text + [CR, c.first] + c.data + [CR, c.second] + WriteLoose(rest)
  {
    assert ([c] + rest)[1..] == rest;
  }

  lemma ConsLoose(c: Loose, rest: seq<Loose>)
    requires GoodLoose(c) && Digits(c.text) < 16 && c.data != []
    requires forall i :: 0 <= i < |rest| ==> GoodLoose(rest[i]) && Digits(rest[i].text) < 16
    requires forall i :: 0 <= i < |rest| - 1 ==> rest[i].data != []
    ensures var cs := [c] + rest;
            && (forall i :: 0 <= i < |cs| ==> GoodLoose(cs[i]) && Digits(cs[i].text) < 16)
            && (forall i :: 0 <= i < |cs| - 1 ==> cs[i].data != [])
            && (cs[|cs| - 1].data == [] <==> rest != [] && rest[|rest| - 1].data == [])
  {
    hide GoodLoose, Digits;
    var cs := [c] + rest;
    assert forall i :: 0 < i < |cs| ==> cs[i] == rest[i - 1];
  }

  lemma ChunkSound(buf: seq<byte>, at: nat)
    requires at < |buf| && !LongSize(buf, at) && ChunkAt(buf, at).Some?
    ensures var (next, last) := ChunkAt(buf, at).value;
            var c := LooseAt(buf, at);
            && GoodLoose(c) && at < next <= |buf| && (last <==> c.data == [])
            && buf[at..next] == c.text + [CR, c.first] + c.data + [CR, c.second]
            && Digits(c.text) < 16
  {
    hide AtoI, BitAnd, LongSize, IndexByte, ChunkAt, Digits;
    var cr, n := ChunkParts(buf, at);
    var c := LooseAt(buf, at);
    var s, next := at + cr, at + cr + n + 4;
    assert c == Loose(buf[at..s], buf[s + 1], buf[s + 2..s + 2 + n], buf[s + n + 3]);
    CutAtLine(buf, at, s, n);
    assert CR !in buf[at..][..cr] && buf[at..][..cr] == c.text;
    FewDigits(buf, at, cr);
  }

  lemma CutAtLine(buf: seq<byte>, at: nat, s: nat, n: nat)
    requires at <= s && s + n + 4 <= |buf|
    ensures buf[at..s + n + 4]
         == buf[at..s] + [buf[s], buf[s + 1]] + buf[s + 2..s + 2 + n] + [buf[s + n + 2], buf[s + n + 3]]
  {}

  lemma FewDigits(buf: seq<byte>, at: nat, cr: nat)
    requires at + cr <= |buf| && !LongSize(buf, at)
    ensures Digits(buf[at..at + cr]) < 16
  {
    hide IsDigit;
    var text := buf[at..at + cr];
    assert forall i :: at <= i < at + cr ==> buf[i] == text[i - at];
  }

  // ----- exactly when a full scan has seen a body --------------------------------------------------

  /** Both line ends are LF, and the size text has digits, followed by nothing or by an extension. */
  predicate WellShaped(c: Loose) {
    var n := Digits(c.text);
    c.first == LF && c.second == LF && n >= 1 && (n == |c.text| || c.text[n] == SEMICOLON)
  }

  function ChunkOf(c: Loose): Chunk {
    var n := Digits(c.text);
    Chunk(c.text[..n], c.text[n..], c.data)
  }

  lemma ShapedIsGood(c: Loose)
    requires GoodLoose(c) && WellShaped(c) && Digits(c.text) < 16
    ensures GoodChunk(ChunkOf(c))
    ensures WriteChunk(ChunkOf(c)) == c.text + [CR, c.first] + c.data + [CR, c.second]
  {
    hide AtoI, Value, IndexByte, IsDigit, BitAnd;
    ShortText(c.text);
    var n := Digits(c.text);
    assert c.text == c.text[..n] + c.text[n..];
  }

  function ChunksOf(cs: seq<Loose>): (r: seq<Chunk>)
    ensures |r| == |cs|
    ensures forall i :: 0 <= i < |cs| ==> r[i] == ChunkOf(cs[i])
  {
    if cs == [] then [] else [ChunkOf(cs[0])] + ChunksOf(cs[1..])
  }

  lemma {:induction false} ShapedWritten(cs: seq<Loose>)
    requires forall i :: 0 <= i < |cs| ==> GoodLoose(cs[i]) && WellShaped(cs[i]) && Digits(cs[i].text) < 16
    ensures WriteChunks(ChunksOf(cs)) == WriteLoose(cs)
    ensures forall i :: 0 <= i < |cs| ==> GoodChunk(ChunkOf(cs[i]))
  {
    hide GoodLoose, WellShaped, GoodChunk, WriteChunk, Digits, ChunkOf;
    if cs != [] {
      ShapedIsGood(cs[0]);
      ShapedWritten(cs[1..]);
      assert ChunksOf(cs)[1..] == ChunksOf(cs[1..]);
    }
  }

  /** The chunks of an encoding are read back as they are, so all of them are well shaped. */
  lemma {:induction false} EncodedShaped(pre: seq<byte>, cs: seq<Chunk>, tail: seq<byte>)
    requires GoodBody(cs)
    ensures forall c :: c in Pieces(pre + WriteChunks(cs) + tail, |pre|) ==> WellShaped(c)
    decreases |cs|
  {
    hide *;
    BodyHead(cs);
    var c, later := cs[0], WriteChunks(cs[1..]);
    var rest := later + tail;
    assert pre + (WriteChunk(c) + later) + tail == pre + WriteChunk(c) + rest;
    var buf := pre + WriteChunk(c) + rest;
    WholeChunk(pre, c, rest);
    ChunkShaped(pre, c, rest);
    PiecesStep(buf, |pre|);
    if |cs| > 1 {
      EncodedShaped(pre + WriteChunk(c), cs[1..], tail);
      assert buf == pre + WriteChunk(c) + later + tail;
    }
  }

  lemma BodyHead(cs: seq<Chunk>)
    requires GoodBody(cs)
    ensures cs != [] && GoodChunk(cs[0]) && WriteChunks(cs) == WriteChunk(cs[0]) + WriteChunks(cs[1..])
    ensures |cs| > 1 <==> cs[0].data != []
    ensures |cs| > 1 ==> GoodBody(cs[1..])
  {
    hide GoodChunk, WriteChunk, GoodBody;
    BodyStart(cs);
    if |cs| > 1 {
      BodyRest(cs);
    }
  }

  lemma BodyStart(cs: seq<Chunk>)
    requires GoodBody(cs)
    ensures cs != [] && GoodChunk(cs[0]) && (|cs| > 1 <==> cs[0].data != [])
  {
    hide GoodChunk;
  }

  lemma BodyRest(cs: seq<Chunk>)
    requires GoodBody(cs) && |cs| > 1
    ensures GoodBody(cs[1..])
  {
    hide GoodChunk;
    var later := cs[1..];
    assert forall i :: 0 <= i < |later| ==> later[i] == cs[i + 1];
  }

  lemma PiecesStep(buf: seq<byte>, at: nat)
    requires at < |buf| && !LongSize(buf, at) && ChunkAt(buf, at).Some?
    ensures var r := ChunkAt(buf, at).value;
            Pieces(buf, at) == [LooseAt(buf, at)] + if r.1 then [] else Pieces(buf, r.0)
  {
    hide ChunkAt, LongSize, LooseAt;
  }

  lemma ChunkShaped(pre: seq<byte>, c: Chunk, tail: seq<byte>)
    requires GoodChunk(c)
    requires var buf := pre + WriteChunk(c) + tail;
             !LongSize(buf, |pre|) && ChunkAt(buf, |pre|) == Some((|pre| + |WriteChunk(c)|, c.data == []))
    ensures WellShaped(LooseAt(pre + WriteChunk(c) + tail, |pre|))
  {
    hide GoodChunk, WriteChunk, LooseAt, LongSize, ChunkAt, Digits;
    ChunkRead(pre, c, tail);
    ChunkDigits(c);
  }

  /** A written chunk is read with its own size text and with both LFs. */
  lemma ChunkRead(pre: seq<byte>, c: Chunk, tail: seq<byte>)
    requires GoodChunk(c)
    requires var buf := pre + WriteChunk(c) + tail;
             !LongSize(buf, |pre|) && ChunkAt(buf, |pre|) == Some((|pre| + |WriteChunk(c)|, c.data == []))
    ensures var l := LooseAt(pre + WriteChunk(c) + tail, |pre|);
            l.text == c.size + c.ext && l.first == LF && l.second == LF
  {
    hide ChunkAt, LongSize, GoodChunk, IndexByte, WriteChunk;
    WrittenAt(pre, c, tail);
    ChunkRange(pre + WriteChunk(c) + tail, |pre|);
  }

  /** Where the size text and the two LFs of a written chunk stand. */
  lemma WrittenAt(pre: seq<byte>, c: Chunk, tail: seq<byte>)
    requires GoodChunk(c)
    ensures var buf, text := pre + WriteChunk(c) + tail, c.size + c.ext;
            var s, next := |pre| + |text|, |pre| + |WriteChunk(c)|;
            && |pre| <= s && s + 4 <= next <= |buf| && buf[|pre|..s] == text
            && IndexByte(buf[|pre|..], CR) == |text| && buf[s + 1] == LF && buf[next - 1] == LF
  {
    hide GoodChunk, IndexByte;
    var text, post := c.size + c.ext, CRLF + c.data + CRLF + tail;
    assert pre + WriteChunk(c) + tail == pre + text + post;
    StartsWithCr(c.data, tail);
    TextSplit(pre, c, post);
    SizeLine(pre, c, post);
    FirstCr(pre, text, post);
    BehindSize(pre + text, c.data, tail);
  }

  lemma ChunkDigits(c: Chunk)
    requires GoodChunk(c)
    ensures var text := c.size + c.ext;
            var n := Digits(text);
            1 <= n <= |text| && (n == |text| || text[n] == SEMICOLON)
  {
    hide Value;
    assert !IsDigit(SEMICOLON, 16);
    DigitsOf(c.size, c.ext);
  }

  /** What a full scan has measured is a well-formed chunked body exactly when every chunk it read ends
      its two lines in LF and has a size text of digits, with nothing or an extension behind them. */
  lemma FullIsBody(buf: seq<byte>, at: nat)
    requires at <= |buf| && Scan(buf, at).1
    ensures at <= Scan(buf, at).0 <= |buf|
    ensures (exists cs :: GoodBody(cs) && buf[at..Scan(buf, at).0] == WriteChunks(cs))
            <==> forall c :: c in Pieces(buf, at) ==> WellShaped(c)
  {
    hide *;
    ScanSound(buf, at);
    var end, ps := Scan(buf, at).0, Pieces(buf, at);
    if forall c :: c in ps ==> WellShaped(c) {
      assert forall i :: 0 <= i < |ps| ==> ps[i] in ps;
      ShapedWritten(ps);
      BodyOf(ps);
      assert GoodBody(ChunksOf(ps)) && buf[at..end] == WriteChunks(ChunksOf(ps));
    }
    forall cs | GoodBody(cs) && buf[at..end] == WriteChunks(cs)
      ensures forall c :: c in ps ==> WellShaped(c)
    {
      assert buf == buf[..at] + WriteChunks(cs) + buf[end..];
      EncodedShaped(buf[..at], cs, buf[end..]);
    }
  }

  lemma {:induction false} BodyOf(ps: seq<Loose>)
    requires ps != [] && ps[|ps| - 1].data == [] && forall i :: 0 <= i < |ps| - 1 ==> ps[i].data != []
    requires forall i :: 0 <= i < |ps| ==> GoodChunk(ChunkOf(ps[i]))
    ensures GoodBody(ChunksOf(ps))
  {
    hide GoodChunk, Digits, ChunksOf;
    var cs := ChunksOf(ps);
    forall i | 0 <= i < |cs|
      ensures GoodChunk(cs[i]) && cs[i].data == ps[i].data
    {
      assert cs[i] == ChunkOf(ps[i]);
    }
  }

  /** A size text without a digit passes once a `;` stands behind its first byte, and counts as zero. */
  lemma AcceptsNoDigits()
    ensures Scan(Ascii("z;") + CRLF + CRLF, 0) == (6, true)
  {
    hide AtoI, IndexByte;
    var buf: seq<byte> := [122, SEMICOLON, CR, LF, CR, LF];
    assert Ascii("z;") + CRLF + CRLF == buf;
    BothLf();
    assert !IsDigit(buf[0], 16);
    assert buf[0..] == buf && buf[..2] == [122, SEMICOLON];
    IndexByteIs(buf, CR, 2);
    assert buf[0..2] == [122, SEMICOLON] && buf[0..2][..1] == [122];
    IndexByteIs([122, SEMICOLON], SEMICOLON, 1);
    NoDigits();
    ChunkIs(buf, 0, 2, 0);
  }

  lemma NoDigits()
    ensures AtoI([122, SEMICOLON], 16) == (0, false)
  {
    var t: seq<byte> := [122, SEMICOLON];
    assert t[..1] == [122] && [122][..0] == [];
    assert AtoI([122], 16) == (0, false);
  }

  /** The AND of two other bytes can be LF, so a full scan does not prove the body well-formed: here
      neither line of the zero chunk ends in CRLF. */
  lemma AcceptsOtherBytes()
    ensures Scan([48, CR, 14, CR, 11], 0) == (5, true)
  {
    hide AtoI, IndexByte;
    var buf: seq<byte> := [48, CR, 14, CR, 11];
    assert BitAnd(14, 11) == LF by {
      assert BitAnd(1, 1) == 1 && BitAnd(3, 2) == 2 && BitAnd(7, 5) == 5;
    }
    assert !IsDigit(buf[1], 16);
    assert buf[0..] == buf && buf[..1] == [48];
    IndexByteIs(buf, CR, 1);
    assert buf[0..1] == [48];
    ZeroText();
    ChunkIs(buf, 0, 1, 0);
  }

  lemma ZeroText()
    ensures AtoI([48], 16) == (0, true)
  {
    assert AtoI([48][..0], 16) == (0, true);
  }
}
