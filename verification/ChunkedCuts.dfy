/** Chunked bodies cut into segments: `HasFullPayload` takes a segment that ends in `0` and an empty line for
    the last one, wherever these bytes come from. */
module ChunkedCuts {
  import opened Bytes
  import opened Decimal
  import opened FullPayload
  import opened Chunked

  /** The chunk does not hold the bytes that are taken for the end of a body. */
  predicate Quiet(c: Chunk) {
    Index(WriteChunk(c), LAST_CHUNK) == -1
  }

  predicate QuietBody(cs: seq<Chunk>) {
    forall i :: 0 <= i < |cs| - 1 ==> Quiet(cs[i])
  }

  /** The size line of the zero chunk ends in the digit, extensions included. */
  predicate EndsInZero(c: Chunk) {
    var line := c.size + c.ext;
    line != [] && line[|line| - 1] == 48
  }

  // ----- where the mark stands in an encoding -----------------------------------------------

  lemma MarkChars(q: seq<byte>, j: int)
    ensures At(q, LAST_CHUNK, j) <==>
              && 0 <= j <= |q| - 5
              && q[j] == 48 && q[j + 1] == CR && q[j + 2] == LF && q[j + 3] == CR && q[j + 4] == LF
  {
    if 0 <= j <= |q| - 5 {
      assert q[j..j + 5] == [q[j], q[j + 1], q[j + 2], q[j + 3], q[j + 4]];
    }
  }

  predicate NoBreak(b: seq<byte>) {
    b == [] || (b[0] != CR && b[0] != LF)
  }

  /** No mark reaches into text that does not begin with a line break. */
  lemma MarkSplits(a: seq<byte>, b: seq<byte>, j: int)
    requires NoBreak(b)
    ensures At(a + b, LAST_CHUNK, j) <==> At(a, LAST_CHUNK, j) || At(b, LAST_CHUNK, j - |a|)
  {
    hide At;
    MarkChars(a + b, j);
    MarkChars(a, j);
    MarkChars(b, j - |a|);
    assert forall i :: 0 <= i < |a| ==> (a + b)[i] == a[i];
    assert forall i :: |a| <= i < |a + b| ==> (a + b)[i] == b[i - |a|];
  }

  lemma SuffixIsAt(q: seq<byte>)
    ensures HasSuffix(q, LAST_CHUNK) <==> At(q, LAST_CHUNK, |q| - 5)
  {
    if |q| >= 5 {
      assert q[|q| - 5..] == q[|q| - 5..|q| - 5 + 5];
    }
  }

  lemma StartsWithDigit(cs: seq<Chunk>)
    requires forall i :: 0 <= i < |cs| ==> GoodChunk(cs[i])
    ensures NoBreak(WriteChunks(cs))
  {
    hide GoodChunk, WriteChunk;
    if cs != [] {
      ChunkStarts(cs[0]);
      assert WriteChunks(cs) == WriteChunk(cs[0]) + WriteChunks(cs[1..]);
    }
  }

  lemma ChunkStarts(c: Chunk)
    requires GoodChunk(c)
    ensures WriteChunk(c) != [] && NoBreak(WriteChunk(c))
  {
    hide Value;
    assert WriteChunk(c)[0] == c.size[0];
    assert IsDigit(c.size[0], 16);
  }

  /** In the zero chunk the mark can only stand at the end. */
  lemma ZeroMarks(c: Chunk, j: int)
    requires GoodChunk(c) && c.data == []
    ensures At(WriteChunk(c), LAST_CHUNK, j) <==> j == |WriteChunk(c)| - 5 && EndsInZero(c)
  {
    hide Value, At;
    var q, line := WriteChunk(c), c.size + c.ext;
    MarkChars(q, j);
    assert q == line + EMPTY_LINE;
    assert forall i :: 0 <= i < |line| ==> q[i] == line[i];
    NoCrInLine(c);
  }

  lemma NoCrInLine(c: Chunk)
    requires GoodChunk(c)
    ensures var line := c.size + c.ext; forall i :: 0 <= i < |line| ==> line[i] != CR
  {
    hide Value;
    var line := c.size + c.ext;
    forall i | 0 <= i < |line|
      ensures line[i] != CR
    {
      if i < |c.size| {
        assert IsDigit(c.size[i], 16);
      } else {
        assert line[i] == c.ext[i - |c.size|];
      }
    }
  }

  /** In the encoding of a quiet body the mark can only stand at the end. */
  lemma {:induction false} BodyMarks(cs: seq<Chunk>, j: int)
    requires GoodBody(cs) && QuietBody(cs)
    ensures At(WriteChunks(cs), LAST_CHUNK, j) <==> j == |WriteChunks(cs)| - 5 && EndsInZero(cs[|cs| - 1])
  {
    hide At, GoodChunk, WriteChunk, Quiet, EndsInZero;
    BodyHead(cs);
    var later := cs[1..];
    if later == [] {
      assert WriteChunks(cs) == WriteChunk(cs[0]);
      ZeroMarks(cs[0], j);
    } else {
      QuietTail(cs);
      StartsWithDigit(later);
      MarkSplits(WriteChunk(cs[0]), WriteChunks(later), j);
      QuietNowhere(cs[0], j);
      BodyMarks(later, j - |WriteChunk(cs[0])|);
    }
  }

  lemma QuietTail(cs: seq<Chunk>)
    requires QuietBody(cs) && |cs| > 1
    ensures QuietBody(cs[1..]) && Quiet(cs[0]) && cs[1..][|cs| - 2] == cs[|cs| - 1]
  {
    hide Quiet;
    assert forall i :: 0 <= i < |cs| - 1 ==> cs[1..][i] == cs[i + 1];
  }

  lemma QuietNowhere(c: Chunk, j: int)
    requires Quiet(c)
    ensures !At(WriteChunk(c), LAST_CHUNK, j)
  {
    hide WriteChunk, At;
  }

  /** A chunk that is not quiet puts a mark before the end. */
  lemma {:induction false} NoisyMarks(cs: seq<Chunk>) returns (j: nat)
    requires GoodBody(cs) && !QuietBody(cs)
    ensures At(WriteChunks(cs), LAST_CHUNK, j) && j + 5 < |WriteChunks(cs)|
  {
    hide At, GoodChunk, WriteChunk;
    BodyHead(cs);
    var later := cs[1..];
    StartsWithDigit(later);
    var a := WriteChunk(cs[0]);
    if !Quiet(cs[0]) {
      j := Index(a, LAST_CHUNK);
      MarkChars(a, j);
      MarkSplits(a, WriteChunks(later), j);
      SomeBytes(later);
    } else {
      NoisyTail(cs);
      var k := NoisyMarks(later);
      j := |a| + k;
      MarkSplits(a, WriteChunks(later), j);
    }
  }

  lemma NoisyTail(cs: seq<Chunk>)
    requires !QuietBody(cs) && |cs| > 1 && Quiet(cs[0])
    ensures !QuietBody(cs[1..])
  {
    hide Quiet;
    var i :| 0 <= i < |cs| - 1 && !Quiet(cs[i]);
    assert cs[1..][i - 1] == cs[i];
  }

  lemma SomeBytes(cs: seq<Chunk>)
    requires cs != []
    ensures |WriteChunks(cs)| >= 4
  {}

  // ----- cuts ---------------------------------------------------------------------------------

  /** Of the parts the last one, and only that, ends in the mark. */
  predicate MarksLast(parts: seq<seq<byte>>) {
    forall i :: 0 <= i < |parts| ==> (HasSuffix(parts[i], LAST_CHUNK) <==> i == |parts| - 1)
  }

  /** A cut of `w`; only the first part may be empty. */
  predicate CutOf(parts: seq<seq<byte>>, w: seq<byte>) {
    parts != [] && Concat(parts) == w && forall i :: 1 <= i < |parts| ==> parts[i] != []
  }

  lemma PartAt(parts: seq<seq<byte>>, i: nat)
    requires i < |parts|
    ensures Concat(parts) == Concat(parts[..i]) + parts[i] + Concat(parts[i + 1..])
  {
    hide *;
    var a, b := parts[..i], parts[i + 1..];
    PartsSplit(parts, i);
    ConcatAppend(a, [parts[i]] + b);
    ConcatCons(parts[i], b);
    Regroup(Concat(a), parts[i], Concat(b));
  }

  lemma PartsSplit(parts: seq<seq<byte>>, i: nat)
    requires i < |parts|
    ensures parts == parts[..i] + ([parts[i]] + parts[i + 1..])
  {}

  lemma ConcatCons(first: seq<byte>, rest: seq<seq<byte>>)
    ensures Concat([first] + rest) == first + Concat(rest)
  {
    assert ([first] + rest)[1..] == rest;
  }

  lemma Regroup(a: seq<byte>, b: seq<byte>, c: seq<byte>)
    ensures a + (b + c) == a + b + c
  {}

  lemma LaterBytes(parts: seq<seq<byte>>, w: seq<byte>, i: nat)
    requires CutOf(parts, w) && i < |parts|
    ensures Concat(parts[i + 1..]) == [] <==> i == |parts| - 1
  {
    var b := parts[i + 1..];
    if b != [] {
      assert b[0] == parts[i + 1];
    }
  }

  /** A part that ends in the mark puts the mark into the whole, at the end only if it is the last. */
  lemma PartMarked(parts: seq<seq<byte>>, w: seq<byte>, i: nat)
    requires CutOf(parts, w) && i < |parts| && HasSuffix(parts[i], LAST_CHUNK)
    ensures exists j: int :: At(w, LAST_CHUNK, j) && j <= |w| - 5 && (j == |w| - 5 <==> i == |parts| - 1)
  {
    hide CutOf, At;
    PartAt(parts, i);
    LaterBytes(parts, w, i);
    CutIsWhole(parts, w);
    SuffixIsAt(parts[i]);
    var a, z := Concat(parts[..i]), Concat(parts[i + 1..]);
    var j := |a| + |parts[i]| - 5;
    MarkInside(a, parts[i], z, |parts[i]| - 5);
    assert At(w, LAST_CHUNK, j);
  }

  lemma CutIsWhole(parts: seq<seq<byte>>, w: seq<byte>)
    requires CutOf(parts, w)
    ensures parts != [] && Concat(parts) == w
  {}

  lemma MarkInside(a: seq<byte>, s: seq<byte>, z: seq<byte>, j: int)
    requires At(s, LAST_CHUNK, j)
    ensures At(a + s + z, LAST_CHUNK, |a| + j)
  {
    assert (a + s + z)[|a| + j..|a| + j + 5] == s[j..j + 5];
  }

  /** A quiet body, however it is cut, is taken for complete at its last part and no earlier, exactly if
      that part has at least five bytes and the zero chunk's line ends in the digit. */
  lemma CutMarksLast(cs: seq<Chunk>, parts: seq<seq<byte>>)
    requires GoodBody(cs) && QuietBody(cs) && CutOf(parts, WriteChunks(cs))
    ensures MarksLast(parts) <==> |parts[|parts| - 1]| >= 5 && EndsInZero(cs[|cs| - 1])
  {
    hide GoodBody, QuietBody, CutOf, At, HasSuffix, EndsInZero;
    var w, n := WriteChunks(cs), |parts|;
    forall i | 0 <= i < n - 1
      ensures !HasSuffix(parts[i], LAST_CHUNK)
    {
      OnlyAtEnd(cs, parts, i);
    }
    CutIsWhole(parts, w);
    LastPart(parts, w);
    BodyNotEmpty(cs);
    BodyMarks(cs, |w| - 5);
  }

  lemma BodyNotEmpty(cs: seq<Chunk>)
    requires GoodBody(cs)
    ensures cs != []
  {
    hide GoodChunk;
  }

  lemma OnlyAtEnd(cs: seq<Chunk>, parts: seq<seq<byte>>, i: nat)
    requires GoodBody(cs) && QuietBody(cs) && CutOf(parts, WriteChunks(cs)) && i < |parts| - 1
    ensures !HasSuffix(parts[i], LAST_CHUNK)
  {
    hide GoodChunk, QuietBody, CutOf, At, HasSuffix, EndsInZero;
    var w := WriteChunks(cs);
    forall j: int
      ensures At(w, LAST_CHUNK, j) ==> j == |w| - 5
    {
      BodyMarks(cs, j);
    }
    if HasSuffix(parts[i], LAST_CHUNK) {
      PartMarked(parts, w, i);
    }
  }

  lemma LastPart(parts: seq<seq<byte>>, w: seq<byte>)
    requires parts != [] && Concat(parts) == w
    ensures var last := parts[|parts| - 1];
            HasSuffix(last, LAST_CHUNK) <==> |last| >= 5 && At(w, LAST_CHUNK, |w| - 5)
  {
    hide At;
    var last := parts[|parts| - 1];
    PartAt(parts, |parts| - 1);
    assert parts[|parts|..] == [];
    var a := Concat(parts[..|parts| - 1]);
    assert w == a + last;
    SuffixIsAt(last);
    MarkChars(last, |last| - 5);
    MarkChars(w, |w| - 5);
  }

  /** A cut into parts of any lengths is safe from an early end exactly if the body is quiet. */
  lemma CutsExactly(cs: seq<Chunk>)
    requires GoodBody(cs)
    ensures QuietBody(cs) <==>
              forall parts, i | CutOf(parts, WriteChunks(cs)) && 0 <= i < |parts| - 1 ::
                !HasSuffix(parts[i], LAST_CHUNK)
  {
    hide GoodBody, QuietBody, CutOf, HasSuffix;
    if QuietBody(cs) {
      forall parts, i | CutOf(parts, WriteChunks(cs)) && 0 <= i < |parts| - 1
        ensures !HasSuffix(parts[i], LAST_CHUNK)
      {
        OnlyAtEnd(cs, parts, i);
      }
    } else {
      var w := WriteChunks(cs);
      var j := NoisyMarks(cs);
      CutInTwo(w, j);
    }
  }

  lemma CutInTwo(w: seq<byte>, j: nat)
    requires At(w, LAST_CHUNK, j) && j + 5 < |w|
    ensures var parts := [w[..j + 5], w[j + 5..]]; CutOf(parts, w) && HasSuffix(parts[0], LAST_CHUNK)
  {
    var parts: seq<seq<byte>> := [w[..j + 5], w[j + 5..]];
    assert parts[1..] == [w[j + 5..]];
    assert parts[1..][1..] == [];
    assert Concat(parts[1..]) == w[j + 5..] + Concat(parts[1..][1..]) == w[j + 5..];
    assert w == w[..j + 5] + w[j + 5..];
    assert w[..j + 5][j..] == w[j..j + 5];
  }

  /** Chunk data that begin with a line break behind a size that ends in `0`: such a chunk is not quiet. */
  lemma EarlyEnd()
    ensures var c := Chunk([49, 48], [], CRLF + seq(14, _ => 120)); GoodChunk(c) && !Quiet(c)
  {
    var c := Chunk([49, 48], [], CRLF + seq(14, _ => 120));
    var q := WriteChunk(c);
    MarkChars(q, 1);
    assert c.size[..1] == [49] && c.size[..1][..0] == [];
    assert Value([], 16) == 0 && Value([49], 16) == 1;
  }

  /** Without extensions the zero chunk's line ends in the digit. */
  lemma ZeroDigits(size: seq<byte>)
    requires size != [] && (forall i :: 0 <= i < |size| ==> IsDigit(size[i], 16)) && Value(size, 16) == 0
    ensures size[|size| - 1] == 48
  {}

  lemma PlainZero(c: Chunk)
    requires GoodChunk(c) && c.data == [] && c.ext == []
    ensures EndsInZero(c)
  {
    assert c.size + c.ext == c.size;
    ZeroDigits(c.size);
  }
}
