/** Byte strings and the few operations of Go's `bytes` package that the replay tool relies on,
    together with the bitwise operators on unsigned words it uses. */
module Bytes {

  type byte = x: int | 0 <= x < 0x100
  type uint16 = x: int | 0 <= x < 0x1_0000
  type uint32 = x: int | 0 <= x < 0x1_0000_0000
  type uint64 = x: int | 0 <= x < 0x1_0000_0000_0000_0000
  type int64 = x: int | -0x8000_0000_0000_0000 <= x < 0x8000_0000_0000_0000

  const CR: byte := 13
  const LF: byte := 10
  const SPACE: byte := 32
  const COLON: byte := 58
  const CRLF: seq<byte> := [CR, LF]
  const EMPTY_LINE: seq<byte> := [CR, LF, CR, LF]

  datatype Option<+T> = None | Some(value: T)

  /** The bytes of an ASCII literal. */
  function Ascii(s: string): (r: seq<byte>)
    ensures |r| == |s|
    ensures forall i :: 0 <= i < |s| && s[i] < 128 as char ==> r[i] == s[i] as int
  {
    seq(|s|, i requires 0 <= i < |s| => if s[i] < 128 as char then s[i] as int else 0)
  }

  // ----- searching ------------------------------------------------------------------

  function IndexByte(s: seq<byte>, b: byte): (r: int)
    ensures -1 <= r < |s|
    ensures r == -1 <==> b !in s
    ensures r >= 0 ==> s[r] == b && b !in s[..r]
  {
    if s == [] then -1
    else if s[0] == b then 0
    else
      var rest := IndexByte(s[1..], b);
      assert s == [s[0]] + s[1..];
      if rest == -1 then -1
      else
        assert s[..rest + 1] == [s[0]] + s[1..][..rest];
        rest + 1
  }

  /** `sub` occurs in `s` at position `i`. */
  predicate At(s: seq<byte>, sub: seq<byte>, i: int) {
    0 <= i <= |s| - |sub| && s[i..i + |sub|] == sub
  }

  function IndexFrom(s: seq<byte>, sub: seq<byte>, i: nat): (r: int)
    ensures r == -1 || (i <= r && At(s, sub, r))
    ensures forall j :: i <= j && (r == -1 || j < r) ==> !At(s, sub, j)
    decreases |s| - i
  {
    if i + |sub| > |s| then -1
    else if At(s, sub, i) then i
    else IndexFrom(s, sub, i + 1)
  }

  /** `bytes.Index`: the first occurrence of `sub` in `s`, or -1. */
  function Index(s: seq<byte>, sub: seq<byte>): (r: int)
    ensures r == -1 || At(s, sub, r)
    ensures forall j :: (r == -1 || j < r) ==> !At(s, sub, j)
  {
    IndexFrom(s, sub, 0)
  }

  predicate HasSuffix(s: seq<byte>, suffix: seq<byte>) {
    |suffix| <= |s| && s[|s| - |suffix|..] == suffix
  }

  /** First-occurrence facts determine `Index`. */
  lemma IndexIs(s: seq<byte>, sub: seq<byte>, k: int)
    requires At(s, sub, k)
    requires forall j :: j < k ==> !At(s, sub, j)
    ensures Index(s, sub) == k
  {}

  lemma IndexByteIs(s: seq<byte>, b: byte, k: int)
    requires 0 <= k < |s| && s[k] == b && b !in s[..k]
    ensures IndexByte(s, b) == k
  {}

  lemma HeadSlice(s: seq<byte>, cut: nat, from: nat, to: nat)
    requires from <= to <= cut <= |s|
    ensures s[..cut][from..to] == s[from..to]
  {
    var a, b := s[..cut][from..to], s[from..to];
    assert |a| == |b| && forall i :: 0 <= i < |a| ==> a[i] == b[i];
  }

  lemma TailSlice(s: seq<byte>, cut: nat, from: nat, to: nat)
    requires cut <= from <= to <= |s|
    ensures s[cut..][from - cut..to - cut] == s[from..to]
  {
    var a, b := s[cut..][from - cut..to - cut], s[from..to];
    assert |a| == |b| && forall i :: 0 <= i < |a| ==> a[i] == b[i];
  }

  lemma BreakChars(q: seq<byte>, j: int)
    ensures At(q, CRLF, j) <==> 0 <= j <= |q| - 2 && q[j] == CR && q[j + 1] == LF
  {
    if 0 <= j <= |q| - 2 {
      assert q[j..j + 2] == [q[j], q[j + 1]];
    }
  }

  lemma EmptyLineChars(q: seq<byte>, j: int)
    ensures At(q, EMPTY_LINE, j) <==>
              0 <= j <= |q| - 4 && q[j] == CR && q[j + 1] == LF && q[j + 2] == CR && q[j + 3] == LF
  {
    if 0 <= j <= |q| - 4 {
      assert q[j..j + 4] == [q[j], q[j + 1], q[j + 2], q[j + 3]];
    }
  }

  // ----- case folding ---------------------------------------------------------------

  function Lower(b: byte): byte {
    if 65 <= b <= 90 then b + 32 else b
  }

  /** `bytes.EqualFold` on ASCII text. */
  predicate EqualFold(a: seq<byte>, b: seq<byte>) {
    |a| == |b| && forall i :: 0 <= i < |a| ==> Lower(a[i]) == Lower(b[i])
  }

  const UPPER: seq<byte> := Ascii("ABCDEFGHIJKLMNOPQRSTUVWXYZ")
  const LOWER: seq<byte> := Ascii("abcdefghijklmnopqrstuvwxyz")

  /** Texts fold to each other exactly if, byte by byte, they are the same or the same letter. */
  lemma FoldMeans(a: seq<byte>, b: seq<byte>)
    ensures EqualFold(a, b) <==>
              |a| == |b| && forall i :: 0 <= i < |a| ==> a[i] == b[i] || SameLetter(a[i], b[i])
  {
    hide Lower, SameLetter;
    forall i | 0 <= i < |a| && i < |b|
      ensures Lower(a[i]) == Lower(b[i]) <==> a[i] == b[i] || SameLetter(a[i], b[i])
    {
      FoldByte(a[i], b[i]);
    }
  }

  predicate SameLetter(b: byte, c: byte) {
    exists k :: 0 <= k < 26 && {b, c} == {UPPER[k], LOWER[k]}
  }

  lemma FoldByte(b: byte, c: byte)
    ensures Lower(b) == Lower(c) <==> b == c || SameLetter(b, c)
  {
    hide SameLetter;
    if SameLetter(b, c) {
      LetterFolds(b, c);
    } else if b < c && Lower(b) == Lower(c) {
      LetterPair(b, c);
    } else if c < b && Lower(b) == Lower(c) {
      LetterPair(c, b);
    }
  }

  lemma LetterFolds(b: byte, c: byte)
    requires SameLetter(b, c)
    ensures Lower(b) == Lower(c)
  {
    LetterCodes();
    var k :| 0 <= k < 26 && {b, c} == {UPPER[k], LOWER[k]};
    assert b in {UPPER[k], LOWER[k]} && c in {UPPER[k], LOWER[k]};
  }

  lemma LetterPair(b: byte, c: byte)
    requires b < c && Lower(b) == Lower(c)
    ensures SameLetter(b, c) && SameLetter(c, b)
  {
    LetterCodes();
    assert UPPER[b - 65] == b && LOWER[b - 65] == c;
    assert {c, b} == {b, c};
  }

  lemma LetterCodes()
    ensures |UPPER| == 26 && |LOWER| == 26
    ensures forall k :: 0 <= k < 26 ==> UPPER[k] == 65 + k && LOWER[k] == 97 + k
  {}

  /** The bytes that are named are those of the text. */
  lemma TextBytes()
    ensures CRLF == Ascii("\r\n") && EMPTY_LINE == Ascii("\r\n\r\n")
    ensures [CR] == Ascii("\r") && [LF] == Ascii("\n") && [SPACE] == Ascii(" ") && [COLON] == Ascii(":")
  {}

  // ----- concatenation --------------------------------------------------------------

  function Concat(parts: seq<seq<byte>>): seq<byte> {
    if parts == [] then [] else parts[0] + Concat(parts[1..])
  }

  lemma {:induction false} ConcatAppend(a: seq<seq<byte>>, b: seq<seq<byte>>)
    ensures Concat(a + b) == Concat(a) + Concat(b)
  {
    if a == [] {
      assert a + b == b;
    } else {
      assert (a + b)[1..] == a[1..] + b;
      ConcatAppend(a[1..], b);
    }
  }

  // ----- bitwise operators on unsigned words ------------------------------------------

  function BitOr(a: nat, b: nat): nat {
    if a == 0 && b == 0 then 0
    else (if a % 2 == 1 || b % 2 == 1 then 1 else 0) + 2 * BitOr(a / 2, b / 2)
  }

  function BitAnd(a: nat, b: nat): nat {
    if a == 0 && b == 0 then 0
    else (if a % 2 == 1 && b % 2 == 1 then 1 else 0) + 2 * BitAnd(a / 2, b / 2)
  }

  function Pow2(k: nat): (r: nat)
    ensures r > 0
  {
    if k == 0 then 1 else 2 * Pow2(k - 1)
  }
}
