/** byteutils.go: `Cut`, `Insert` and `Replace` edit a Go slice in place with overlapping copies. */
module ByteUtils {
  import opened Bytes

  // ----- what the edits mean on byte strings -------------------------------------------

  function Cut(a: seq<byte>, from: nat, to: nat): seq<byte>
    requires from <= to <= |a|
  {
    a[..from] + a[to..]
  }

  function Insert(a: seq<byte>, i: nat, b: seq<byte>): seq<byte>
    requires i <= |a|
  {
    a[..i] + b + a[i..]
  }

  /** Replacing a range is cutting it and inserting the new text where it was. */
  function Replace(a: seq<byte>, from: nat, to: nat, b: seq<byte>): seq<byte>
    requires from <= to <= |a|
  {
    Insert(Cut(a, from, to), from, b)
  }

  lemma ReplaceSplits(a: seq<byte>, from: nat, to: nat, b: seq<byte>)
    requires from <= to <= |a|
    ensures Replace(a, from, to, b) == a[..from] + b + a[to..]
  {
    assert Cut(a, from, to)[..from] == a[..from];
    assert Cut(a, from, to)[from..] == a[to..];
  }

  lemma CutUndoesInsert(a: seq<byte>, i: nat, b: seq<byte>)
    requires i <= |a|
    ensures Cut(Insert(a, i, b), i, i + |b|) == a
  {
    assert Insert(a, i, b)[..i] == a[..i];
    assert Insert(a, i, b)[i + |b|..] == a[i..];
    assert a == a[..i] + a[i..];
  }

  // ----- Go slices ---------------------------------------------------------------------

  /** `len` bytes of `w` from `off`. */
  function Window(w: seq<byte>, off: nat, len: nat): (r: seq<byte>)
    requires off + len <= |w|
    ensures |r| == len
  {
    w[off..off + len]
  }

  /** `w` with `piece` written over it at `at`. */
  function Over(w: seq<byte>, at: nat, piece: seq<byte>): (r: seq<byte>)
    requires at + |piece| <= |w|
    ensures |r| == |w|
  {
    w[..at] + piece + w[at + |piece|..]
  }

  /** A slice header: `len` bytes of `arr` from `off`, growable in place up to `cap`. */
  datatype Slice = Slice(arr: array<byte>, off: nat, len: nat, cap: nat) {
    ghost predicate Valid() {
      len <= cap && off + cap <= arr.Length
    }

    ghost function Contents(): (r: seq<byte>)
      requires Valid()
      reads arr
      ensures |r| == len
    {
      Window(arr[..], off, len)
    }

    /** `s[i..]`. */
    function From(i: nat): Slice
      requires i <= len <= cap
    {
      Slice(arr, off + i, len - i, cap - i)
    }

    /** `s[..n]`; like Go's, it may reach beyond the length into the capacity. */
    function Upto(n: nat): Slice
      requires n <= cap
    {
      Slice(arr, off, n, cap)
    }
  }

  method MakeSlice(bytes: seq<byte>) returns (s: Slice)
    ensures s.Valid() && fresh(s.arr) && s.cap == s.len
    ensures s.Contents() == bytes
  {
    var arr := new byte[|bytes|](i requires 0 <= i < |bytes| => bytes[i]);
    s := Slice(arr, 0, |bytes|, |bytes|);
  }

  /** Go's built-in `copy`: the source is read before the destination is written (memmove). */
  method Copy(dst: Slice, src: Slice) returns (n: nat)
    requires dst.Valid() && src.Valid()
    modifies dst.arr
    ensures n == if dst.len <= src.len then dst.len else src.len
    ensures dst.arr[..] == Over(old(dst.arr[..]), dst.off, Window(old(src.arr[..]), src.off, n))
  {
    n := if dst.len <= src.len then dst.len else src.len;
    ghost var target := Over(dst.arr[..], dst.off, Window(src.arr[..], src.off, n));
    forall i | 0 <= i < n {
      dst.arr[dst.off + i] := src.arr[src.off + i];
    }
    assert forall i :: 0 <= i < dst.arr.Length ==> dst.arr[i] == target[i];
  }

  /** `append(a, make([]byte, n)...)`: in place while the capacity allows, else in a new array
      whose spare capacity is the runtime's choice. */
  method AppendZeros(a: Slice, n: nat, spare: nat) returns (r: Slice)
    requires a.Valid()
    modifies a.arr
    ensures r.Valid() && r.len == a.len + n
    ensures Window(r.arr[..], r.off, a.len) == old(a.Contents())
    ensures forall i :: a.len <= i < r.len ==> r.Contents()[i] == 0
    ensures if a.len + n <= a.cap then r == a.(len := a.len + n) else fresh(r.arr)
    ensures forall i | 0 <= i < a.arr.Length ::
              (a.len + n <= a.cap && a.off + a.len <= i < a.off + a.len + n) || a.arr[i] == old(a.arr[i])
  {
    if a.len + n <= a.cap {
      forall i | a.off + a.len <= i < a.off + a.len + n {
        a.arr[i] := 0;
      }
      r := a.(len := a.len + n);
    } else {
      ghost var was := a.Contents();
      var arr := new byte[a.len + n + spare](i requires 0 <= i reads a.arr =>
        if i < a.len && a.off + i < a.arr.Length then a.arr[a.off + i] else 0);
      r := Slice(arr, 0, a.len + n, a.len + n + spare);
      assert forall i :: 0 <= i < a.len ==> r.Contents()[i] == was[i];
    }
  }

  // ----- slices that share an array -------------------------------------------------------

  /** Making room for `d` bytes at `at` in the text of `a` does not write over `b`: `a` moves to a new
      array, or `b` ends before what moves or what is added, or begins behind both. */
  predicate Spared(a: Slice, at: nat, d: nat, b: Slice) {
    || a.arr != b.arr
    || a.cap < a.len + d
    || b.off + b.len <= a.off + (if at + d <= a.len then at + d else a.len)
    || a.off + a.len + d <= b.off
  }

  /** The windows of two slices, up to their capacity, share no byte. */
  predicate Apart(a: Slice, b: Slice) {
    a.arr != b.arr || b.off + b.len <= a.off || a.off + a.cap <= b.off
  }

  lemma ApartSpared(a: Slice, at: nat, d: nat, b: Slice)
    requires Apart(a, b)
    ensures Spared(a, at, d, b)
  {}

  lemma OverOutside(w: seq<byte>, at: nat, piece: seq<byte>, off: nat, len: nat)
    requires at + |piece| <= |w| && off + len <= |w|
    requires off + len <= at || at + |piece| <= off
    ensures Window(Over(w, at, piece), off, len) == Window(w, off, len)
  {}

  // ----- the overlapping copies, on the whole backing array ------------------------------

  lemma OverAt(w: seq<byte>, at: nat, piece: seq<byte>, i: nat)
    requires at + |piece| <= |w| && i < |w|
    ensures Over(w, at, piece)[i] == if at <= i < at + |piece| then piece[i - at] else w[i]
  {}

  lemma OverSame(w: seq<byte>, at: nat, len: nat)
    requires at + len <= |w|
    ensures Over(w, at, Window(w, at, len)) == w
  {}

  /** Pulling the tail left over the range cuts it. */
  lemma ShiftLeftCuts(w: seq<byte>, off: nat, len: nat, from: nat, to: nat)
    requires from <= to <= len && off + len <= |w|
    ensures Window(Over(w, off + from, Window(w, off + to, len - to)), off, len - to + from)
            == Cut(Window(w, off, len), from, to)
  {}

  /** Shifting the tail right by `d` and writing `b` over the widened range replaces it. */
  lemma ShiftRightReplaces(w: seq<byte>, w1: seq<byte>, w2: seq<byte>,
                           off: nat, len: nat, from: nat, to: nat, b: seq<byte>, d: nat)
    requires from <= to <= len && |b| == to - from + d
    requires off + len + d <= |w|
    requires w1 == Over(w, off + to + d, Window(w, off + to, len - to))
    requires w2 == Over(w1, off + from, b)
    ensures Window(w2, off, len + d) == Replace(Window(w, off, len), from, to, b)
  {
    hide Over, Replace;
    var was := Window(w, off, len);
    ReplaceSplits(was, from, to, b);
    var tail := Window(w, off + to, len - to);
    var now, target := Window(w2, off, len + d), was[..from] + b + was[to..];
    forall k | 0 <= k < len + d
      ensures now[k] == target[k]
    {
      OverAt(w1, off + from, b, off + k);
      OverAt(w, off + to + d, tail, off + k);
    }
  }

  /** Writing a shorter `b` over the range and pulling the tail left replaces it. */
  lemma ShiftLeftReplaces(w: seq<byte>, w1: seq<byte>, w2: seq<byte>,
                          off: nat, len: nat, from: nat, to: nat, b: seq<byte>)
    requires from + |b| <= to <= len && off + len <= |w|
    requires w1 == Over(w, off + from, b)
    requires w2 == Over(w1, off + from + |b|, Window(w1, off + to, len - to))
    ensures Window(w2, off, from + |b| + len - to) == Replace(Window(w, off, len), from, to, b)
  {
    hide Over, Replace;
    var was := Window(w, off, len);
    ReplaceSplits(was, from, to, b);
    var tail := Window(w1, off + to, len - to);
    assert tail == was[to..] by {
      forall k | 0 <= k < len - to
        ensures tail[k] == was[to + k]
      {
        OverAt(w, off + from, b, off + to + k);
      }
    }
    var now, target := Window(w2, off, from + |b| + len - to), was[..from] + b + was[to..];
    forall k | 0 <= k < from + |b| + len - to
      ensures now[k] == target[k]
    {
      OverAt(w1, off + from + |b|, tail, off + k);
      OverAt(w, off + from, b, off + k);
      assert now[k] == w2[off + k];
      assert target[k] == if k < from then was[k] else if k < from + |b| then b[k - from] else tail[k - from - |b|];
    }
  }

  // ----- the three edits ---------------------------------------------------------------

  method CutSlice(a: Slice, from: nat, to: nat) returns (r: Slice)
    requires a.Valid() && from <= to <= a.len
    modifies a.arr
    ensures r == a.(len := a.len - to + from)
    ensures r.Contents() == Cut(old(a.Contents()), from, to)
  {
    hide Over, Window, Cut;
    ghost var w := a.arr[..];
    CopyWithin(a, from, to, a.len - to);
    r := a.Upto(a.len - to + from);
    ShiftLeftCuts(w, a.off, a.len, from, to);
  }

  method InsertSlice(a: Slice, i: nat, b: Slice, spare: nat) returns (r: Slice)
    requires a.Valid() && b.Valid() && i <= a.len
    modifies a.arr
    ensures r.Valid() && (r.arr == a.arr || fresh(r.arr))
    ensures Spared(a, i, b.len, b) ==> r.Contents() == Insert(old(a.Contents()), i, old(b.Contents()))
  {
    ghost var was, text := a.Contents(), b.Contents();
    r := Widen(a, i, b.len, b, spare);
    OpenGap(r, a.len, i, i, b);
    ReplaceSplits(was, i, i, text);
  }

  /** `append(a, make([]byte, d)...)` and what it leaves of `b`. */
  method Widen(a: Slice, ghost at: nat, d: nat, ghost b: Slice, spare: nat) returns (r: Slice)
    requires a.Valid() && b.Valid() && at <= a.len
    modifies a.arr
    ensures r.Valid() && (r.arr == a.arr || fresh(r.arr)) && r.len == a.len + d
    ensures Window(r.arr[..], r.off, a.len) == old(a.Contents())
    ensures Spared(a, at, d, b) ==> Unmoved(r, at + d, b) && b.Contents() == old(b.Contents())
  {
    r := AppendZeros(a, d, spare);
  }

  /** Moving what stands in `r` from `at` on does not touch `b`. */
  predicate Unmoved(r: Slice, at: nat, b: Slice) {
    r.arr != b.arr || b.off + b.len <= r.off + at || r.off + r.len <= b.off
  }

  /** `copy(r[to+d:], r[to:])` then `copy(r[from:from+len(b)], b)`, where `r` is `d` longer than
      the text in it. */
  method OpenGap(r: Slice, len: nat, from: nat, to: nat, b: Slice)
    requires r.Valid() && b.Valid()
    requires from <= to <= len && to - from <= b.len && r.len == len + b.len - (to - from)
    modifies r.arr
    ensures Unmoved(r, from + b.len, b) ==>
              r.Contents() == Replace(Window(old(r.arr[..]), r.off, len), from, to, old(b.Contents()))
  {
    hide Over, Window, Replace;
    var d := b.len - (to - from);
    ghost var w, text := r.arr[..], b.Contents();
    CopyWithin(r, to + d, to, len - to);
    ghost var w1 := r.arr[..];
    if Unmoved(r, from + b.len, b) && r.arr == b.arr {
      OverOutside(w, r.off + to + d, Window(w, r.off + to, len - to), b.off, b.len);
    }
    var dst := Slice(r.arr, r.off + from, b.len, b.len);
    var _ := Copy(dst, b);
    if Unmoved(r, from + b.len, b) {
      ShiftRightReplaces(w, w1, r.arr[..], r.off, len, from, to, text, d);
    }
  }

  /** `copy(r[at:], r[from:])` where `n` bytes fit. */
  method CopyWithin(r: Slice, at: nat, from: nat, n: nat)
    requires r.Valid() && from <= r.len && at <= r.len
    requires n == if r.len - at <= r.len - from then r.len - at else r.len - from
    modifies r.arr
    ensures r.arr[..] == Over(old(r.arr[..]), r.off + at, Window(old(r.arr[..]), r.off + from, n))
  {
    hide Over, Window;
    var dst, src := r.From(at), r.From(from);
    var _ := Copy(dst, src);
  }

  method ReplaceSlice(a: Slice, from: nat, to: nat, b: Slice, spare: nat) returns (r: Slice)
    requires a.Valid() && b.Valid() && from <= to <= a.len
    modifies a.arr
    ensures r.Valid() && (r.arr == a.arr || fresh(r.arr))
    ensures b.len <= to - from || Spared(a, to, b.len - (to - from), b) ==>
              r.Contents() == Replace(old(a.Contents()), from, to, old(b.Contents()))
  {
    hide Spared, Unmoved;
    ghost var text := b.Contents();
    if b.len > to - from {
      r := Widen(a, to, b.len - (to - from), b, spare);
      OpenGap(r, a.len, from, to, b);
    } else {
      r := CloseGap(a, from, to, b);
    }
  }

  /** `Replace` with new bytes that share none with the slice. */
  method ReplaceApart(a: Slice, from: nat, to: nat, b: Slice, spare: nat) returns (r: Slice)
    requires a.Valid() && b.Valid() && from <= to <= a.len
    modifies a.arr
    ensures r.Valid() && (r.arr == a.arr || fresh(r.arr))
    ensures Apart(a, b) ==> r.Contents() == Replace(old(a.Contents()), from, to, old(b.Contents()))
  {
    hide Apart, Spared, Replace;
    if Apart(a, b) && b.len > to - from {
      ApartSpared(a, to, b.len - (to - from), b);
    }
    r := ReplaceSlice(a, from, to, b, spare);
  }

  /** `copy(a[from:], b)` then `copy(a[from+len(b):], a[to:])`; the second copy is skipped when the
      lengths agree. The first copy has read all of `b`, so the two may share bytes. */
  method CloseGap(a: Slice, from: nat, to: nat, b: Slice) returns (r: Slice)
    requires a.Valid() && b.Valid() && from + b.len <= to <= a.len
    modifies a.arr
    ensures r == a.(len := a.len - (to - from) + b.len)
    ensures r.Contents() == Replace(old(a.Contents()), from, to, old(b.Contents()))
  {
    hide Over, Window, Replace;
    ghost var w, text := a.arr[..], b.Contents();
    r := a.Upto(a.len - (to - from) + b.len);
    var dst := a.From(from);
    var n := Copy(dst, b);
    ghost var w1 := a.arr[..];
    if n < to - from {
      CopyWithin(a, from + n, to, a.len - to);
    } else {
      OverSame(w1, a.off + to, a.len - to);
    }
    ShiftLeftReplaces(w, w1, a.arr[..], a.off, a.len, from, to, text);
  }
}
