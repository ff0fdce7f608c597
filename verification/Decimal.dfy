/** Text and numbers: `atoI` of proto.go, and the decimal conversions of Go's `strconv`. */
module Decimal {
  import opened Bytes

  const MAX_INT64: int := 0x7fff_ffff_ffff_ffff
  const MIN_INT64: int := -0x8000_0000_0000_0000

  /** Two's complement wrap-around of a 64-bit Go `int`. */
  function Wrap64(x: int): (r: int64) {
    (x + 0x8000_0000_0000_0000) % 0x1_0000_0000_0000_0000 - 0x8000_0000_0000_0000
  }

  /** `hexTable`: bytes without an entry read as 0. */
  function HexTable(b: byte): (r: nat) {
    if 48 <= b <= 57 then b - 48
    else if 65 <= b <= 70 then b - 55
    else if 97 <= b <= 102 then b - 87
    else 0
  }

  /** The guard of `atoI`'s loop body: `b` is a digit below `base`. */
  predicate IsDigit(b: byte, base: nat) {
    b <= 127 && HexTable(b) < base && (HexTable(b) != 0 || b == 48)
  }

  /** `atoI`: the number read so far and whether the whole text was digits. */
  function AtoI(s: seq<byte>, base: nat): (int64, bool) {
    if s == [] then (0, true)
    else
      var (num, ok) := AtoI(s[..|s| - 1], base);
      if !ok || !IsDigit(s[|s| - 1], base) then (num, false)
      else (Wrap64(num * base + HexTable(s[|s| - 1])), true)
  }

  method ParseUnsigned(s: seq<byte>, base: nat) returns (num: int64, ok: bool)
    ensures (num, ok) == AtoI(s, base)
  {
    num, ok := 0, true;
    var i := 0;
    while i < |s|
      invariant 0 <= i <= |s|
      invariant ok && (num, ok) == AtoI(s[..i], base)
    {
      assert s[..i + 1][..i] == s[..i];
      if s[i] > 127 {
        ok := false;
        AtoIStops(s, base, i);
        return;
      }
      var v := HexTable(s[i]);
      if v >= base || (v == 0 && s[i] != 48) {
        ok := false;
        AtoIStops(s, base, i);
        return;
      }
      num := Wrap64(num * base + v);
      i := i + 1;
    }
    assert s[..i] == s;
  }

  /** `AtoI` keeps the number of the longest all-digit prefix. */
  lemma {:induction false} AtoIStops(s: seq<byte>, base: nat, i: nat)
    requires i < |s| && AtoI(s[..i], base).1 && !IsDigit(s[i], base)
    ensures AtoI(s, base) == (AtoI(s[..i], base).0, false)
  {
    if |s| == i + 1 {
      assert s[..|s| - 1] == s[..i];
    } else {
      var t := s[..|s| - 1];
      assert t[..i] == s[..i];
      AtoIStops(t, base, i);
    }
  }

  /** The number a text of digits denotes. */
  function Value(s: seq<byte>, base: nat): nat {
    if s == [] then 0 else Value(s[..|s| - 1], base) * base + HexTable(s[|s| - 1])
  }

  /** On digits `atoI` is the number they denote, as long as that fits a machine int. */
  lemma {:induction false} AtoIReads(s: seq<byte>, base: nat)
    requires base > 0
    requires forall i :: 0 <= i < |s| ==> IsDigit(s[i], base)
    requires Value(s, base) <= MAX_INT64
    ensures AtoI(s, base) == (Value(s, base), true)
  {
    if s != [] {
      var t := s[..|s| - 1];
      var v := Value(t, base);
      MulGrows(v, base);
      AtoIReads(t, base);
      WrapFits(v * base + HexTable(s[|s| - 1]));
    }
  }

  lemma MulGrows(v: nat, base: nat)
    requires base > 0
    ensures v <= v * base
  {
    assert v * base == v + v * (base - 1);
    assert v * (base - 1) >= 0;
  }

  lemma WrapFits(x: int)
    requires MIN_INT64 <= x <= MAX_INT64
    ensures Wrap64(x) == x
  {}

  // ----- strconv ---------------------------------------------------------------------

  /** `strconv.Itoa` of a natural number. */
  function FormatNat(n: nat): (r: seq<byte>)
    ensures |r| >= 1
    ensures AllDigits(r)
  {
    if n < 10 then [48 + n] else FormatNat(n / 10) + [48 + n % 10]
  }

  /** `%d`. */
  function FormatInt(n: int): seq<byte> {
    if n < 0 then [45] + FormatNat(-n) else FormatNat(n)
  }

  predicate AllDigits(s: seq<byte>) {
    forall i :: 0 <= i < |s| ==> 48 <= s[i] <= 57
  }

  /** The integer a decimal text with an optional sign denotes. */
  function ReadDecimal(s: seq<byte>): Option<int> {
    var digits := if s != [] && (s[0] == 43 || s[0] == 45) then s[1..] else s;
    if digits == [] || !AllDigits(digits) then None
    else if s[0] == 45 then Some(-(Value(digits, 10) as int))
    else Some(Value(digits, 10))
  }

  /** The value `strconv.ParseInt(s, 10, 64)` returns: 0 beside a syntax error, the nearest bound
      beside a range error. */
  function ParseInt(s: seq<byte>): int64 {
    match ReadDecimal(s)
    case None => 0
    case Some(n) => if n > MAX_INT64 then MAX_INT64 else if n < MIN_INT64 then MIN_INT64 else n
  }

  lemma {:induction false} ValueOfFormat(n: nat)
    ensures Value(FormatNat(n), 10) == n
  {
    if n >= 10 {
      var s := FormatNat(n);
      assert s[..|s| - 1] == FormatNat(n / 10);
      ValueOfFormat(n / 10);
    } else {
      assert FormatNat(n)[..0] == [];
    }
  }

  /** `ParseInt` undoes `%d` on every 64-bit integer. */
  lemma ParseFormat(n: int64)
    ensures ParseInt(FormatInt(n)) == n
  {
    var m: int := n;
    ReadFormat(m);
    assert ReadDecimal(FormatInt(m)) == Some(m);
  }

  lemma ReadFormat(m: int)
    ensures ReadDecimal(FormatInt(m)) == Some(m)
  {
    var abs: nat := if m < 0 then -m else m;
    var digits := FormatNat(abs);
    ValueOfFormat(abs);
    assert digits[0] != 43 && digits[0] != 45;
    if m < 0 {
      assert FormatInt(m)[1..] == digits;
    }
  }
}
