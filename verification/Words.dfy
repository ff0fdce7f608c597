/** Machine words: OR of shifted fields, big-endian bytes and hexadecimal text. */
module Words {
  import opened Bytes

  lemma {:induction false} Pow2Sum(a: nat, b: nat)
    ensures Pow2(a + b) == Pow2(a) * Pow2(b)
  {
    if a > 0 {
      Pow2Sum(a - 1, b);
      assert Pow2(a + b) == 2 * Pow2(a - 1 + b);
    }
  }

  lemma Pow2Words()
    ensures Pow2(2) == 4 && Pow2(16) == 0x1_0000 && Pow2(32) == 0x1_0000_0000
  {
    assert Pow2(4) == 16;
    Pow2Sum(4, 4);
    Pow2Sum(8, 8);
    Pow2Sum(16, 16);
  }

  /** OR works on high and low parts separately. */
  lemma {:induction false} BitOrParts(u: nat, c: nat, v: nat, d: nat, k: nat)
    requires c < Pow2(k) && d < Pow2(k)
    ensures BitOr(u * Pow2(k) + c, v * Pow2(k) + d) == BitOr(u, v) * Pow2(k) + BitOr(c, d)
    ensures BitOr(c, d) < Pow2(k)
  {
    hide BitOr;
    if k > 0 {
      var p := Pow2(k - 1);
      BitOrParts(u, c / 2, v, d / 2, k - 1);
      OrHalves(u * p, c, v * p, d);
      OrStep(c, d);
      Double(u, p);
      Double(v, p);
      Double(BitOr(u, v), p);
    } else {
      OrStep(0, 0);
    }
  }

  lemma OrHalves(x: nat, c: nat, y: nat, d: nat)
    ensures BitOr(2 * x + c, 2 * y + d)
         == (if c % 2 == 1 || d % 2 == 1 then 1 else 0) + 2 * BitOr(x + c / 2, y + d / 2)
  {
    OrStep(2 * x + c, 2 * y + d);
    assert (2 * x + c) / 2 == x + c / 2 && (2 * y + d) / 2 == y + d / 2;
  }

  lemma Double(u: nat, p: nat)
    ensures u * (2 * p) == 2 * (u * p)
  {}

  lemma OrStep(a: nat, b: nat)
    ensures BitOr(a, b) == (if a % 2 == 1 || b % 2 == 1 then 1 else 0) + 2 * BitOr(a / 2, b / 2)
  {
    if a == 0 && b == 0 {
      assert BitOr(0, 0) == 0;
    }
  }

  lemma {:induction false} BitOrZero(a: nat)
    ensures BitOr(a, 0) == a && BitOr(0, a) == a
  {
    if a > 0 {
      BitOrZero(a / 2);
    }
  }

  // ----- big-endian bytes -----------------------------------------------------------------

  /** `binary.BigEndian.PutUint..`: the low `k` bytes of `x`. */
  function BigEndian(x: nat, k: nat): (r: seq<byte>)
    ensures |r| == k
  {
    if k == 0 then [] else BigEndian(x / 256, k - 1) + [x % 256]
  }

  /** `binary.BigEndian.Uint..`. */
  function FromBigEndian(s: seq<byte>): nat {
    if s == [] then 0 else FromBigEndian(s[..|s| - 1]) * 256 + s[|s| - 1]
  }

  lemma Pow2Byte(k: nat)
    ensures Pow2(8 * (k + 1)) == 256 * Pow2(8 * k)
  {
    assert Pow2(4) == 16;
    Pow2Sum(4, 4);
    Pow2Sum(8, 8 * k);
  }

  lemma {:induction false} FromBigEndianBound(s: seq<byte>)
    ensures FromBigEndian(s) < Pow2(8 * |s|)
  {
    if s != [] {
      FromBigEndianBound(s[..|s| - 1]);
      Pow2Byte(|s| - 1);
    }
  }

  lemma {:induction false} BigEndianRoundTrip(x: nat, k: nat)
    requires x < Pow2(8 * k)
    ensures FromBigEndian(BigEndian(x, k)) == x
  {
    if k > 0 {
      Pow2Byte(k - 1);
      assert x / 256 < Pow2(8 * (k - 1));
      BigEndianRoundTrip(x / 256, k - 1);
      var s := BigEndian(x, k);
      assert s[..|s| - 1] == BigEndian(x / 256, k - 1);
    }
  }

  lemma Pow2Bytes()
    ensures Pow2(8 * 2) == 0x1_0000 && Pow2(8 * 4) == 0x1_0000_0000 && Pow2(8 * 8) == 0x1_0000_0000_0000_0000
  {
    Pow2Words();
    Pow2Sum(32, 32);
  }

  lemma FromPush(s: seq<byte>, b: byte)
    ensures FromBigEndian(s + [b]) == FromBigEndian(s) * 256 + b
  {
    assert (s + [b])[..|s|] == s;
  }

  lemma Word16Bytes(a: byte, b: byte)
    ensures FromBigEndian([a, b]) == a * 0x100 + b
  {
    FromPush([], a);
    FromPush([a], b);
    assert [] + [a] == [a] && [a] + [b] == [a, b];
  }

  lemma Word32Bytes(a: byte, b: byte, c: byte, d: byte)
    ensures FromBigEndian([a, b, c, d]) == a * 0x100_0000 + b * 0x1_0000 + c * 0x100 + d
  {
    hide FromBigEndian;
    Word16Bytes(a, b);
    FromPush([a, b], c);
    FromPush([a, b, c], d);
    assert [a, b] + [c] == [a, b, c] && [a, b, c] + [d] == [a, b, c, d];
  }

  /** The bytes written are the base-256 digits, the highest first. */
  lemma BytesOfWord16(x: nat)
    requires x < 0x1_0000
    ensures BigEndian(x, 2) == [x / 256, x % 256]
  {
    assert BigEndian(x / 256, 1) == BigEndian(x / 256 / 256, 0) + [x / 256 % 256];
  }

  lemma BytesOfWord32(x: nat)
    requires x < 0x1_0000_0000
    ensures BigEndian(x, 4) == [x / 256 / 256 / 256, x / 256 / 256 % 256, x / 256 % 256, x % 256]
  {
    hide BigEndian;
    BytesOfWord16(x / 256 / 256);
    BytesPush(x, 3);
    BytesPush(x / 256, 2);
  }

  lemma BytesPush(x: nat, k: nat)
    ensures BigEndian(x, k + 1) == BigEndian(x / 256, k) + [x % 256]
  {}

  /** One byte of a number whose low part is `low`. */
  lemma LowByte(hi: nat, k: nat, low: nat)
    ensures (hi * (256 * k) + low) / 256 == hi * k + low / 256
    ensures (hi * (256 * k) + low) % 256 == low % 256
  {
    var n := hi * k;
    assert hi * (256 * k) == 256 * n;
  }

  // ----- hexadecimal ----------------------------------------------------------------------

  function HexDigit(n: nat): byte
    requires n < 16
  {
    if n < 10 then 48 + n else 87 + n
  }

  /** `hex.Encode`. */
  function Hex(s: seq<byte>): (r: seq<byte>)
    ensures |r| == 2 * |s|
  {
    if s == [] then [] else [HexDigit(s[0] / 16), HexDigit(s[0] % 16)] + Hex(s[1..])
  }

  lemma DigitText(n: nat)
    requires n < 16
    ensures HexDigit(n) == Ascii("0123456789abcdef")[n]
  {}

  /** Each byte is written as two digits of `0123456789abcdef`. */
  lemma {:induction false} HexDigits(s: seq<byte>, i: nat)
    requires i < |s|
    ensures var digits := Ascii("0123456789abcdef");
            Hex(s)[2 * i] == digits[s[i] / 16] && Hex(s)[2 * i + 1] == digits[s[i] % 16]
  {
    hide HexDigit, Ascii;
    DigitText(s[i] / 16);
    DigitText(s[i] % 16);
    if i > 0 {
      HexDigits(s[1..], i - 1);
      assert Hex(s)[2..] == Hex(s[1..]);
      assert Hex(s)[2 * i] == Hex(s[1..])[2 * (i - 1)] && Hex(s)[2 * i + 1] == Hex(s[1..])[2 * (i - 1) + 1];
    }
  }

  lemma {:induction false} HexInjective(s: seq<byte>, t: seq<byte>)
    requires Hex(s) == Hex(t)
    ensures s == t
  {
    assert |s| == |t|;
    if s != [] {
      var a, b := Hex(s), Hex(t);
      assert a[2..] == Hex(s[1..]) && b[2..] == Hex(t[1..]);
      HexInjective(s[1..], t[1..]);
      assert a[0] == b[0] && a[1] == b[1];
      assert s == [s[0]] + s[1..] && t == [t[0]] + t[1..];
    }
  }
}
