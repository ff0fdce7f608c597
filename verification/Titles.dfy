/** proto.go: recognising an HTTP/1 title line, and the positions around the header section. */
module Titles {
  import opened Bytes
  import opened Decimal

  function HeadersStart(p: seq<byte>): (r: int)
    ensures r == -1 || 2 <= r <= |p|
  {
    var pos := Index(p, CRLF);
    if pos < 0 then -1 else pos + 2
  }

  function HeadersEnd(p: seq<byte>): (r: int)
    ensures r == -1 || 4 <= r <= |p|
  {
    var pos := Index(p, EMPTY_LINE);
    if pos < 0 then -1 else pos + 4
  }

  function Body(p: seq<byte>): seq<byte> {
    var pos := HeadersEnd(p);
    if pos == -1 then [] else p[pos..]
  }

  /** `Method`: the text before the first space. */
  function Method(p: seq<byte>): seq<byte> {
    var end := IndexByte(p, SPACE);
    if end == -1 then [] else p[..end]
  }

  const METHODS: set<seq<byte>> := {
    Ascii("CONNECT"), Ascii("DELETE"), Ascii("GET"), Ascii("HEAD"), Ascii("OPTIONS"),
    Ascii("PATCH"), Ascii("POST"), Ascii("PUT"), Ascii("TRACE")
  }
  const MIN_REQUEST_COUNT := 16
  const MIN_RESPONSE_COUNT := 14
  const VERSION_LEN := 8

  /** `http.ParseHTTPVersion`: major and minor number, each at most a million. */
  function ParseVersion(v: seq<byte>): Option<(nat, nat)> {
    if !(Ascii("HTTP/") <= v) then None
    else
      var dot := IndexByte(v, 46);
      if dot < 5 then None
      else
        match (ReadDecimal(v[5..dot]), ReadDecimal(v[dot + 1..]))
        case (Some(major), Some(minor)) =>
          if 0 <= major <= 1_000_000 && 0 <= minor <= 1_000_000 then Some((major, minor)) else None
        case _ => None
  }

  predicate IsHttp1(v: seq<byte>) {
    ParseVersion(v) == Some((1, 0)) || ParseVersion(v) == Some((1, 1))
  }

  /** The status codes `http.StatusText` has a text for. */
  predicate KnownStatus(code: int) {
    100 <= code <= 103 || 200 <= code <= 208 || code == 226 ||
    300 <= code <= 305 || code == 307 || code == 308 ||
    400 <= code <= 418 || 421 <= code <= 426 || code == 428 || code == 429 || code == 431 || code == 451 ||
    500 <= code <= 508 || code == 510 || code == 511
  }

  /** The first line of a request: a method, a path and an HTTP/1 version, one space apart. */
  predicate RequestLine(line: seq<byte>) {
    var f := IndexByte(line, SPACE);
    && multiset(line)[SPACE] == 2
    && f >= 0
    && line[..f] in METHODS
    && var g := IndexByte(line[f + 1..], SPACE);
    g >= 0 && IsHttp1(line[f + 1 + g + 1..])
  }

  predicate HasRequestTitle(p: seq<byte>) {
    |p| >= MIN_REQUEST_COUNT &&
    var end := Index(p, CRLF);
    end >= 0 && RequestLine(p[..end])
  }

  /** The bytes up to and including the one after the status code. */
  predicate StatusLine(head: seq<byte>)
    requires |head| == VERSION_LEN + 5
  {
    && IsHttp1(head[..VERSION_LEN])
    && head[VERSION_LEN] == SPACE
    && var (status, ok) := AtoI(head[VERSION_LEN + 1..VERSION_LEN + 4], 10);
    && ok && KnownStatus(status)
    && (head[VERSION_LEN + 4] == SPACE || head[VERSION_LEN + 4] == CR)
  }

  predicate HasResponseTitle(p: seq<byte>) {
    |p| >= MIN_RESPONSE_COUNT && Index(p, CRLF) >= 0 && StatusLine(p[..VERSION_LEN + 5])
  }

  predicate HasTitle(p: seq<byte>) {
    HasRequestTitle(p) || HasResponseTitle(p)
  }

  // ----- a title depends on its own line only ------------------------------------------

  lemma FirstLineEnd(p: seq<byte>, q: seq<byte>)
    requires HeadersStart(p) >= 0
    requires p[..HeadersStart(p)] <= q
    ensures HeadersStart(q) == HeadersStart(p)
  {
    var k := Index(p, CRLF);
    var cut := p[..k + 2];
    assert q[k..k + 2] == cut[k..k + 2] == p[k..k + 2];
    forall j | j < k
      ensures !At(q, CRLF, j)
    {
      if At(q, CRLF, j) {
        assert q[j..j + 2] == cut[j..j + 2] == p[j..j + 2];
        assert At(p, CRLF, j);
      }
    }
    IndexIs(q, CRLF, k);
  }

  /** A response title ends inside the first line. */
  lemma StatusLineShort(p: seq<byte>)
    requires HasResponseTitle(p)
    ensures HeadersStart(p) >= MIN_RESPONSE_COUNT
  {
    hide StatusLine, At;
    var head := p[..VERSION_LEN + 5];
    var k := Index(p, CRLF);
    BreakChars(p, k);
    if k < VERSION_LEN + 4 {
      assert head[k] == p[k];
      StatusLineNoCr(head, k);
    }
  }

  lemma StatusLineNoCr(head: seq<byte>, k: nat)
    requires |head| == VERSION_LEN + 5 && StatusLine(head)
    requires k < VERSION_LEN + 4
    ensures head[k] != CR
  {
    if k < VERSION_LEN {
      VersionChars(head[..VERSION_LEN], k);
    } else if VERSION_LEN < k < VERSION_LEN + 4 {
      var digits := head[VERSION_LEN + 1..VERSION_LEN + 4];
      DigitsOnly(digits, 10, k - VERSION_LEN - 1);
    }
  }

  lemma VersionLength(v: seq<byte>)
    requires IsHttp1(v)
    ensures |v| >= VERSION_LEN
  {
    var dot := IndexByte(v, 46);
    assert ReadDecimal(v[5..dot]).Some? && ReadDecimal(v[dot + 1..]).Some?;
  }

  /** No title line is shorter than `HTTP/1.1 200`. */
  lemma TitleLength(p: seq<byte>)
    requires HasTitle(p)
    ensures 14 <= HeadersStart(p) <= |p|
  {
    if HasResponseTitle(p) {
      StatusLineShort(p);
    } else {
      var line := p[..Index(p, CRLF)];
      RequestLineLength(line);
    }
  }

  lemma RequestLineLength(line: seq<byte>)
    requires RequestLine(line)
    ensures |line| >= 13
  {
    hide IsHttp1, METHODS;
    var f := IndexByte(line, SPACE);
    var g := IndexByte(line[f + 1..], SPACE);
    VersionLength(line[f + 1 + g + 1..]);
    MethodChars(line[..f]);
  }

  lemma VersionChars(v: seq<byte>, k: nat)
    requires IsHttp1(v) && k < |v|
    ensures v[k] != CR && v[k] != COLON
  {
    var dot := IndexByte(v, 46);
    assert v[..5] == Ascii("HTTP/");
    if k > dot {
      assert v[dot + 1..][k - dot - 1] == v[k];
      DecimalChars(v[dot + 1..], k - dot - 1);
    } else if 5 <= k < dot {
      assert v[5..dot][k - 5] == v[k];
      DecimalChars(v[5..dot], k - 5);
    }
  }

  lemma DecimalChars(s: seq<byte>, k: nat)
    requires ReadDecimal(s).Some? && k < |s|
    ensures s[k] != CR && s[k] != COLON
  {
    var digits := if s != [] && (s[0] == 43 || s[0] == 45) then s[1..] else s;
    assert AllDigits(digits);
    assert s[k] == (if |digits| == |s| then digits[k] else if k == 0 then s[0] else digits[k - 1]);
  }

  lemma {:induction false} DigitsOnly(s: seq<byte>, base: nat, k: nat)
    requires AtoI(s, base).1 && k < |s|
    ensures IsDigit(s[k], base)
  {
    if k < |s| - 1 {
      DigitsOnly(s[..|s| - 1], base, k);
    }
  }

  /** Rewriting anything after the first line keeps the title, as long as the payload stays long enough. */
  lemma TitleLocal(p: seq<byte>, q: seq<byte>)
    requires HasTitle(p)
    requires HeadersStart(p) >= 2 ==> p[..HeadersStart(p)] <= q
    requires |q| >= MIN_REQUEST_COUNT
    ensures HasTitle(q) && HeadersStart(q) == HeadersStart(p)
    ensures HasRequestTitle(p) ==> HasRequestTitle(q)
  {
    hide HasRequestTitle, HasResponseTitle;
    TitledStart(p);
    FirstLineEnd(p, q);
    if HasRequestTitle(p) {
      RequestTitleLocal(p, q);
    }
    if HasResponseTitle(p) {
      ResponseTitleLocal(p, q);
    }
  }

  lemma RequestTitleLocal(p: seq<byte>, q: seq<byte>)
    requires HasRequestTitle(p) && HeadersStart(p) >= 2 && HeadersStart(q) == HeadersStart(p)
    requires p[..HeadersStart(p)] <= q && |q| >= MIN_REQUEST_COUNT
    ensures HasRequestTitle(q)
  {
    hide RequestLine, Index;
    var start := HeadersStart(p);
    assert p[..start - 2] == p[..start][..start - 2] == q[..start - 2];
  }

  lemma ResponseTitleLocal(p: seq<byte>, q: seq<byte>)
    requires HasResponseTitle(p) && HeadersStart(p) >= 2 && HeadersStart(q) == HeadersStart(p)
    requires p[..HeadersStart(p)] <= q && |q| >= MIN_REQUEST_COUNT
    ensures HasResponseTitle(q)
  {
    hide StatusLine, Index;
    StatusLineShort(p);
    var start := HeadersStart(p);
    assert p[..VERSION_LEN + 5] == p[..start][..VERSION_LEN + 5] == q[..VERSION_LEN + 5];
  }

  lemma TitledStart(p: seq<byte>)
    requires HasTitle(p)
    ensures 2 <= HeadersStart(p) <= |p|
  {
    hide RequestLine, StatusLine;
  }

  /** A response title is kept however short the payload gets behind it. */
  lemma ResponseLocal(p: seq<byte>, q: seq<byte>)
    requires HasResponseTitle(p) && 2 <= HeadersStart(p) <= |p| && p[..HeadersStart(p)] <= q
    ensures HasResponseTitle(q) && HeadersStart(q) == HeadersStart(p)
  {
    hide StatusLine, Index;
    FirstLineEnd(p, q);
    StatusLineShort(p);
    var start := HeadersStart(p);
    assert p[..VERSION_LEN + 5] == p[..start][..VERSION_LEN + 5] == q[..VERSION_LEN + 5];
  }

  /** A request line too short for a title of its own has an empty path, and no colon. */
  lemma ShortLineNoColon(line: seq<byte>, k: nat)
    requires RequestLine(line) && |line| <= 13 && k < |line|
    ensures line[k] != COLON
  {
    hide IsHttp1, METHODS;
    var f := IndexByte(line, SPACE);
    var g := IndexByte(line[f + 1..], SPACE);
    var v := line[f + 1 + g + 1..];
    VersionLength(v);
    MethodChars(line[..f]);
    assert g == 0 && line[f + 1] == line[f + 1..][0] == SPACE;
    if k < f {
      assert line[k] == line[..f][k];
    } else if k >= f + 2 {
      assert line[k] == v[k - f - 2];
      VersionChars(v, k - f - 2);
    }
  }

  lemma MethodChars(m: seq<byte>)
    requires m in METHODS
    ensures |m| >= 3 && COLON !in m
  {}

  // ----- responses ---------------------------------------------------------------------------

  /** The registered status codes. */
  const STATUS_CODES: set<int> := SUCCESS_CODES + REDIRECTION_CODES + CLIENT_CODES + SERVER_CODES
  const SUCCESS_CODES: set<int> := {100, 101, 102, 103, 200, 201, 202, 203, 204, 205, 206, 207, 208, 226}
  const REDIRECTION_CODES: set<int> := {300, 301, 302, 303, 304, 305, 307, 308}
  const CLIENT_CODES: set<int> := {
    400, 401, 402, 403, 404, 405, 406, 407, 408, 409, 410, 411, 412, 413, 414, 415, 416, 417, 418,
    421, 422, 423, 424, 425, 426, 428, 429, 431, 451
  }
  const SERVER_CODES: set<int> := {500, 501, 502, 503, 504, 505, 506, 507, 508, 510, 511}

  lemma SuccessCodes(n: int)
    ensures n in SUCCESS_CODES <==> KnownStatus(n) && n < 300
  {}

  lemma RedirectionCodes(n: int)
    ensures n in REDIRECTION_CODES <==> KnownStatus(n) && 300 <= n < 400
  {}

  lemma ClientCodes(n: int)
    ensures n in CLIENT_CODES <==> KnownStatus(n) && 400 <= n < 500
  {}

  lemma ServerCodes(n: int)
    ensures n in SERVER_CODES <==> KnownStatus(n) && 500 <= n
  {}

  /** The codes the title test knows are those. */
  lemma StatusCodes(n: int)
    ensures KnownStatus(n) <==> n in STATUS_CODES
  {
    hide KnownStatus, SUCCESS_CODES, REDIRECTION_CODES, CLIENT_CODES, SERVER_CODES;
    SuccessCodes(n);
    RedirectionCodes(n);
    ClientCodes(n);
    ServerCodes(n);
  }

  /** A status code is written with three digits. */
  lemma CodeDigits(n: nat)
    requires n in STATUS_CODES
    ensures |FormatNat(n)| == 3 && CR !in FormatNat(n) && AtoI(FormatNat(n), 10) == (n, true)
  {
    hide FormatNat, AtoI;
    StatusCodes(n);
    ThreeDigits(n);
    ValueOfFormat(n);
    AtoIReads(FormatNat(n), 10);
  }

  lemma ThreeDigits(n: nat)
    requires 100 <= n < 600
    ensures |FormatNat(n)| == 3 && AllDigits(FormatNat(n)) && CR !in FormatNat(n)
  {
    assert FormatNat(n) == FormatNat(n / 10) + [48 + n % 10];
    assert FormatNat(n / 10) == FormatNat(n / 100) + [48 + n / 10 % 10];
    assert FormatNat(n / 100) == [48 + n / 100];
  }

  /** An HTTP/1 version, a registered code and a space, or the line end at once, make a response title, and
      no request title. */
  lemma ResponseTitled(ver: seq<byte>, n: nat, rest: seq<byte>)
    requires IsHttp1(ver) && |ver| == VERSION_LEN && n in STATUS_CODES
    requires |rest| >= 2 && (rest[0] == SPACE || rest[0] == CR)
    requires Index(ver + [SPACE] + FormatNat(n) + rest, CRLF) >= 0
    ensures var p := ver + [SPACE] + FormatNat(n) + rest; HasResponseTitle(p) && !HasRequestTitle(p)
  {
    hide FormatNat, AtoI, IsHttp1, Index, KnownStatus, STATUS_CODES, RequestLine;
    var p := ver + [SPACE] + FormatNat(n) + rest;
    StatusCodes(n);
    CodeDigits(n);
    var head := p[..VERSION_LEN + 5];
    assert head[..VERSION_LEN] == ver && head[VERSION_LEN] == SPACE && head[VERSION_LEN + 4] == rest[0];
    assert head[VERSION_LEN + 1..VERSION_LEN + 4] == FormatNat(n);
    VersionStarts(ver);
    assert p[..2] == ver[..2];
    NotRequest(p);
  }

  lemma VersionStarts(v: seq<byte>)
    requires IsHttp1(v)
    ensures |v| >= VERSION_LEN && v[..2] == Ascii("HT")
  {
    hide ReadDecimal;
    VersionLength(v);
    assert v[..5] == Ascii("HTTP/");
    assert v[..2] == v[..5][..2];
  }

  /** No method starts like a version. */
  lemma NotRequest(p: seq<byte>)
    requires |p| >= 2 && p[..2] == Ascii("HT")
    ensures !HasRequestTitle(p)
  {
    hide IsHttp1, METHODS, Index;
    var end := Index(p, CRLF);
    if end >= 0 {
      LineNotRequest(p[..end], p);
    }
  }

  lemma LineNotRequest(line: seq<byte>, p: seq<byte>)
    requires line <= p && |p| >= 2 && p[..2] == Ascii("HT")
    ensures !RequestLine(line)
  {
    hide IsHttp1, METHODS;
    var f := IndexByte(line, SPACE);
    if f >= 2 {
      assert line[..f][..2] == p[..2];
    }
    forall m | m in METHODS
      ensures |m| >= 3 && m[..2] != Ascii("HT")
    {
      MethodStart(m);
    }
  }

  lemma MethodStart(m: seq<byte>)
    requires m in METHODS
    ensures |m| >= 3 && m[..2] != Ascii("HT") && m[0] != 99
  {
    MethodChars(m);
    assert m[..2] == [m[0], m[1]] && Ascii("HT") == [72, 84];
  }

  lemma ResponseIsTitle(p: seq<byte>)
    requires HasResponseTitle(p)
    ensures HasTitle(p)
  {
    hide HasRequestTitle, HasResponseTitle;
  }

  /** A response title is an HTTP/1.0 or HTTP/1.1 version, a space, a registered code in three digits, and a
      space or the line end; and some line ends. */
  lemma ResponseParts(p: seq<byte>)
    requires HasResponseTitle(p)
    ensures |p| >= 14 && Index(p, CRLF) >= 12
    ensures p[..8] == Ascii("HTTP/1.0") || p[..8] == Ascii("HTTP/1.1")
    ensures p[8] == SPACE && (p[12] == SPACE || p[12] == CR)
    ensures exists n :: n in STATUS_CODES && AtoI(p[9..12], 10) == (n, true)
  {
    hide AtoI, KnownStatus, STATUS_CODES, IsHttp1;
    var head := p[..VERSION_LEN + 5];
    assert head[..VERSION_LEN] == p[..8] && head[VERSION_LEN + 1..VERSION_LEN + 4] == p[9..12];
    ShortVersion(p[..8]);
    StatusLineShort(p);
    StatusCodes(AtoI(p[9..12], 10).0);
  }

  /** A version of eight bytes is one of two. */
  lemma ShortVersion(v: seq<byte>)
    requires |v| == 8
    ensures IsHttp1(v) <==> v == Ascii("HTTP/1.0") || v == Ascii("HTTP/1.1")
  {
    hide *;
    var h := Ascii("HTTP/");
    VersionText();
    assert v == v[..5] + [v[5], v[6], v[7]];
    if v[..5] == h {
      VersionTail(v);
    } else {
      NoVersion(v);
    }
  }

  lemma VersionText()
    ensures Ascii("HTTP/1.0") == Ascii("HTTP/") + [49, 46, 48] && Ascii("HTTP/1.1") == Ascii("HTTP/") + [49, 46, 49]
    ensures |Ascii("HTTP/")| == 5 && 46 !in Ascii("HTTP/")
  {}

  lemma NoVersion(v: seq<byte>)
    requires |v| == 8 && v[..5] != Ascii("HTTP/")
    ensures !IsHttp1(v)
  {
    hide ReadDecimal, IndexByte;
  }

  lemma VersionTail(v: seq<byte>)
    requires |v| == 8 && v[..5] == Ascii("HTTP/")
    ensures IsHttp1(v) <==> v[5] == 49 && v[6] == 46 && (v[7] == 48 || v[7] == 49)
  {
    hide ReadDecimal;
    VersionText();
    var dot := IndexByte(v, 46);
    assert forall i :: 0 <= i < 5 ==> v[i] == v[..5][i];
    if dot == 6 {
      OneDigit(v[5..6]);
      OneDigit(v[7..]);
    } else {
      NoDigits();
      assert v[5..5] == [] && v[8..] == [];
      DotSixth(v, dot);
    }
  }

  lemma DotSixth(v: seq<byte>, dot: int)
    requires |v| == 8 && dot == IndexByte(v, 46) && dot != 6
    ensures v[5] == 49 && v[6] == 46 ==> 0 <= dot < 5
  {}

  lemma NoDigits()
    ensures ReadDecimal([]) == None
  {}

  /** One byte is a number exactly if it is a digit. */
  lemma OneDigit(s: seq<byte>)
    requires |s| == 1
    ensures ReadDecimal(s) == if 48 <= s[0] <= 57 then Some(s[0] - 48) else None
  {
    assert s[..0] == [];
    assert Value([], 10) == 0;
  }

  /** The methods of a request title, in words. */
  lemma MethodNames(m: seq<byte>)
    ensures m in METHODS <==>
              || m == Ascii("GET") || m == Ascii("HEAD") || m == Ascii("POST") || m == Ascii("PUT")
              || m == Ascii("DELETE") || m == Ascii("CONNECT") || m == Ascii("OPTIONS") || m == Ascii("TRACE")
              || m == Ascii("PATCH")
  {}
}
