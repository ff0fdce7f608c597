/** Header sections written line by line: what reads back from them, and what is left of them when a
    line is deleted. */
module HeaderLists {
  import opened Bytes
  import opened Decimal
  import opened Titles
  import opened Headers
  import opened HeaderScan
  import opened HeaderEdits
  import Paths

  const VERSION: seq<byte> := Ascii("HTTP/1.1")

  /** The first line of a request, or of a response. */
  datatype Start = Ask(method_: seq<byte>, path: seq<byte>) | Answer(code: nat, reason: seq<byte>) {
    predicate Valid() {
      match this
      case Ask(m, x) => m in METHODS && Paths.CleanPath(x) && x != []
      case Answer(n, r) => n in STATUS_CODES && CR !in r
    }
  }

  /** That line and an empty header section. */
  function Bare(line: Start): seq<byte> {
    match line
    case Ask(m, x) => Paths.Request(m, x, VERSION, EMPTY_LINE)
    case Answer(n, r) => VERSION + [SPACE] + FormatNat(n) + [SPACE] + r + EMPTY_LINE
  }

  /** A header line. */
  datatype Field = Field(name: seq<byte>, value: seq<byte>)

  /** Lines that can be written. */
  predicate Writable(fields: seq<Field>) {
    forall i :: 0 <= i < |fields| ==> CleanName(fields[i].name) && LF !in fields[i].value
  }

  /** None of the lines is for the header `n`. */
  predicate Silent(fields: seq<Field>, n: seq<byte>) {
    forall i :: 0 <= i < |fields| ==> !EqualFold(fields[i].name, n)
  }

  /** The lines are added one by one, each above those before it. */
  function AddAll(p: seq<byte>, fields: seq<Field>): seq<byte> {
    if fields == [] then p
    else
      var last := fields[|fields| - 1];
      AddHeader(AddAll(p, fields[..|fields| - 1]), last.name, last.value)
  }

  function Head(line: Start, fields: seq<Field>): seq<byte> {
    AddAll(Bare(line), fields)
  }

  /** A message without a body as far as its header section is written. */
  predicate OpenHead(p: seq<byte>) {
    HasTitle(p) && HeadersEnd(p) == |p| && HasSuffix(p, CRLF)
  }

  // ----- the empty header section ---------------------------------------------------------

  lemma VersionParses()
    ensures IsHttp1(VERSION) && SPACE !in VERSION
  {
    hide IndexByte, ReadDecimal;
    var v := VERSION;
    VersionBytes();
    IndexByteIs(v, 46, 6);
    OneDigit(v[5..6]);
    OneDigit(v[7..]);
  }

  lemma VersionBytes()
    ensures var v := VERSION;
            && |v| == 8 && v[6] == 46 && 46 !in v[..6] && v[5..6] == [49] && v[7..] == [49]
            && Ascii("HTTP/") <= v && SPACE !in v && CR !in v
  {
    var v := VERSION;
    assert v == [72, 84, 84, 80, 47, 49, 46, 49];
    assert Ascii("HTTP/") == v[..5];
  }

  lemma OneDigit(s: seq<byte>)
    requires s == [49]
    ensures ReadDecimal(s) == Some(1)
  {
    assert s[..0] == [];
    assert Value([], 10) == 0;
  }

  lemma EmptyLineIsTwo()
    ensures EMPTY_LINE == CRLF + CRLF && CRLF <= EMPTY_LINE
  {}

  lemma BareIsOpen(line: Start)
    requires line.Valid()
    ensures OpenHead(Bare(line)) && (HasRequestTitle(Bare(line)) <==> line.Ask?)
    ensures forall n :: Header(Bare(line), n) == []
  {
    hide *;
    var p := Bare(line);
    BareTitled(line);
    EndsAt(p);
    OpenBy(p);
    forall n
      ensures Header(p, n) == []
    {
      NoHeader(p, n);
    }
  }

  /** The first line is a title of its side, and the empty line follows at once. */
  lemma BareTitled(line: Start)
    requires line.Valid()
    ensures var p := Bare(line);
            && HasTitle(p) && (HasRequestTitle(p) <==> line.Ask?)
            && HasSuffix(p, EMPTY_LINE) && HasSuffix(p, CRLF) && Index(p, CRLF) == |p| - 4
  {
    hide *;
    VersionParses();
    EmptyLineIsTwo();
    var p := Bare(line);
    match line
    case Ask(m, x) =>
      AskValid(m, x);
      AskShape(m, x);
      Paths.RequestTitled(m, x, VERSION, EMPTY_LINE);
      Paths.RequestIndex(m, x, VERSION, EMPTY_LINE);
      Paths.RequestIsTitle(p);
    case Answer(n, r) =>
      AnswerValid(n, r);
      AnswerShape(n, r);
      CodeDigits(n);
      AnswerIndex(n, r);
      VersionBytes();
      EightBytes();
      ResponseTitled(VERSION, n, [SPACE] + r + EMPTY_LINE);
      ResponseIsTitle(p);
  }

  lemma AskValid(m: seq<byte>, x: seq<byte>)
    requires Ask(m, x).Valid()
    ensures m in METHODS && Paths.CleanPath(x) && x != []
  {
    hide METHODS, Paths.CleanPath;
  }

  lemma AnswerValid(n: nat, r: seq<byte>)
    requires Answer(n, r).Valid()
    ensures n in STATUS_CODES && CR !in r
  {
    hide STATUS_CODES;
  }

  lemma EightBytes()
    ensures VERSION_LEN == 8
  {}

  lemma AskShape(m: seq<byte>, x: seq<byte>)
    ensures var p := Bare(Ask(m, x));
            && p == Paths.Request(m, x, VERSION, EMPTY_LINE)
            && |p| == |m| + |x| + |VERSION| + 6 && HasSuffix(p, EMPTY_LINE) && HasSuffix(p, CRLF)
  {
    hide VERSION;
    var p := Bare(Ask(m, x));
    assert p[|p| - 4..] == EMPTY_LINE;
    assert p[|p| - 2..] == CRLF;
  }

  lemma AnswerShape(n: nat, r: seq<byte>)
    ensures var p := Bare(Answer(n, r));
            && p == VERSION + [SPACE] + FormatNat(n) + ([SPACE] + r + EMPTY_LINE)
            && HasSuffix(p, EMPTY_LINE) && HasSuffix(p, CRLF)
            && |[SPACE] + r + EMPTY_LINE| >= 5 && ([SPACE] + r + EMPTY_LINE)[0] == SPACE
            && |p| == |VERSION| + |FormatNat(n)| + |r| + 6
  {
    hide VERSION, FormatNat;
    var p := Bare(Answer(n, r));
    assert p[|p| - 4..] == EMPTY_LINE;
    assert p[|p| - 2..] == CRLF;
  }

  lemma AnswerIndex(n: nat, r: seq<byte>)
    requires n in STATUS_CODES && CR !in r
    ensures Index(Bare(Answer(n, r)), CRLF) == |VERSION| + |FormatNat(n)| + |r| + 2
  {
    hide Index, FormatNat, STATUS_CODES, VERSION;
    var p, k := Bare(Answer(n, r)), |VERSION| + |FormatNat(n)| + |r| + 2;
    CodeDigits(n);
    VersionBytes();
    BreakChars(p, k);
    var head := VERSION + [SPACE] + FormatNat(n) + [SPACE] + r;
    assert p == head + EMPTY_LINE;
    forall j | j < k
      ensures !At(p, CRLF, j)
    {
      BreakChars(p, j);
      if 0 <= j {
        assert p[j] == head[j];
        NoCrBefore(n, r, j);
      }
    }
    IndexIs(p, CRLF, k);
  }

  lemma NoCrBefore(n: nat, r: seq<byte>, j: nat)
    requires CR !in r && CR !in FormatNat(n) && j < |VERSION| + |FormatNat(n)| + |r| + 2
    ensures (VERSION + [SPACE] + FormatNat(n) + [SPACE] + r)[j] != CR
  {
    hide FormatNat;
    VersionBytes();
    var head := VERSION + [SPACE] + FormatNat(n) + [SPACE] + r;
    var a, b := |VERSION|, |VERSION| + 1 + |FormatNat(n)|;
    if j < a {
      assert head[j] == VERSION[j];
    } else if a < j < b {
      assert head[j] == FormatNat(n)[j - a - 1];
    } else if b < j {
      assert head[j] == r[j - b - 1];
    }
  }

  lemma OpenBy(p: seq<byte>)
    requires HasTitle(p) && HeadersEnd(p) == |p| && HasSuffix(p, CRLF)
    ensures OpenHead(p)
  {
    hide HasTitle, HeadersEnd, HasSuffix;
  }

  lemma OpenFacts(p: seq<byte>)
    requires OpenHead(p)
    ensures HasTitle(p) && HeadersEnd(p) == |p| && HasSuffix(p, CRLF)
  {
    hide HasTitle, HeadersEnd, HasSuffix;
  }

  /** Nothing stands behind the first CRLF but the rest of the empty line. */
  lemma EndsAt(p: seq<byte>)
    requires HasSuffix(p, EMPTY_LINE) && Index(p, CRLF) == |p| - 4
    ensures HeadersEnd(p) == |p| && HeadersStart(p) == |p| - 2
  {
    hide Index;
    assert At(p, EMPTY_LINE, |p| - 4);
    forall j | j < |p| - 4
      ensures !At(p, EMPTY_LINE, j)
    {
      Paths.EmptyLineBehind(p, j);
    }
    IndexIs(p, EMPTY_LINE, |p| - 4);
  }

  lemma NoHeader(p: seq<byte>, n: seq<byte>)
    requires HasTitle(p) && HeadersStart(p) == |p| - 2 && HasSuffix(p, CRLF)
    ensures Header(p, n) == []
  {
    hide HasTitle, HeadersStart, FindLine, LineText, LineValue, Next;
    var k := |p| - 2;
    assert p[k] == CR && p[k + 1] == LF by { assert p[k..] == CRLF; }
    assert Next(p, LF, k, |p|) == k + 1;
    FindStep(p, n, k, k + 1);
    assert Next(p, COLON, k, k + 1) == -1;
    FindNone(p, n, k + 2);
  }

  lemma HasSuffixChars(p: seq<byte>)
    ensures HasSuffix(p, CRLF) <==> |p| >= 2 && p[|p| - 2] == CR && p[|p| - 1] == LF
  {
    if |p| >= 2 {
      assert p[|p| - 2..] == [p[|p| - 2], p[|p| - 1]];
    }
  }

  // ----- lines added ------------------------------------------------------------------------

  /** Another header line leaves the header section open. */
  lemma AddKeepsOpen(p: seq<byte>, n: seq<byte>, v: seq<byte>)
    requires OpenHead(p) && CleanName(n) && LF !in v
    ensures OpenHead(AddHeader(p, n, v)) && (HasRequestTitle(AddHeader(p, n, v)) <==> HasRequestTitle(p))
  {
    hide *;
    var q := AddHeader(p, n, v);
    OpenFacts(p);
    AddedBehindTitle(p, n, v);
    InsertKeepsBody(p, n, v);
    AddedEnd(p, n, v);
    BodyEnds(p, q);
    OpenBy(q);
    OpenLong(p);
    SameSide(p, q);
  }

  lemma OpenLong(p: seq<byte>)
    requires OpenHead(p)
    ensures |p| >= MIN_REQUEST_COUNT
  {
    hide HasTitle, HeadersEnd, HeadersStart;
    TitleLength(p);
    HasSuffixChars(p);
    EndBehindStart(p);
  }

  /** The header section ends at least one CRLF behind the title line. */
  lemma EndBehindStart(p: seq<byte>)
    requires HeadersEnd(p) != -1
    ensures HeadersStart(p) + 2 <= HeadersEnd(p)
  {
    EmptyLineBehindTitle(p);
  }

  /** With the same title line, two payloads that are long enough are of the same side. */
  lemma SameSide(p: seq<byte>, q: seq<byte>)
    requires HasTitle(p) && |p| >= MIN_REQUEST_COUNT && |q| >= MIN_REQUEST_COUNT
    requires 2 <= HeadersStart(p) <= |p| && HeadersStart(p) <= |q| && q[..HeadersStart(p)] == p[..HeadersStart(p)]
    ensures HasTitle(q) && (HasRequestTitle(q) <==> HasRequestTitle(p))
  {
    hide HasTitle, HasRequestTitle, HeadersStart;
    TitleLocal(p, q);
    TitleLocal(q, p);
  }

  /** The text behind the inserted line ends as it did, right behind that line's CRLF at the latest. */
  lemma AddedEnd(p: seq<byte>, n: seq<byte>, v: seq<byte>)
    requires 2 <= HeadersStart(p) <= |p| && HeadersEnd(p) == |p| && HasSuffix(p, CRLF)
    requires var s := HeadersStart(p); AddHeader(p, n, v) == p[..s] + HeaderLine(n, v) + p[s..]
    ensures var q := AddHeader(p, n, v);
            HeadersEnd(q) != -1 && HasSuffix(q, CRLF) && |q| >= |p|
  {
    hide Index, HeadersStart, AddHeader, HasSuffix;
    var s, line := HeadersStart(p), HeaderLine(n, v);
    var q := p[..s] + line + p[s..];
    EmptyLineBehindTitle(p);
    HasSuffixChars(p);
    HasSuffixChars(q);
    ShiftedEmptyLine(p, n, v, |p| - 4);
    assert line[|line| - 2] == CR && line[|line| - 1] == LF;
  }

  lemma BodyEnds(p: seq<byte>, q: seq<byte>)
    requires HeadersEnd(p) == |p| && HeadersEnd(q) != -1 && Body(q) == Body(p)
    ensures HeadersEnd(q) == |q|
  {
    hide HeadersEnd;
  }

  lemma AddAllPush(p: seq<byte>, fields: seq<Field>, f: Field)
    ensures AddAll(p, fields + [f]) == AddHeader(AddAll(p, fields), f.name, f.value)
  {
    hide AddHeader;
    assert (fields + [f])[..|fields|] == fields;
  }

  lemma AddAllNone(p: seq<byte>)
    ensures AddAll(p, []) == p
  {}

  lemma {:induction false} AddAllSplit(p: seq<byte>, a: seq<Field>, b: seq<Field>)
    ensures AddAll(p, a + b) == AddAll(AddAll(p, a), b)
  {
    hide AddAll;
    if b == [] {
      assert a + b == a;
      AddAllNone(AddAll(p, a));
    } else {
      var front, f := b[..|b| - 1], b[|b| - 1];
      AddAllSplit(p, a, front);
      assert b == front + [f] && a + b == (a + front) + [f];
      AddAllPush(p, a + front, f);
      AddAllPush(AddAll(p, a), front, f);
    }
  }

  /** Whatever lines are added, the header section stays open. */
  lemma {:induction false} ListOpen(p: seq<byte>, fields: seq<Field>)
    requires OpenHead(p) && Writable(fields)
    ensures OpenHead(AddAll(p, fields)) && (HasRequestTitle(AddAll(p, fields)) <==> HasRequestTitle(p))
  {
    hide OpenHead, AddHeader, CleanName, HasRequestTitle;
    if fields != [] {
      var front, f := fields[..|fields| - 1], fields[|fields| - 1];
      ListOpen(p, front);
      AddKeepsOpen(AddAll(p, front), f.name, f.value);
    }
  }

  lemma OpenTitled(p: seq<byte>)
    requires OpenHead(p)
    ensures HasTitle(p) && 2 <= HeadersStart(p) <= |p|
  {
    hide HasTitle, HeadersEnd, HasSuffix, HeadersStart;
    OpenFacts(p);
    TitledStart(p);
  }

  lemma HeadOpen(line: Start, fields: seq<Field>)
    requires line.Valid() && Writable(fields)
    ensures OpenHead(Head(line, fields)) && (HasRequestTitle(Head(line, fields)) <==> line.Ask?)
  {
    hide Bare, Start.Valid, OpenHead, Writable, AddAll, HasRequestTitle;
    BareIsOpen(line);
    ListOpen(Bare(line), fields);
  }

  /** Lines of other names do not change what is read. */
  lemma {:induction false} ListSilent(p: seq<byte>, fields: seq<Field>, n: seq<byte>)
    requires OpenHead(p) && Writable(fields) && Silent(fields, n)
    ensures Header(AddAll(p, fields), n) == Header(p, n)
  {
    hide OpenHead, AddHeader, CleanName, Header, EqualFold, HasTitle, HeadersStart;
    if fields != [] {
      var front, f := fields[..|fields| - 1], fields[|fields| - 1];
      ListSilent(p, front, n);
      ListOpen(p, front);
      OpenTitled(AddAll(p, front));
      AddKeepsOthers(AddAll(p, front), f.name, f.value, n);
    }
  }

  lemma HeadSilent(line: Start, fields: seq<Field>, n: seq<byte>)
    requires line.Valid() && Writable(fields) && Silent(fields, n)
    ensures Header(Head(line, fields), n) == []
  {
    hide Bare, Start.Valid, OpenHead, Writable, AddAll, Silent, Header;
    BareIsOpen(line);
    ListSilent(Bare(line), fields, n);
  }

  // ----- names that fold to each other --------------------------------------------------------

  lemma {:induction false} FoldScan(s: seq<byte>, n: seq<byte>, m: seq<byte>, from: nat)
    requires EqualFold(n, m)
    ensures FindLine(s, n, from) == FindLine(s, m, from)
    decreases |s| - from
  {
    hide Next, Matches, FindLine, EqualFold;
    if from >= |s| {
      FindNone(s, n, from);
      FindNone(s, m, from);
    } else {
      var end := Next(s, LF, from, |s|);
      FindStep(s, n, from, end);
      FindStep(s, m, from, end);
      if end != -1 {
        FoldMatches(s, n, m, from, end);
        FoldScan(s, n, m, end + 1);
      }
    }
  }

  lemma FoldMatches(s: seq<byte>, n: seq<byte>, m: seq<byte>, from: nat, end: nat)
    requires EqualFold(n, m) && from <= end <= |s|
    ensures Matches(s, from, end, n) == Matches(s, from, end, m)
  {
    hide Next, Lower;
  }

  lemma FoldFind(p: seq<byte>, n: seq<byte>, m: seq<byte>)
    requires EqualFold(n, m)
    ensures Find(p, n) == Find(p, m)
  {
    hide ScanStart, FindLine, EqualFold;
    FoldScan(p, n, m, ScanStart(p));
  }

  lemma FoldHeader(p: seq<byte>, n: seq<byte>, m: seq<byte>)
    requires EqualFold(n, m)
    ensures Header(p, n) == Header(p, m)
  {
    hide Find, EqualFold, LineValue, LineText;
    FoldFind(p, n, m);
  }

  lemma FoldDelete(p: seq<byte>, n: seq<byte>, m: seq<byte>)
    requires EqualFold(n, m)
    ensures DeleteHeader(p, n) == DeleteHeader(p, m)
  {
    hide Find, EqualFold, Header;
    FoldFind(p, n, m);
  }

  lemma FoldOther(a: seq<byte>, n: seq<byte>, m: seq<byte>)
    requires EqualFold(n, m)
    ensures EqualFold(a, n) <==> EqualFold(a, m)
  {
    hide Lower;
  }

  // ----- one line among others ----------------------------------------------------------------

  /** Line `k` is the last one added for `n`. */
  predicate LastFor(fields: seq<Field>, k: nat, n: seq<byte>) {
    k < |fields| && EqualFold(fields[k].name, n) && Silent(fields[k + 1..], n)
  }

  lemma SplitAt(p: seq<byte>, fields: seq<Field>, k: nat)
    requires k < |fields|
    ensures AddAll(p, fields)
         == AddAll(AddHeader(AddAll(p, fields[..k]), fields[k].name, fields[k].value), fields[k + 1..])
  {
    hide AddAll, AddHeader;
    var a, b := fields[..k], fields[k + 1..];
    assert fields == a + [fields[k]] + b;
    AddAllSplit(p, a + [fields[k]], b);
    AddAllPush(p, a, fields[k]);
  }

  lemma WritableParts(fields: seq<Field>, k: nat)
    requires Writable(fields) && k < |fields|
    ensures Writable(fields[..k]) && Writable(fields[k + 1..])
    ensures CleanName(fields[k].name) && LF !in fields[k].value
  {
    hide CleanName;
  }

  /** The line added last for a name is the one that is read. */
  lemma ListValue(p: seq<byte>, fields: seq<Field>, k: nat, n: seq<byte>)
    requires OpenHead(p) && Writable(fields) && LastFor(fields, k, n) && ReadsBack(fields[k].value)
    ensures Header(AddAll(p, fields), n) == fields[k].value
  {
    hide *;
    LastForFacts(fields, k, n);
    var q := AddAll(p, fields[..k]);
    var f := fields[k];
    WritableParts(fields, k);
    ListOpen(p, fields[..k]);
    OpenTitled(q);
    AddKeepsOpen(q, f.name, f.value);
    AddThenGet(q, f.name, f.value);
    FoldHeader(AddHeader(q, f.name, f.value), f.name, n);
    ListSilent(AddHeader(q, f.name, f.value), fields[k + 1..], n);
    SplitAt(p, fields, k);
  }

  lemma LastForFacts(fields: seq<Field>, k: nat, n: seq<byte>)
    requires LastFor(fields, k, n)
    ensures k < |fields| && EqualFold(fields[k].name, n) && Silent(fields[k + 1..], n)
  {
    hide EqualFold, Silent;
  }

  /** Adding a line and deleting one of another name can be done in either order. */
  lemma DeleteCommutes(p: seq<byte>, n: seq<byte>, v: seq<byte>, m: seq<byte>)
    requires HasTitle(p) && CleanName(n) && LF !in v && !EqualFold(n, m) && Find(p, m).Some?
    ensures DeleteHeader(AddHeader(p, n, v), m) == AddHeader(DeleteHeader(p, m), n, v)
    ensures Find(AddHeader(p, n, v), m).Some?
  {
    hide *;
    var s, d, line, h := HeadersStart(p), |HeaderLine(n, v)|, HeaderLine(n, v), Find(p, m).value;
    var q := AddHeader(p, n, v);
    AddedBehindTitle(p, n, v);
    FoundBehindAdded(p, n, v, m);
    FindBounds(p, m);
    DeleteIs(p, m, h);
    DeleteIs(q, m, Hit(h.start + d, h.colon + d, h.end + d));
    var r := DeleteHeader(p, m);
    CutBehind(p, s, line, h.start, h.end + 1);
    assert p[..s] <= r;
    FirstLineEnd(p, r);
    AddIs(r, n, v);
  }

  lemma CutBehind(p: seq<byte>, s: nat, line: seq<byte>, from: nat, to: nat)
    requires s <= from <= to <= |p|
    ensures var q, r := p[..s] + line + p[s..], p[..from] + p[to..];
            && p[..s] == r[..s] && p[..s] <= r
            && q[..from + |line|] + q[to + |line|..] == r[..s] + line + r[s..]
  {}

  lemma AddIs(p: seq<byte>, n: seq<byte>, v: seq<byte>)
    requires 1 <= HeadersStart(p) <= |p|
    ensures var s := HeadersStart(p); AddHeader(p, n, v) == p[..s] + HeaderLine(n, v) + p[s..]
  {
    hide HeadersStart, HeaderLine;
  }

  /** Behind an added line of another name a header is found where it was, moved by that line. */
  lemma FoundBehindAdded(p: seq<byte>, n: seq<byte>, v: seq<byte>, m: seq<byte>)
    requires HasTitle(p) && CleanName(n) && LF !in v && !EqualFold(n, m) && Find(p, m).Some?
    ensures var h, d := Find(p, m).value, |HeaderLine(n, v)|;
            Find(AddHeader(p, n, v), m) == Some(Hit(h.start + d, h.colon + d, h.end + d))
  {
    hide *;
    var s, line := HeadersStart(p), HeaderLine(n, v);
    var q := AddHeader(p, n, v);
    AddedBehindTitle(p, n, v);
    AddedFound(p, n, v);
    var g := Find(q, n).value;
    HitMatches(q, n, g);
    MatchesOne(q, s, g.end, n, m);
    FindStep(q, m, s, g.end);
    FindIs(q, m);
    FindIs(p, m);
    LineLength(n, v);
    Behind(p, s, line);
    FindShift(p[..s] + line, p[s..], m, 0);
    FindShift(p[..s], p[s..], m, 0);
    MovedTwice(FindLine(p[s..], m, 0), s, |line|);
  }

  lemma Behind(p: seq<byte>, s: nat, line: seq<byte>)
    requires s <= |p|
    ensures p[..s] + p[s..] == p && |p[..s] + line| == s + |line| && |p[..s]| == s
  {}

  lemma MovedTwice(o: Option<Hit>, s: nat, d: nat)
    ensures Moved(o, s).Some? ==>
              var h := Moved(o, s).value; Moved(o, s + d) == Some(Hit(h.start + d, h.colon + d, h.end + d))
  {}

  /** Lines of another name on top of a header survive its deletion. */
  lemma {:induction false} DeleteBelow(p: seq<byte>, fields: seq<Field>, n: seq<byte>)
    requires OpenHead(p) && Writable(fields) && Silent(fields, n) && Find(p, n).Some?
    ensures DeleteHeader(AddAll(p, fields), n) == AddAll(DeleteHeader(p, n), fields)
    ensures Find(AddAll(p, fields), n).Some?
  {
    hide OpenHead, AddHeader, DeleteHeader, CleanName, Find, EqualFold, HasTitle, HeadersStart;
    if fields != [] {
      var front, f := fields[..|fields| - 1], fields[|fields| - 1];
      DeleteBelow(p, front, n);
      ListOpen(p, front);
      OpenTitled(AddAll(p, front));
      DeleteCommutes(AddAll(p, front), f.name, f.value, n);
    }
  }

  /** Deleting a header takes out the line that was added last for it. */
  lemma ListDelete(p: seq<byte>, fields: seq<Field>, k: nat, n: seq<byte>)
    requires OpenHead(p) && Writable(fields) && LastFor(fields, k, n)
    ensures DeleteHeader(AddAll(p, fields), n) == AddAll(p, fields[..k] + fields[k + 1..])
  {
    hide *;
    LastForFacts(fields, k, n);
    var q := AddAll(p, fields[..k]);
    var f := fields[k];
    WritableParts(fields, k);
    ListOpen(p, fields[..k]);
    OpenTitled(q);
    AddKeepsOpen(q, f.name, f.value);
    AddedFound(q, f.name, f.value);
    DeleteUndoesAdd(q, f.name, f.value);
    var added := AddHeader(q, f.name, f.value);
    FoldFind(added, f.name, n);
    FoldDelete(added, f.name, n);
    DeleteBelow(added, fields[k + 1..], n);
    SplitAt(p, fields, k);
    AddAllSplit(p, fields[..k], fields[k + 1..]);
  }

  // ----- a body behind the header section ---------------------------------------------------------

  /** Bytes of the body behind a header section change neither its title nor its end nor what is found
      in it. */
  lemma BodyBehind(p: seq<byte>, lead: seq<byte>)
    requires OpenHead(p)
    ensures HasTitle(p + lead) && HeadersEnd(p + lead) == |p|
    ensures HasRequestTitle(p + lead) <==> HasRequestTitle(p)
  {
    hide HasTitle, HasRequestTitle, HeadersStart, Index;
    OpenTitled(p);
    OpenLong(p);
    var q := p + lead;
    assert q[..HeadersStart(p)] == p[..HeadersStart(p)];
    SameSide(p, q);
    assert q[|p| - 4..|p|] == p[|p| - 4..|p|];
    forall j | j < |p| - 4
      ensures !At(q, EMPTY_LINE, j)
    {
      if 0 <= j {
        assert q[j..j + 4] == p[j..j + 4];
      }
      assert !At(p, EMPTY_LINE, j);
    }
    IndexIs(q, EMPTY_LINE, |p| - 4);
  }

  lemma ValueBehind(p: seq<byte>, lead: seq<byte>, n: seq<byte>)
    requires OpenHead(p) && Find(p, n).Some?
    ensures Header(p + lead, n) == Header(p, n)
  {
    hide *;
    var q := p + lead;
    OpenTitled(p);
    OpenFacts(p);
    BodyBehind(p, lead);
    ScanAfterTitle(p);
    assert p[..HeadersStart(p)] <= q;
    FirstLineEnd(p, q);
    ScanAfterTitle(q);
    FindIs(p, n);
    FindIs(q, n);
    FindLonger(p, lead, n, ScanStart(p), Find(p, n).value);
    FindBounds(p, n);
    FindBounds(q, n);
    HeaderIs(p, n);
    HeaderIs(q, n);
    SameText(p, lead, Find(p, n).value);
  }

  lemma SameText(p: seq<byte>, lead: seq<byte>, h: Hit)
    requires h.colon < h.end < |p|
    ensures LineText(p + lead, h) == LineText(p, h)
  {}
}
