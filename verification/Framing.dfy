/**
 Message framing on a byte stream, as in the "Base Protocol / Header Part" section of the
 Language Server Protocol specification 3.17: header lines, an empty line, and a body of
 `Content-Length` bytes. A byte is modelled as a character.
 */
module Framing {
  import opened Wrappers

  type Byte = char

  type Bytes = seq<Byte>

  const LengthName: Bytes := "Content-Length"
  const LineEnd: Bytes := "\r\n"
  const MaxInt32 := 0x7FFF_FFFF

  // ----- decimal numbers -----

  predicate IsDigit(c: Byte) {
    '0' <= c <= '9'
  }

  predicate AllDigits(s: Bytes) {
    forall k :: 0 <= k < |s| ==> IsDigit(s[k])
  }

  function DigitOf(d: nat): Byte
    requires d < 10
  {
    ('0' as int + d) as char
  }

  /** How `fmt` writes a number. */
  function Decimal(n: nat): (s: Bytes)
    ensures s != "" && AllDigits(s)
  {
    if n < 10 then [DigitOf(n)] else Decimal(n / 10) + [DigitOf(n % 10)]
  }

  function DigitValue(c: Byte): nat
    requires IsDigit(c)
  {
    c as int - '0' as int
  }

  function ValueOf(s: Bytes): nat
    requires AllDigits(s)
  {
    if s == [] then 0 else 10 * ValueOf(s[..|s| - 1]) + DigitValue(s[|s| - 1])
  }

  /** `strconv.ParseInt(s, 10, 32)`; `None` is a syntax or a range error. */
  function ParseInt32(s: Bytes): Option<int> {
    var signed := s != "" && (s[0] == '+' || s[0] == '-');
    var digits := if signed then s[1..] else s;
    if digits == "" || !AllDigits(digits) then None
    else if signed && s[0] == '-' then
      if ValueOf(digits) > MaxInt32 + 1 then None else var v: int := ValueOf(digits); Some(-v)
    else if ValueOf(digits) > MaxInt32 then None
    else Some(ValueOf(digits))
  }

  lemma {:induction false} ValueOfDecimal(n: nat)
    ensures ValueOf(Decimal(n)) == n
  {
    if n >= 10 {
      ValueOfDecimal(n / 10);
      var s := Decimal(n);
      assert s[..|s| - 1] == Decimal(n / 10);
    }
  }

  /** What is written as a number is read as that number, when it fits. */
  lemma ParseDecimal(n: nat)
    ensures ParseInt32(Decimal(n)) == if n <= MaxInt32 then Some(n) else None
  {
    ValueOfDecimal(n);
    assert Decimal(n)[0] in Decimal(n);
  }

  // ----- lines -----

  function IndexOf(s: Bytes, c: Byte): (k: nat)
    ensures k <= |s|
    ensures k < |s| ==> s[k] == c
    ensures forall j :: 0 <= j < k ==> s[j] != c
  {
    if s == [] || s[0] == c then 0 else 1 + IndexOf(s[1..], c)
  }

  lemma IndexOfAt(a: Bytes, c: Byte, b: Bytes)
    requires c !in a
    ensures IndexOf(a + [c] + b, c) == |a|
  {
    var s := a + [c] + b;
    assert s[|a|] == c;
    assert forall j :: 0 <= j < |a| ==> s[j] == a[j];
  }

  lemma IndexOfNone(s: Bytes, c: Byte)
    requires c !in s
    ensures IndexOf(s, c) == |s|
  {
  }

  predicate IsSpace(c: Byte) {
    c == ' ' || '\t' <= c <= '\r'
  }

  /** `strings.TrimSpace` on ASCII. */
  function TrimSpace(s: Bytes): Bytes {
    if s != [] && IsSpace(s[0]) then TrimSpace(s[1..])
    else if s != [] && IsSpace(s[|s| - 1]) then TrimSpace(s[..|s| - 1])
    else s
  }

  // ----- reading -----

  datatype ReadError =
    | EOF | UnexpectedEOF | InvalidHeaderLine | BadLength | NonPositiveLength | MissingLength

  /** `total` counts the bytes consumed and `rest` is what the reader has not consumed. */
  datatype ReadResult =
    | Body(data: Bytes, total: nat, rest: Bytes)
    | Failed(error: ReadError, total: nat, rest: Bytes)

  datatype Header = EndOfHeaders | Length(n: nat) | Ignored | BadHeader(error: ReadError)

  /** What one line of the header says. */
  function ReadHeader(line: Bytes): Header {
    var text := TrimSpace(line);
    var colon := IndexOf(text, ':');
    if text == "" then EndOfHeaders
    else if colon == |text| then BadHeader(InvalidHeaderLine)
    else if text[..colon] != LengthName then Ignored
    else
      match ParseInt32(TrimSpace(text[colon + 1..]))
      case None => BadHeader(BadLength)
      case Some(n) => if n <= 0 then BadHeader(NonPositiveLength) else Length(n)
  }

  /** The body, after a header that took `total` bytes. */
  function ReadBody(s: Bytes, total: nat, length: nat): ReadResult {
    if length == 0 then Failed(MissingLength, total, s)
    else if |s| >= length then Body(s[..length], total + length, s[length..])
    else Failed(if s == [] then EOF else UnexpectedEOF, total + |s|, [])
  }

  /** The rest of a message, when `total` bytes of its header have been read. */
  function ReadFrom(s: Bytes, total: nat, length: nat): ReadResult
    decreases |s|, 0
  {
    var k := IndexOf(s, '\n');
    if k == |s| then Failed(if total + |s| == 0 then EOF else UnexpectedEOF, total + |s|, [])
    else ReadAfter(ReadHeader(s[..k + 1]), s[k + 1..], total + k + 1, length)
  }

  /** The rest of a message after a line that says this. */
  function ReadAfter(header: Header, s: Bytes, total: nat, length: nat): ReadResult
    decreases |s|, 1
  {
    match header
    case EndOfHeaders => ReadBody(s, total, length)
    case Length(n) => ReadFrom(s, total, n)
    case Ignored => ReadFrom(s, total, length)
    case BadHeader(error) => Failed(error, total, s)
  }

  function ReadMessage(s: Bytes): ReadResult {
    ReadFrom(s, 0, 0)
  }

  /** The bytes counted and the rest make up the input; a body is the last of what was counted. */
  predicate CountsExactly(s: Bytes, total: nat, r: ReadResult) {
    && total <= r.total <= total + |s|
    && r.rest == s[r.total - total..]
    && (r.Body? ==> 0 < |r.data| <= r.total - total && r.data == s[r.total - total - |r.data|..r.total - total])
  }

  lemma CountsOnFromLine(s: Bytes, k: nat, total: nat, r: ReadResult)
    requires k < |s| && CountsExactly(s[k + 1..], total + k + 1, r)
    ensures CountsExactly(s, total, r)
  {
    var n := r.total - (total + k + 1);
    assert s[k + 1..][n..] == s[r.total - total..];
    if r.Body? {
      assert s[k + 1..][n - |r.data|..n] == s[r.total - total - |r.data|..r.total - total];
    }
  }

  /** Whatever comes in, the count is exact. */
  lemma {:induction false} CountIsExact(s: Bytes, total: nat, length: nat)
    ensures CountsExactly(s, total, ReadFrom(s, total, length))
    decreases |s|
  {
    var k := IndexOf(s, '\n');
    if k < |s| {
      var s' := s[k + 1..];
      match ReadHeader(s[..k + 1]) {
        case Length(n) => CountIsExact(s', total + k + 1, n);
        case Ignored => CountIsExact(s', total + k + 1, length);
        case EndOfHeaders => assert CountsExactly(s', total + k + 1, ReadBody(s', total + k + 1, length));
        case BadHeader(_) => assert s' == s'[0..];
      }
      CountsOnFromLine(s, k, total, ReadFrom(s, total, length));
    }
  }

  // ----- writing -----

  function HeaderLine(n: nat): Bytes {
    LengthName + ": " + Decimal(n) + LineEnd
  }

  function HeaderOf(n: nat): Bytes {
    HeaderLine(n) + LineEnd
  }

  function Frame(body: Bytes): Bytes {
    HeaderOf(|body|) + body
  }

  function Stream(bodies: seq<Bytes>): Bytes {
    if bodies == [] then [] else Frame(bodies[0]) + Stream(bodies[1..])
  }

  lemma {:induction false} TrimAround(before: Bytes, s: Bytes, after: Bytes)
    requires s == [] || (!IsSpace(s[0]) && !IsSpace(s[|s| - 1]))
    requires (forall c <- before :: IsSpace(c)) && forall c <- after :: IsSpace(c)
    ensures TrimSpace(before + s + after) == s
    decreases |before| + |after|
  {
    var t := before + s + after;
    if before != [] {
      assert t[0] == before[0];
      assert t[1..] == before[1..] + s + after;
      assert forall c :: c in before[1..] ==> c in before;
      TrimAround(before[1..], s, after);
    } else if after != [] {
      if s == [] {
        assert t[0] == after[0];
        assert t[1..] == [] + s + after[1..];
        assert forall c :: c in after[1..] ==> c in after;
        TrimAround([], s, after[1..]);
      } else {
        var init := after[..|after| - 1];
        assert t[0] == s[0] && t[|t| - 1] == after[|after| - 1];
        assert t[..|t| - 1] == [] + s + init;
        assert forall c :: c in init ==> c in after;
        TrimAround([], s, init);
      }
    } else {
      assert t == s;
    }
  }

  lemma HeaderLineIsTrimmed(n: nat)
    ensures TrimSpace(HeaderLine(n)) == LengthName + ": " + Decimal(n)
  {
    var digits := Decimal(n);
    assert IsDigit(digits[|digits| - 1]);
    var text := LengthName + ": " + digits;
    assert text[|text| - 1] == digits[|digits| - 1];
    TrimAround([], text, LineEnd);
    assert [] + text + LineEnd == HeaderLine(n);
  }

  lemma HeaderLineIsSplit(n: nat)
    ensures
      var text := LengthName + ": " + Decimal(n);
      && IndexOf(text, ':') == |LengthName|
      && text[..|LengthName|] == LengthName
      && TrimSpace(text[|LengthName| + 1..]) == Decimal(n)
  {
    var digits := Decimal(n);
    assert IsDigit(digits[0]) && IsDigit(digits[|digits| - 1]);
    var text := LengthName + ": " + digits;
    assert text == LengthName + [':'] + (" " + digits);
    IndexOfAt(LengthName, ':', " " + digits);
    TrimAround(" ", digits, []);
    assert text[|LengthName| + 1..] == " " + digits + [];
  }

  /** What the reader makes of the line that the writer writes. */
  lemma LengthLineIsRead(n: nat)
    ensures ReadHeader(HeaderLine(n)) ==
      if n == 0 then BadHeader(NonPositiveLength) else if n <= MaxInt32 then Length(n) else BadHeader(BadLength)
  {
    HeaderLineIsTrimmed(n);
    HeaderLineIsSplit(n);
    ParseDecimal(n);
  }

  lemma EmptyLineEndsHeaders()
    ensures ReadHeader(LineEnd) == EndOfHeaders
  {
    TrimAround([], [], LineEnd);
    assert [] + [] + LineEnd == LineEnd;
  }

  predicate IsLine(line: Bytes) {
    line != [] && line[|line| - 1] == '\n' && '\n' !in line[..|line| - 1]
  }

  lemma LineBreaks(line: Bytes, s: Bytes)
    requires IsLine(line)
    ensures IndexOf(line + s, '\n') == |line| - 1
    ensures (line + s)[..|line|] == line && (line + s)[|line|..] == s
  {
    IndexOfAt(line[..|line| - 1], '\n', s);
    assert line[..|line| - 1] + ['\n'] + s == line + s;
  }

  lemma HeaderLineIsLine(n: nat)
    ensures IsLine(HeaderLine(n))
  {
    var line := HeaderLine(n);
    assert line[..|line| - 1] == LengthName + ": " + Decimal(n) + ['\r'];
  }

  lemma AfterLine(line: Bytes, s: Bytes, total: nat, length: nat)
    requires IsLine(line)
    ensures ReadFrom(line + s, total, length) == ReadAfter(ReadHeader(line), s, total + |line|, length)
  {
    LineBreaks(line, s);
  }

  lemma AfterLengthLine(line: Bytes, s: Bytes, total: nat, length: nat, n: nat)
    requires IsLine(line) && ReadHeader(line) == Length(n)
    ensures ReadFrom(line + s, total, length) == ReadFrom(s, total + |line|, n)
  {
    AfterLine(line, s, total, length);
  }

  lemma AfterEmptyLine(s: Bytes, total: nat, length: nat)
    ensures ReadFrom(LineEnd + s, total, length) == ReadBody(s, total + 2, length)
  {
    EmptyLineEndsHeaders();
    AfterLine(LineEnd, s, total, length);
  }

  lemma Regroup(a: Bytes, b: Bytes, c: Bytes)
    ensures a + b + c == a + (b + c)
  {
  }

  lemma ThenTheRest(line: Bytes, end: Bytes, s: Bytes, total: nat, length: nat, n: nat, r: ReadResult)
    requires IsLine(line) && ReadHeader(line) == Length(n)
    requires ReadFrom(end + s, total + |line|, n) == r
    ensures ReadFrom(line + end + s, total, length) == r
  {
    Regroup(line, end, s);
    AfterLengthLine(line, end + s, total, length, n);
  }

  lemma AfterHeader(n: nat, s: Bytes, total: nat, length: nat)
    requires 0 < n <= MaxInt32
    ensures ReadFrom(HeaderOf(n) + s, total, length) == ReadBody(s, total + |HeaderOf(n)|, n)
  {
    LengthLineIsRead(n);
    HeaderLineIsLine(n);
    AfterEmptyLine(s, total + |HeaderLine(n)|, n);
    ThenTheRest(HeaderLine(n), LineEnd, s, total, length, n, ReadBody(s, total + |HeaderLine(n)| + 2, n));
  }

  lemma BadHeaderEndsIt(line: Bytes, s: Bytes, e: ReadError)
    requires IsLine(line) && ReadHeader(line) == BadHeader(e)
    ensures ReadMessage(line + s) == Failed(e, |line|, s)
  {
    AfterLine(line, s, 0, 0);
  }

  lemma FrameParts(body: Bytes, rest: Bytes)
    ensures Frame(body) + rest == HeaderLine(|body|) + (LineEnd + body + rest)
  {
  }

  lemma WrongLengthIsRefused(body: Bytes, rest: Bytes)
    requires |body| == 0 || |body| > MaxInt32
    ensures ReadMessage(Frame(body) + rest)
            == Failed(if body == [] then NonPositiveLength else BadLength, |HeaderLine(|body|)|, LineEnd + body + rest)
  {
    LengthLineIsRead(|body|);
    HeaderLineIsLine(|body|);
    FrameParts(body, rest);
    BadHeaderEndsIt(HeaderLine(|body|), LineEnd + body + rest, if body == [] then NonPositiveLength else BadLength);
  }

  lemma FrameIsRead(body: Bytes, rest: Bytes, total: nat)
    requires 1 <= |body| <= MaxInt32
    ensures ReadFrom(Frame(body) + rest, total, 0) == Body(body, total + |Frame(body)|, rest)
  {
    AfterHeader(|body|, body + rest, total, 0);
    Regroup(HeaderOf(|body|), body, rest);
    assert (body + rest)[..|body|] == body && (body + rest)[|body|..] == rest;
  }

  lemma RoundTrip(body: Bytes, rest: Bytes)
    requires 1 <= |body| <= MaxInt32
    ensures ReadMessage(Frame(body) + rest) == Body(body, |Frame(body)|, rest)
  {
    FrameIsRead(body, rest, 0);
  }

  /**
   A written message is read back, with an equal byte count and nothing taken from what
   follows, exactly when its body has 1 to 2^31-1 bytes.
   */
  lemma RoundTripIff(body: Bytes, rest: Bytes)
    ensures ReadMessage(Frame(body) + rest) == Body(body, |Frame(body)|, rest) <==> 1 <= |body| <= MaxInt32
  {
    if 1 <= |body| <= MaxInt32 {
      RoundTrip(body, rest);
    } else {
      WrongLengthIsRefused(body, rest);
    }
  }

  /** Each write adds its message at the end of the stream. */
  lemma {:induction false} StreamGrows(bodies: seq<Bytes>, body: Bytes)
    ensures Stream(bodies + [body]) == Stream(bodies) + Frame(body)
  {
    if bodies == [] {
      assert [] + [body] == [body] && [body][1..] == [];
      assert Frame(body) + [] == [] + Frame(body);
    } else {
      StreamGrows(bodies[1..], body);
      assert (bodies + [body])[1..] == bodies[1..] + [body];
      Regroup(Frame(bodies[0]), Stream(bodies[1..]), Frame(body));
    }
  }

  /** The bodies read with their byte counts, and how the reading ended. */
  function ReadAll(s: Bytes): (r: (seq<(Bytes, nat)>, ReadResult))
    decreases |s|
  {
    CountIsExact(s, 0, 0);
    match ReadMessage(s)
    case Failed(e, t, rest) => ([], Failed(e, t, rest))
    case Body(data, total, rest) => var (more, end) := ReadAll(rest); ([(data, total)] + more, end)
  }

  /** A stream of written messages gives exactly these messages and byte counts, then a clean end. */
  lemma {:induction false} StreamIsReadBack(bodies: seq<Bytes>)
    requires forall body <- bodies :: 1 <= |body| <= MaxInt32
    ensures
      var (read, end) := ReadAll(Stream(bodies));
      && end == Failed(EOF, 0, [])
      && |read| == |bodies|
      && forall k :: 0 <= k < |bodies| ==> read[k] == (bodies[k], |Frame(bodies[k])|)
  {
    if bodies != [] {
      StreamIsReadBack(bodies[1..]);
      RoundTrip(bodies[0], Stream(bodies[1..]));
      var (more, end) := ReadAll(Stream(bodies[1..]));
      var (read, _) := ReadAll(Stream(bodies));
      assert read == [(bodies[0], |Frame(bodies[0])|)] + more;
    }
  }

  lemma SkipsIgnored(line: Bytes, s: Bytes)
    requires IsLine(line) && ReadHeader(line) == Ignored
    ensures ReadMessage(line + s) == ReadFrom(s, |line|, 0)
  {
    AfterLine(line, s, 0, 0);
  }

  /** Another header line before it changes nothing but the count, whatever it says. */
  lemma OtherHeadersAreIgnored(line: Bytes, body: Bytes, rest: Bytes)
    requires IsLine(line) && ReadHeader(line) == Ignored && 1 <= |body| <= MaxInt32
    ensures ReadMessage(line + (Frame(body) + rest)) == Body(body, |line| + |Frame(body)|, rest)
  {
    FrameIsRead(body, rest, |line|);
    SkipsIgnored(line, Frame(body) + rest);
  }

  // ----- the header, literally -----

  /** Decimal numbers are written with the usual digits. */
  lemma DigitsAre()
    ensures Decimal(0) == "0" && Decimal(1) == "1" && Decimal(2) == "2" && Decimal(3) == "3" && Decimal(4) == "4"
    ensures Decimal(5) == "5" && Decimal(6) == "6" && Decimal(7) == "7" && Decimal(8) == "8" && Decimal(9) == "9"
    ensures forall n: nat, d: nat :: 0 < n && d < 10 ==> Decimal(10 * n + d) == Decimal(n) + Decimal(d)
  {
    forall n: nat, d: nat | 0 < n && d < 10
      ensures Decimal(10 * n + d) == Decimal(n) + Decimal(d)
    {
      assert (10 * n + d) / 10 == n && (10 * n + d) % 10 == d;
    }
  }

  lemma HeaderText(digits: Bytes)
    ensures "Content-Length" + ": " + digits + "\r\n" + "\r\n" == "Content-Length: " + digits + "\r\n\r\n"
  {
    assert "Content-Length" + ": " == "Content-Length: ";
    Regroup("Content-Length: " + digits, "\r\n", "\r\n");
    assert "\r\n" + "\r\n" == "\r\n\r\n";
  }

  /** What is written. */
  lemma FrameIs(body: Bytes)
    ensures Frame(body) == "Content-Length: " + Decimal(|body|) + "\r\n\r\n" + body
  {
    HeaderText(Decimal(|body|));
  }

  predicate HasNoOuterSpace(s: Bytes) {
    s == "" || (!IsSpace(s[0]) && !IsSpace(s[|s| - 1]))
  }

  predicate AllSpace(s: Bytes) {
    forall c <- s :: IsSpace(c)
  }

  /** A line without a colon ends the header when it is blank, and is an error otherwise. */
  lemma LineWithoutColon(before: Bytes, text: Bytes, after: Bytes)
    requires AllSpace(before) && AllSpace(after) && HasNoOuterSpace(text) && ':' !in text
    ensures ReadHeader(before + text + after) == if text == "" then EndOfHeaders else BadHeader(InvalidHeaderLine)
  {
    TrimAround(before, text, after);
    IndexOfNone(text, ':');
  }

  /**
   A line with a colon is ignored unless exactly "Content-Length" stands before its first
   colon; then the number after it is the length, and it has to be from 1 to 2^31-1.
   */
  lemma LineWithColon(before: Bytes, name: Bytes, value: Bytes, after: Bytes)
    requires AllSpace(before) && AllSpace(after) && HasNoOuterSpace(name + ":" + value) && ':' !in name
    ensures
      ReadHeader(before + (name + ":" + value) + after) ==
        if name != "Content-Length" then Ignored
        else
          match ParseInt32(TrimSpace(value))
          case None => BadHeader(BadLength)
          case Some(n) => if n <= 0 then BadHeader(NonPositiveLength) else Length(n)
  {
    var text := name + ":" + value;
    TrimAround(before, text, after);
    IndexOfAt(name, ':', value);
    assert name + [':'] + value == text;
    assert text[..|name|] == name && text[|name| + 1..] == value;
  }

  /** In particular the line that says so is read as that length. */
  lemma LengthIsRead(n: nat)
    requires 1 <= n <= 0x7FFF_FFFF
    ensures ReadHeader("Content-Length: " + Decimal(n) + "\r\n") == Length(n)
  {
    LengthLineIsRead(n);
    assert "Content-Length: " + Decimal(n) + "\r\n" == HeaderLine(n);
  }

  /** A header that ends without a length is an error, and nothing after it is read. */
  lemma MissingLengthIsReported(rest: Bytes, total: nat)
    ensures ReadFrom("\r\n" + rest, total, 0) == Failed(MissingLength, total + 2, rest)
  {
    AfterEmptyLine(rest, total, 0);
  }

  /** A number may have a sign; one that is no number, or is beyond 32 bits, is refused. */
  lemma SignedLengths(digits: Bytes)
    requires digits != "" && AllDigits(digits)
    ensures ParseInt32(digits) == ParseInt32("+" + digits) ==
            if ValueOf(digits) <= 0x7FFF_FFFF then Some(ValueOf(digits)) else None
    ensures ParseInt32("-" + digits) ==
            if ValueOf(digits) <= 0x8000_0000 then Some(-(ValueOf(digits) as int)) else None
  {
    assert ("+" + digits)[1..] == digits && ("-" + digits)[1..] == digits;
    assert digits[0] in digits;
  }

  // ----- truncation -----

  lemma CutInFirstLine(n: nat, cut: nat)
    requires cut < |HeaderLine(n)|
    ensures ReadMessage(HeaderLine(n)[..cut]) == Failed(if cut == 0 then EOF else UnexpectedEOF, cut, [])
  {
    HeaderLineIsLine(n);
    var s := HeaderLine(n)[..cut];
    assert forall c :: c in s ==> c in HeaderLine(n)[..|HeaderLine(n)| - 1];
    IndexOfNone(s, '\n');
  }

  lemma CutInEmptyLine(n: nat, cut: nat)
    requires 0 < n <= MaxInt32 && cut < 2
    ensures ReadMessage(HeaderLine(n) + LineEnd[..cut]) == Failed(UnexpectedEOF, |HeaderLine(n)| + cut, [])
  {
    LengthLineIsRead(n);
    HeaderLineIsLine(n);
    AfterLengthLine(HeaderLine(n), LineEnd[..cut], 0, 0, n);
    IndexOfNone(LineEnd[..cut], '\n');
  }

  lemma CutInBody(body: Bytes, cut: nat)
    requires 1 <= |body| <= MaxInt32 && cut < |body|
    ensures ReadMessage(HeaderOf(|body|) + body[..cut])
            == Failed(if cut == 0 then EOF else UnexpectedEOF, |HeaderOf(|body|)| + cut, [])
  {
    AfterHeader(|body|, body[..cut], 0, 0);
  }

  lemma CutOfSum(a: Bytes, b: Bytes, cut: nat)
    requires cut <= |a + b|
    ensures (a + b)[..cut] == if cut < |a| then a[..cut] else a + b[..cut - |a|]
  {
  }

  lemma CutInHeader(body: Bytes, cut: nat)
    requires 1 <= |body| <= MaxInt32 && cut < |HeaderOf(|body|)|
    ensures ReadMessage(HeaderOf(|body|)[..cut]) == Failed(if cut == 0 then EOF else UnexpectedEOF, cut, [])
  {
    var line := HeaderLine(|body|);
    CutOfSum(line, LineEnd, cut);
    if cut < |line| {
      CutInFirstLine(|body|, cut);
    } else {
      CutInEmptyLine(|body|, cut - |line|);
    }
  }

  /**
   A truncated message is never taken for a message. It is reported as a clean end of the
   stream exactly when nothing is there at all or the stream ends between header and body.
   */
  lemma TruncationIsNoticed(body: Bytes, cut: nat)
    requires 1 <= |body| <= MaxInt32 && cut < |Frame(body)|
    ensures ReadMessage(Frame(body)[..cut])
            == Failed(if cut == 0 || cut == |HeaderOf(|body|)| then EOF else UnexpectedEOF, cut, [])
  {
    var header := HeaderOf(|body|);
    CutOfSum(header, body, cut);
    if cut < |header| {
      CutInHeader(body, cut);
    } else {
      CutInBody(body, cut - |header|);
    }
  }

  /** How many messages lie whole in the first `cut` bytes of the stream. */
  function Whole(bodies: seq<Bytes>, cut: nat): (n: nat)
    ensures n <= |bodies|
  {
    if bodies == [] || cut < |Frame(bodies[0])| then 0 else 1 + Whole(bodies[1..], cut - |Frame(bodies[0])|)
  }

  lemma StreamOfPrefix(bodies: seq<Bytes>, n: nat)
    requires 0 < n <= |bodies|
    ensures Stream(bodies[..n]) == Frame(bodies[0]) + Stream(bodies[1..][..n - 1])
  {
    assert bodies[..n][1..] == bodies[1..][..n - 1];
  }

  /** These messages end before the cut, and with one more they would not. */
  lemma {:induction false} WholeEndBeforeTheCut(bodies: seq<Bytes>, cut: nat)
    ensures
      var n := Whole(bodies, cut);
      |Stream(bodies[..n])| <= cut && (n < |bodies| ==> cut < |Stream(bodies[..n + 1])|)
  {
    var n := Whole(bodies, cut);
    if n > 0 {
      WholeEndBeforeTheCut(bodies[1..], cut - |Frame(bodies[0])|);
      StreamOfPrefix(bodies, n);
    }
    if n < |bodies| {
      StreamOfPrefix(bodies, n + 1);
    }
  }

  /** How the reading ends that finds `left` bytes of the next message, if there is one. */
  function CutOff(bodies: seq<Bytes>, n: nat, left: nat): ReadResult {
    var atBoundary := left == 0 || (n < |bodies| && left == |HeaderOf(|bodies[n]|)|);
    Failed(if atBoundary then EOF else UnexpectedEOF, left, [])
  }

  /** The messages as they are read, with their byte counts. */
  function Counted(bodies: seq<Bytes>): seq<(Bytes, nat)> {
    seq(|bodies|, k requires 0 <= k < |bodies| => (bodies[k], |Frame(bodies[k])|))
  }

  /** Reading the first `cut` bytes gives `n` messages and stops in the next one. */
  ghost predicate ReadUpTo(bodies: seq<Bytes>, cut: nat, n: nat)
    requires n <= |bodies| && cut <= |Stream(bodies)|
  {
    && |Stream(bodies[..n])| <= cut
    && ReadAll(Stream(bodies)[..cut]) == (Counted(bodies[..n]), CutOff(bodies, n, cut - |Stream(bodies[..n])|))
  }

  lemma FailureEndsReading(s: Bytes, error: ReadError, total: nat, rest: Bytes)
    requires ReadMessage(s) == Failed(error, total, rest)
    ensures ReadAll(s) == ([], Failed(error, total, rest))
  {
  }

  lemma NoneIsRead(bodies: seq<Bytes>, cut: nat)
    requires cut <= |Stream(bodies)| && ReadAll(Stream(bodies)[..cut]) == ([], CutOff(bodies, 0, cut))
    ensures ReadUpTo(bodies, cut, 0)
  {
    assert bodies[..0] == [] && Counted([]) == [];
  }

  lemma CutInFirstFrame(bodies: seq<Bytes>, cut: nat)
    requires forall body <- bodies :: 1 <= |body| <= MaxInt32
    requires cut <= |Stream(bodies)| && (bodies == [] || cut < |Frame(bodies[0])|)
    ensures ReadUpTo(bodies, cut, 0)
  {
    if bodies == [] {
      FailureEndsReading([], EOF, 0, []);
    } else {
      CutOfSum(Frame(bodies[0]), Stream(bodies[1..]), cut);
      TruncationIsNoticed(bodies[0], cut);
      var end := CutOff(bodies, 0, cut);
      FailureEndsReading(Stream(bodies)[..cut], end.error, end.total, end.rest);
    }
    NoneIsRead(bodies, cut);
  }

  lemma FirstIsRead(body: Bytes, rest: Bytes)
    requires 1 <= |body| <= MaxInt32
    ensures ReadAll(Frame(body) + rest) == ([(body, |Frame(body)|)] + ReadAll(rest).0, ReadAll(rest).1)
  {
    RoundTrip(body, rest);
  }

  lemma CountedPrefix(bodies: seq<Bytes>, n: nat)
    requires 0 < n <= |bodies|
    ensures Counted(bodies[..n]) == [(bodies[0], |Frame(bodies[0])|)] + Counted(bodies[1..][..n - 1])
  {
  }

  lemma ReadOneMore(bodies: seq<Bytes>, cut: nat, n: nat, first: Bytes)
    requires 0 < n <= |bodies| && 1 <= |bodies[0]| <= MaxInt32
    requires first == Frame(bodies[0]) && |first| <= cut <= |Stream(bodies)|
    requires ReadUpTo(bodies[1..], cut - |first|, n - 1)
    ensures ReadUpTo(bodies, cut, n)
  {
    var rest := Stream(bodies[1..])[..cut - |first|];
    assert Stream(bodies)[..cut] == first + rest by {
      CutOfSum(first, Stream(bodies[1..]), cut);
    }
    FirstIsRead(bodies[0], rest);
    CountedPrefix(bodies, n);
    StreamOfPrefix(bodies, n);
  }

  /**
   A stream of written messages may be cut anywhere: exactly the messages before the cut
   are read, with their byte counts, and the end is clean exactly when the cut is between
   two messages or between the header and the body of one.
   */
  lemma {:induction false} CutStreamIsReadUpToTheCut(bodies: seq<Bytes>, cut: nat)
    requires forall body <- bodies :: 1 <= |body| <= MaxInt32
    requires cut <= |Stream(bodies)|
    ensures ReadUpTo(bodies, cut, Whole(bodies, cut))
  {
    var n := Whole(bodies, cut);
    if n == 0 {
      CutInFirstFrame(bodies, cut);
    } else {
      CutStreamIsReadUpToTheCut(bodies[1..], cut - |Frame(bodies[0])|);
      ReadOneMore(bodies, cut, n, Frame(bodies[0]));
    }
  }

  // ----- the code -----

  /** `headerWriter` */
  class HeaderWriter {
    var out: Bytes

    constructor ()
      ensures out == []
    {
      out := [];
    }

    method Write(data: Bytes) returns (total: nat)
      modifies this
      ensures out == old(out) + Frame(data) && total == |Frame(data)|
    {
      out := out + (LengthName + ": " + Decimal(|data|) + "\r\n\r\n");
      assert LengthName + ": " + Decimal(|data|) + "\r\n\r\n" == HeaderOf(|data|);
      total := |LengthName| + 2 + |Decimal(|data|)| + 4;
      out := out + data;
      total := total + |data|;
    }
  }

  /** `headerReader` */
  class HeaderReader {
    var input: Bytes

    constructor (input: Bytes)
      ensures this.input == input
    {
      this.input := input;
    }

    /** `ReadString('\n')`; `false` is the end of the input. */
    method ReadLine() returns (line: Bytes, complete: bool)
      modifies this
      ensures
        var k := IndexOf(old(input), '\n');
        if k < |old(input)| then complete && line == old(input)[..k + 1] && input == old(input)[k + 1..]
        else !complete && line == old(input) && input == []
    {
      var k := IndexOf(input, '\n');
      if k < |input| {
        line, complete := input[..k + 1], true;
        input := input[k + 1..];
      } else {
        line, complete := input, false;
        input := [];
      }
    }

    /** `io.ReadFull` */
    method ReadFull(length: nat) returns (data: Bytes, error: Option<ReadError>)
      modifies this
      ensures
        if |old(input)| >= length then error == None && data == old(input)[..length] && input == old(input)[length..]
        else error == Some(if old(input) == [] then EOF else UnexpectedEOF) && data == old(input) && input == []
    {
      if |input| >= length {
        data, error := input[..length], None;
        input := input[length..];
      } else {
        data, error := input, Some(if input == [] then EOF else UnexpectedEOF);
        input := [];
      }
    }

    /** What the loop body makes of a line. */
    static method ParseHeader(rawLine: Bytes) returns (header: Header)
      ensures header == ReadHeader(rawLine)
    {
      var line := TrimSpace(rawLine);
      if line == "" {
        return EndOfHeaders;
      }
      var colon := IndexOf(line, ':');
      if colon == |line| {
        return BadHeader(InvalidHeaderLine);
      }
      var name, value := line[..colon], TrimSpace(line[colon + 1..]);
      if name != LengthName {
        return Ignored;
      }
      var parsed := ParseInt32(value);
      if parsed.None? {
        return BadHeader(BadLength);
      }
      if parsed.value <= 0 {
        return BadHeader(NonPositiveLength);
      }
      header := Length(parsed.value);
    }

    /** The loop of `Read`, up to the line that ends the header. */
    method ReadHeaders() returns (length: nat, total: nat, error: Option<ReadError>)
      modifies this
      ensures
        if error.Some? then ReadMessage(old(input)) == Failed(error.value, total, input)
        else ReadMessage(old(input)) == ReadBody(input, total, length)
    {
      length, total, error := 0, 0, None;
      ghost var message := ReadMessage(input);
      while true
        invariant ReadFrom(input, total, length) == message
        decreases |input|
      {
        var line, complete := ReadLine();
        total := total + |line|;
        if !complete {
          error := Some(if total == 0 then EOF else UnexpectedEOF);
          return;
        }
        var header := ParseHeader(line);
        assert message == ReadAfter(header, input, total, length);
        if header.EndOfHeaders? {
          return;
        } else if header.BadHeader? {
          error := Some(header.error);
          return;
        } else if header.Length? {
          length := header.n;
        }
      }
    }

    method Read() returns (data: Bytes, total: nat, error: Option<ReadError>)
      modifies this
      ensures
        match ReadMessage(old(input))
        case Body(d, t, rest) => error == None && data == d && total == t && input == rest
        case Failed(e, t, rest) => error == Some(e) && total == t && input == rest
    {
      data := [];
      var length;
      length, total, error := ReadHeaders();
      if error.Some? {
        return;
      }
      if length == 0 {
        error := Some(MissingLength);
        return;
      }
      data, error := ReadFull(length);
      total := total + |data|;
    }
  }
}
