/** HTTTP messages: the text the serializers print, what the parsers make of a byte string, and
    their agreement. A byte is a char; a C string field is a sequence without NUL. */
module Htttp {
  import opened Basics
  import opened Decimal

  const MAX_METHOD := 16
  const MAX_PATH := 256
  const MAX_HEADERS := 32
  const MAX_KEY := 64
  const MAX_VALUE := 256
  const UINT32_MAX := 0xFFFF_FFFF

  function Version(): string {
    "HTTTP/1.0"
  }

  datatype Code = Malformed | TooLong | Length | NoSpace

  datatype Reply<T> = Good(value: T) | Refused(code: Code)

  datatype Header = Header(key: string, value: string)

  datatype Request = Request(verb: string, path: string, headers: seq<Header>, body: string)

  datatype Response = Response(status: int, headers: seq<Header>, body: string)

  // --- Scanning ---------------------------------------------------------------------------------

  predicate CrlfAt(s: string, k: int) {
    0 <= k && k + 1 < |s| && s[k] == '\r' && s[k + 1] == '\n'
  }

  /** Where the first CRLF of s stands. */
  function Crlf(s: string): (r: Option<nat>)
    ensures r.Some? ==> CrlfAt(s, r.value) && forall i :: 0 <= i < r.value ==> !CrlfAt(s, i)
    ensures r.None? ==> forall i :: 0 <= i < |s| ==> !CrlfAt(s, i)
  {
    if |s| < 2 then None
    else if CrlfAt(s, 0) then Some(0)
    else
      var rest := Crlf(s[1..]);
      assert forall i :: 1 <= i < |s| ==> CrlfAt(s, i) == CrlfAt(s[1..], i - 1);
      if rest.Some? then Some(rest.value + 1) else None
  }

  lemma CrlfIs(s: string, k: nat)
    requires CrlfAt(s, k) && forall i :: 0 <= i < k ==> !CrlfAt(s, i)
    ensures Crlf(s) == Some(k)
  {
  }

  const CRLF := ['\r', '\n']

  lemma CrlfAfter(line: string, rest: string)
    requires '\r' !in line
    ensures Crlf(line + (CRLF + rest)) == Some(|line|)
  {
    var s := line + (CRLF + rest);
    forall i | 0 <= i < |line| ensures !CrlfAt(s, i) {
      assert s[i] == line[i];
    }
    CrlfIs(s, |line|);
  }

  // --- Parsing ----------------------------------------------------------------------------------

  /** Wire bytes as a field of the given size. */
  function Token(src: string, cap: nat): Reply<string> {
    if |src| >= cap then Refused(TooLong)
    else if '\0' in src then Refused(Malformed)
    else Good(src)
  }

  /** Some leading digits already exceed 32 bits. */
  ghost predicate Overflows(s: string) {
    exists k :: 0 <= k <= |s| && AllDigits(s[..k]) && Value(s[..k]) > UINT32_MAX
  }

  ghost function Uint(s: string): Reply<nat> {
    if s == [] then Refused(Malformed)
    else if |s| > 32 || Overflows(s) then Refused(TooLong)
    else if !AllDigits(s) then Refused(Malformed)
    else Good(Value(s))
  }

  function Lower(c: char): char {
    if 'A' <= c <= 'Z' then (c as int - 'A' as int + 'a' as int) as char else c
  }

  /** Header names are compared without regard to case. */
  predicate SameName(a: string, b: string) {
    |a| == |b| && forall i :: 0 <= i < |a| ==> Lower(a[i]) == Lower(b[i])
  }

  /** The value of the first header with this name. */
  function Lookup(headers: seq<Header>, key: string): Option<string> {
    if headers == [] then None
    else if SameName(headers[0].key, key) then Some(headers[0].value)
    else Lookup(headers[1..], key)
  }

  function LengthName(): string {
    "Content-Length"
  }

  ghost function ReadBody(rest: string, headers: seq<Header>): Reply<(seq<Header>, string)> {
    match Lookup(headers, LengthName())
    case None => if rest != [] then Refused(Length) else Good((headers, []))
    case Some(text) =>
      match Uint(text)
      case Refused(_) => Refused(Malformed)
      case Good(declared) => if declared != |rest| then Refused(Length) else Good((headers, rest))
  }

  function ReadHeader(line: string, count: nat): Reply<Header> {
    var colon := IndexOf(line, ':');
    if colon == 0 || colon + 1 >= |line| || line[colon + 1] != ' ' then Refused(Malformed)
    else if count >= MAX_HEADERS then Refused(TooLong)
    else
      match Token(line[..colon], MAX_KEY)
      case Refused(code) => Refused(code)
      case Good(key) =>
        match Token(line[colon + 2..], MAX_VALUE)
        case Refused(code) => Refused(code)
        case Good(value) => Good(Header(key, value))
  }

  /** The header block and the body, from the byte after the first line. */
  ghost function ReadTail(s: string, headers: seq<Header>): Reply<(seq<Header>, string)> {
    match Crlf(s)
    case None => Refused(Malformed)
    case Some(eol) =>
      if eol == 0 then ReadBody(s[2..], headers)
      else
        match ReadHeader(s[..eol], |headers|)
        case Refused(code) => Refused(code)
        case Good(header) => ReadTail(s[eol + 2..], headers + [header])
  }

  function ReadRequestLine(line: string): Reply<(string, string)> {
    var sp1 := IndexOf(line, ' ');
    if sp1 == 0 || sp1 >= |line| then Refused(Malformed)
    else if Token(line[..sp1], MAX_METHOD).Refused? then Refused(TooLong)
    else
      var rest := line[sp1 + 1..];
      var sp2 := IndexOf(rest, ' ');
      if sp2 == 0 || sp2 >= |rest| then Refused(Malformed)
      else if Token(rest[..sp2], MAX_PATH).Refused? then Refused(TooLong)
      else if rest[sp2 + 1..] != Version() then Refused(Malformed)
      else Good((line[..sp1], rest[..sp2]))
  }

  ghost function ParseRequest(s: string): Reply<Request> {
    match Crlf(s)
    case None => Refused(Malformed)
    case Some(eol) =>
      match ReadRequestLine(s[..eol])
      case Refused(code) => Refused(code)
      case Good((verb, path)) =>
        match ReadTail(s[eol + 2..], [])
        case Refused(code) => Refused(code)
        case Good((headers, body)) => Good(Request(verb, path, headers, body))
  }

  ghost function ReadStatusLine(line: string): Reply<int> {
    var fixed := |Version()|;
    if |line| <= fixed || line[..fixed] != Version() || line[fixed] != ' ' then Refused(Malformed)
    else
      var rest := line[fixed + 1..];
      var sp := IndexOf(rest, ' ');
      if sp == 0 || sp >= |rest| then Refused(Malformed)
      else
        match Uint(rest[..sp])
        case Refused(_) => Refused(Malformed)
        case Good(status) => if status < 100 || status > 599 then Refused(Malformed) else Good(status)
  }

  ghost function ParseResponse(s: string): Reply<Response> {
    match Crlf(s)
    case None => Refused(Malformed)
    case Some(eol) =>
      match ReadStatusLine(s[..eol])
      case Refused(code) => Refused(code)
      case Good(status) =>
        match ReadTail(s[eol + 2..], [])
        case Refused(code) => Refused(code)
        case Good((headers, body)) => Good(Response(status, headers, body))
  }

  // --- Printing ---------------------------------------------------------------------------------

  predicate Visible(c: char) {
    '!' <= c <= '~'
  }

  predicate ValidField(s: string, allowSpace: bool) {
    forall i :: 0 <= i < |s| ==> Visible(s[i]) || (allowSpace && s[i] == ' ')
  }

  function HeaderText(h: Header): string {
    h.key + (": " + (h.value + CRLF))
  }

  function HeaderLines(headers: seq<Header>): string {
    if headers == [] then [] else HeaderText(headers[0]) + HeaderLines(headers[1..])
  }

  /** Headers the serializer writes itself, so a caller's own are not repeated. */
  predicate Regenerated(h: Header, skipDate: bool) {
    SameName(h.key, LengthName()) || (skipDate && SameName(h.key, "Date"))
  }

  function Emitted(headers: seq<Header>, skipDate: bool): seq<Header> {
    if headers == [] then []
    else if Regenerated(headers[0], skipDate) then Emitted(headers[1..], skipDate)
    else [headers[0]] + Emitted(headers[1..], skipDate)
  }

  predicate GoodHeader(h: Header) {
    h.key != [] && ValidField(h.key, false) && ValidField(h.value, true)
  }

  predicate GoodHeaders(headers: seq<Header>) {
    forall i :: 0 <= i < |headers| ==> GoodHeader(headers[i])
  }

  function LengthHeader(body: string): seq<Header> {
    if body == [] then [] else [Header(LengthName(), Print(|body|))]
  }

  function TailText(headers: seq<Header>, body: string): string {
    HeaderLines(headers) + (CRLF + body)
  }

  function RequestLine(verb: string, path: string): string {
    verb + (" " + (path + (" " + Version())))
  }

  /** The headers a request goes out with. */
  function Sent(req: Request): seq<Header> {
    Emitted(req.headers, false) + LengthHeader(req.body)
  }

  function RequestText(req: Request): string {
    RequestLine(req.verb, req.path) + (CRLF + TailText(Sent(req), req.body))
  }

  /** What the serializer demands of a request, apart from room. */
  predicate Printable(req: Request) {
    && req.verb != [] && ValidField(req.verb, false)
    && req.path != [] && ValidField(req.path, false)
    && |req.headers| <= MAX_HEADERS
    && GoodHeaders(Emitted(req.headers, false))
  }

  predicate HeadersFit(headers: seq<Header>) {
    forall i :: 0 <= i < |headers| ==> |headers[i].key| < MAX_KEY && |headers[i].value| < MAX_VALUE
  }

  /** The fields fit the arrays that hold them. */
  predicate Held(req: Request) {
    |req.verb| < MAX_METHOD && |req.path| < MAX_PATH && HeadersFit(req.headers)
    && |req.body| <= UINT32_MAX
  }

  predicate NoColon(headers: seq<Header>) {
    forall i :: 0 <= i < |headers| ==> ':' !in headers[i].key
  }

  // --- What is printed is read back -------------------------------------------------------------

  /** A printed 32-bit number is read back as itself; a larger one is refused. */
  lemma UintPrint(n: nat)
    ensures Uint(Print(n)) == if n <= UINT32_MAX then Good(n) else Refused(TooLong)
  {
    var s := Print(n);
    assert s[..|s|] == s;
    ValuePrint(n);
    if n <= UINT32_MAX {
      assert Pow10(10) == 10_000_000_000 by { assert Pow10(5) == 100_000; }
      PrintLength(n, 10);
      forall k | 0 <= k <= |s| ensures Value(s[..k]) <= UINT32_MAX {
        ValueMonotone(s, k);
      }
    }
  }

  lemma ValidHasNo(s: string, allowSpace: bool, c: char)
    requires ValidField(s, allowSpace) && !Visible(c) && c != ' '
    ensures c !in s
  {
  }

  /** One printed header line, read with `count` headers before it. */
  lemma ReadHeaderText(h: Header, count: nat)
    requires GoodHeader(h) && |h.key| < MAX_KEY && |h.value| < MAX_VALUE
    ensures ReadHeader(h.key + (": " + h.value), count)
            == if ':' in h.key then Refused(Malformed)
               else if count >= MAX_HEADERS then Refused(TooLong)
               else Good(h)
  {
    var line := h.key + (": " + h.value);
    if ':' in h.key {
      var k := IndexOf(h.key, ':');
      assert forall i :: 0 <= i < k ==> line[i] == h.key[i];
      IndexIs(line, ':', k);
      assert line[k + 1] == if k + 1 < |h.key| then h.key[k + 1] else ':';
    } else {
      assert forall i :: 0 <= i < |h.key| ==> line[i] == h.key[i];
      IndexIs(line, ':', |h.key|);
      ValidHasNo(h.key, false, '\0');
      ValidHasNo(h.value, true, '\0');
      assert line[..|h.key|] == h.key;
      assert line[|h.key| + 2..] == h.value;
    }
  }

  /** The block of one printed header and whatever follows it. */
  lemma TailStep(h: Header, rest: string, headers: seq<Header>)
    requires GoodHeader(h) && |h.key| < MAX_KEY && |h.value| < MAX_VALUE
    ensures ReadTail(HeaderText(h) + rest, headers)
            == if ':' in h.key then Refused(Malformed)
               else if |headers| >= MAX_HEADERS then Refused(TooLong)
               else ReadTail(rest, headers + [h])
  {
    hide ReadHeader, GoodHeader, Crlf;
    var line := h.key + (": " + h.value);
    var s := HeaderText(h) + rest;
    assert s == line + (CRLF + rest);
    assert '\r' !in line by {
      assert GoodHeader(h);
      LineHasNoCr(h);
    }
    CrlfAfter(line, rest);
    assert s[..|line|] == line;
    assert s[|line| + 2..] == rest;
    ReadHeaderText(h, |headers|);
  }

  lemma LineHasNoCr(h: Header)
    requires GoodHeader(h)
    ensures '\r' !in h.key + (": " + h.value)
  {
    ValidHasNo(h.key, false, '\r');
    ValidHasNo(h.value, true, '\r');
  }

  /** The block read after `before` headers: a ':' in a key breaks its line, a 33rd header is too
      many, and otherwise every header is read back in order. */
  lemma {:induction false} TailRead(hs: seq<Header>, body: string, before: seq<Header>)
    requires GoodHeaders(hs) && HeadersFit(hs)
    requires |before| <= MAX_HEADERS
    requires forall i :: 0 <= i < |hs| && |before| + i > MAX_HEADERS ==> ':' !in hs[i].key
    ensures ReadTail(TailText(hs, body), before)
            == if !NoColon(hs) then Refused(Malformed)
               else if |before| + |hs| > MAX_HEADERS then Refused(TooLong)
               else ReadBody(body, before + hs)
    decreases |hs|
  {
    hide ReadTail, ReadBody, GoodHeader, TailText, HeaderText;
    if hs == [] {
      assert before + hs == before;
      TailEnd(body, before);
    } else {
      TailSplit(hs, body);
      TailStep(hs[0], TailText(hs[1..], body), before);
      if ':' !in hs[0].key && |before| < MAX_HEADERS {
        TailRead(hs[1..], body, before + [hs[0]]);
        assert before + [hs[0]] + hs[1..] == before + hs;
        assert NoColon(hs) == NoColon(hs[1..]);
      }
    }
  }

  lemma TailSplit(hs: seq<Header>, body: string)
    requires hs != []
    ensures TailText(hs, body) == HeaderText(hs[0]) + TailText(hs[1..], body)
  {
    hide HeaderText;
  }

  lemma TailEnd(body: string, before: seq<Header>)
    ensures ReadTail(TailText([], body), before) == ReadBody(body, before)
  {
    hide ReadBody;
    var s := TailText([], body);
    assert s == [] + (CRLF + body);
    CrlfAfter([], body);
    assert s[2..] == body;
  }

  lemma {:induction false} LookupMissing(headers: seq<Header>, more: seq<Header>, key: string)
    requires forall i :: 0 <= i < |headers| ==> !SameName(headers[i].key, key)
    ensures Lookup(headers + more, key) == Lookup(more, key)
  {
    hide SameName;
    if headers == [] {
      assert headers + more == more;
    } else {
      assert (headers + more)[1..] == headers[1..] + more;
      LookupMissing(headers[1..], more, key);
    }
  }

  /** No regenerated header is emitted, and every emitted header is one of the caller's. */
  lemma {:induction false} EmittedFacts(headers: seq<Header>, skipDate: bool)
    ensures |Emitted(headers, skipDate)| <= |headers|
    ensures forall i :: 0 <= i < |Emitted(headers, skipDate)| ==>
              var h := Emitted(headers, skipDate)[i]; !Regenerated(h, skipDate) && h in headers
  {
    hide Regenerated;
    if headers != [] {
      EmittedFacts(headers[1..], skipDate);
    }
  }

  lemma {:induction false} EmittedFit(headers: seq<Header>, skipDate: bool)
    requires HeadersFit(headers)
    ensures HeadersFit(Emitted(headers, skipDate))
  {
    hide Regenerated;
    if headers != [] {
      EmittedFit(headers[1..], skipDate);
    }
  }

  lemma LengthHeaderFacts(body: string)
    requires |body| <= UINT32_MAX
    ensures var hs := LengthHeader(body); GoodHeaders(hs) && HeadersFit(hs) && NoColon(hs)
  {
    if body != [] {
      PrintsGood(|body|);
    }
  }

  lemma PrintsGood(n: nat)
    requires n <= UINT32_MAX
    ensures ValidField(Print(n), true) && |Print(n)| <= 10
  {
    assert Pow10(10) == 10_000_000_000 by { assert Pow10(5) == 100_000; }
    PrintLength(n, 10);
  }

  /** With the generated length among headers that name no other, the body is read back. */
  lemma BodyRead(headers: seq<Header>, body: string)
    requires |body| <= UINT32_MAX
    requires forall i :: 0 <= i < |headers| ==> !SameName(headers[i].key, LengthName())
    ensures ReadBody(body, headers + LengthHeader(body)) == Good((headers + LengthHeader(body), body))
  {
    hide Uint;
    LookupMissing(headers, LengthHeader(body), LengthName());
    UintPrint(|body|);
  }

  /** A printed header block with its generated length and body, whole. */
  lemma BlockRead(headers: seq<Header>, body: string)
    requires GoodHeaders(headers) && HeadersFit(headers)
    requires |headers| <= MAX_HEADERS + 1 && |body| <= UINT32_MAX
    requires forall i :: 0 <= i < |headers| ==> !SameName(headers[i].key, LengthName())
    ensures var sent := headers + LengthHeader(body);
            ReadTail(TailText(sent, body), [])
            == if !NoColon(headers) then Refused(Malformed)
               else if |sent| > MAX_HEADERS then Refused(TooLong)
               else Good((sent, body))
  {
    hide ReadTail, ReadBody, GoodHeader, SameName, TailText, Print;
    var sent := headers + LengthHeader(body);
    LengthHeaderFacts(body);
    assert forall i :: 0 <= i < |headers| ==> sent[i] == headers[i];
    assert forall i :: |headers| <= i < |sent| ==> sent[i] == LengthHeader(body)[i - |headers|];
    TailRead(sent, body, []);
    BodyRead(headers, body);
    assert [] + sent == sent;
  }

  lemma FieldHasNoSpace(field: string)
    requires ValidField(field, false)
    ensures ' ' !in field && '\0' !in field && '\r' !in field
  {
    ValidHasNo(field, false, '\0');
    ValidHasNo(field, false, '\r');
  }

  /** Splitting at the first space undoes joining with a space. */
  lemma SplitAtSpace(token: string, rest: string)
    requires ' ' !in token
    ensures var line := token + (" " + rest);
            IndexOf(line, ' ') == |token| && line[..|token|] == token && line[|token| + 1..] == rest
  {
    var line := token + (" " + rest);
    assert forall i :: 0 <= i < |token| ==> line[i] == token[i];
    IndexIs(line, ' ', |token|);
  }

  lemma RequestLineRead(verb: string, path: string)
    requires verb != [] && ValidField(verb, false) && |verb| < MAX_METHOD
    requires path != [] && ValidField(path, false) && |path| < MAX_PATH
    ensures ReadRequestLine(RequestLine(verb, path)) == Good((verb, path))
    ensures '\r' !in RequestLine(verb, path)
  {
    hide ValidField, IndexOf;
    var line := RequestLine(verb, path);
    var rest := path + (" " + Version());
    FieldHasNoSpace(verb);
    FieldHasNoSpace(path);
    SplitAtSpace(verb, rest);
    SplitAtSpace(path, Version());
    assert line == verb + (" " + rest);
    assert '\r' !in Version();
  }

  /** Every request the serializer accepts: its text parses back to the same method, path and body
      with the headers it went out with, exactly when none of their keys holds ':' and they number
      at most 32. In the other two cases the parser refuses the text; it never misreads it. */
  lemma RequestRoundTrip(req: Request)
    requires Printable(req) && Held(req)
    ensures ParseRequest(RequestText(req))
            == if !NoColon(Emitted(req.headers, false)) then Refused(Malformed)
               else if |Sent(req)| > MAX_HEADERS then Refused(TooLong)
               else Good(req.(headers := Sent(req)))
  {
    hide ReadRequestLine, ReadTail, TailText, SameName, GoodHeaders, HeadersFit, NoColon, Crlf;
    hide RequestLine, Emitted, LengthHeader;
    var line := RequestLine(req.verb, req.path);
    var tail := TailText(Sent(req), req.body);
    var s := RequestText(req);
    RequestLineRead(req.verb, req.path);
    CrlfAfter(line, tail);
    assert s[..|line|] == line && s[|line| + 2..] == tail;
    EmittedFacts(req.headers, false);
    EmittedFit(req.headers, false);
    BlockRead(Emitted(req.headers, false), req.body);
  }
}
