/** More about HTTTP text: responses come back too, a parsed request survives being passed on, and
    when a message fits the room it is given. */
module HtttpLaws {
  import opened Basics
  import opened Decimal
  import opened Htttp

  // --- Responses --------------------------------------------------------------------------------

  /** The phrase for a status; a status without one cannot be sent. */
  function Reason(status: int): (phrase: Option<string>)
    ensures phrase.Some? ==> 100 <= status <= 599
  {
    if status == 200 then Some("OK")
    else if status == 201 then Some("Created")
    else if status == 400 then Some("Bad Request")
    else if status == 401 then Some("Unauthorized")
    else if status == 403 then Some("Forbidden")
    else if status == 404 then Some("Not Found")
    else if status == 409 then Some("Conflict")
    else if status == 413 then Some("Payload Too Large")
    else if status == 429 then Some("Too Many Requests")
    else if status == 500 then Some("Internal Server Error")
    else if status == 501 then Some("Not Implemented")
    else None
  }

  function StatusLine(status: nat, phrase: string): string {
    Version() + (" " + (Print(status) + (" " + phrase)))
  }

  /** The caller's headers a response goes out with, behind the date. */
  function Dated(res: Response, date: string): seq<Header> {
    [Header("Date", date)] + Emitted(res.headers, true)
  }

  function ResponseSent(res: Response, date: string): seq<Header> {
    Dated(res, date) + LengthHeader(res.body)
  }

  predicate ResponsePrintable(res: Response) {
    Reason(res.status).Some? && |res.headers| <= MAX_HEADERS && GoodHeaders(Emitted(res.headers, true))
  }

  function ResponseText(res: Response, date: string): string
    requires Reason(res.status).Some?
  {
    StatusLine(res.status, Reason(res.status).value)
    + (CRLF + TailText(ResponseSent(res, date), res.body))
  }

  /** What strftime leaves in its 48-byte buffer: visible text. */
  predicate DateText(date: string) {
    ValidField(date, true) && |date| < 48
  }

  lemma StatusLineRead(status: int)
    requires Reason(status).Some?
    ensures var line := StatusLine(status, Reason(status).value);
            ReadStatusLine(line) == Good(status) && '\r' !in line
  {
    hide Uint, Print, IndexOf;
    var phrase := Reason(status).value;
    var line := StatusLine(status, phrase);
    var rest := Print(status) + (" " + phrase);
    assert line == Version() + (" " + rest);
    var fixed := |Version()|;
    assert line[..fixed] == Version() && line[fixed] == ' ' && line[fixed + 1..] == rest;
    DigitsHaveNo(Print(status), ' ');
    DigitsHaveNo(Print(status), '\r');
    SplitAtSpace(Print(status), phrase);
    UintPrint(status);
    PhraseHasNoCr(status);
    assert '\r' !in Version();
  }

  lemma DigitsHaveNo(s: string, c: char)
    requires AllDigits(s) && !IsDigit(c)
    ensures c !in s
  {
  }

  lemma PhraseHasNoCr(status: int)
    requires Reason(status).Some?
    ensures '\r' !in Reason(status).value
  {
  }

  /** Every response the serializer accepts parses back to the same status and body with the headers
      it went out with (the date first), exactly when no key holds ':' and they number at most 32:
      a caller's own limit is 31 headers, or 30 with a body. */
  lemma ResponseRoundTrip(res: Response, date: string)
    requires ResponsePrintable(res) && DateText(date)
    requires HeadersFit(res.headers) && |res.body| <= UINT32_MAX
    ensures ParseResponse(ResponseText(res, date))
            == if !NoColon(Emitted(res.headers, true)) then Refused(Malformed)
               else if |ResponseSent(res, date)| > MAX_HEADERS then Refused(TooLong)
               else Good(res.(headers := ResponseSent(res, date)))
  {
    hide ReadStatusLine, ReadTail, TailText, Crlf, StatusLine, LengthHeader, Reason, GoodHeader, Emitted;
    var line := StatusLine(res.status, Reason(res.status).value);
    var tail := TailText(ResponseSent(res, date), res.body);
    var s := ResponseText(res, date);
    StatusLineRead(res.status);
    CrlfAfter(line, tail);
    assert s[..|line|] == line && s[|line| + 2..] == tail;
    DatedFacts(res, date);
    BlockRead(Dated(res, date), res.body);
  }

  lemma DatedFacts(res: Response, date: string)
    requires ResponsePrintable(res) && DateText(date) && HeadersFit(res.headers)
    ensures var hs := Dated(res, date);
            && GoodHeaders(hs) && HeadersFit(hs) && |hs| <= MAX_HEADERS + 1
            && NoColon(hs) == NoColon(Emitted(res.headers, true))
    ensures var hs := Dated(res, date);
            forall i :: 0 <= i < |hs| ==> !SameName(hs[i].key, LengthName())
  {
    hide Emitted;
    EmittedFacts(res.headers, true);
    EmittedFit(res.headers, true);
    var hs := Dated(res, date);
    var own := Emitted(res.headers, true);
    assert GoodHeader(Header("Date", date));
    assert !SameName("Date", LengthName());
    forall i | 0 <= i < |hs|
      ensures GoodHeader(hs[i]) && !SameName(hs[i].key, LengthName())
    {
      assert i > 0 ==> hs[i] == own[i - 1] && !Regenerated(own[i - 1], true);
    }
    assert NoColon(own) ==> NoColon(hs);
    assert forall i :: 0 <= i < |own| ==> own[i] == hs[i + 1];
  }

  // --- Passing a parsed request on --------------------------------------------------------------

  lemma ReadHeaderFacts(line: string, count: nat)
    requires ReadHeader(line, count).Good?
    ensures var h := ReadHeader(line, count).value;
            h.key != [] && ':' !in h.key && |h.key| < MAX_KEY && |h.value| < MAX_VALUE
    ensures count < MAX_HEADERS
  {
  }

  lemma {:induction false} ReadTailFacts(s: string, before: seq<Header>)
    requires ReadTail(s, before).Good?
    requires NoColon(before) && HeadersFit(before) && |before| <= MAX_HEADERS
    ensures var (headers, body) := ReadTail(s, before).value;
            && NoColon(headers) && HeadersFit(headers) && |headers| <= MAX_HEADERS && |body| <= |s|
            && (body != [] ==> Lookup(headers, LengthName()).Some?)
    decreases |s|
  {
    hide Crlf, ReadHeader, Uint, Lookup;
    var eol := Crlf(s).value;
    if eol != 0 {
      ReadHeaderFacts(s[..eol], |before|);
      ReadTailFacts(s[eol + 2..], before + [ReadHeader(s[..eol], |before|).value]);
    }
  }

  /** A declared length is not among the emitted headers. */
  lemma {:induction false} LengthNotEmitted(headers: seq<Header>)
    requires Lookup(headers, LengthName()).Some?
    ensures |Emitted(headers, false)| < |headers|
  {
    hide SameName;
    EmittedFacts(headers[1..], false);
    if !SameName(headers[0].key, LengthName()) {
      LengthNotEmitted(headers[1..]);
    }
  }

  lemma RequestLineFacts(line: string)
    requires ReadRequestLine(line).Good?
    ensures var (verb, path) := ReadRequestLine(line).value;
            |verb| < MAX_METHOD && |path| < MAX_PATH
  {
  }

  /** A parsed request that the serializer accepts always parses again, to itself with its length
      header regenerated: parsing never produces a key with ':' or one header too many. */
  lemma ParsedIsRelayed(s: string)
    requires |s| <= UINT32_MAX && ParseRequest(s).Good? && Printable(ParseRequest(s).value)
    ensures var req := ParseRequest(s).value;
            ParseRequest(RequestText(req)) == Good(req.(headers := Sent(req)))
  {
    hide Crlf, ReadTail, ReadRequestLine, GoodHeaders, HeadersFit, Emitted, RequestText, ValidField, Lookup;
    var req := ParseRequest(s).value;
    var eol := Crlf(s).value;
    RequestLineFacts(s[..eol]);
    assert NoColon([]) && HeadersFit([]) by { EmptyFits(); }
    ReadTailFacts(s[eol + 2..], []);
    EmittedFacts(req.headers, false);
    if req.body != [] {
      LengthNotEmitted(req.headers);
    }
    assert NoColon(Emitted(req.headers, false)) by {
      EmittedNoColon(req.headers, false);
    }
    RequestRoundTrip(req);
  }

  lemma EmptyFits()
    ensures HeadersFit([])
  {
  }

  lemma EmittedNoColon(headers: seq<Header>, skipDate: bool)
    requires NoColon(headers)
    ensures NoColon(Emitted(headers, skipDate))
  {
    hide Emitted;
    EmittedFacts(headers, skipDate);
    var own := Emitted(headers, skipDate);
    forall i | 0 <= i < |own| ensures ':' !in own[i].key {
      assert own[i] in headers;
    }
  }

  lemma {:induction false} EmittedConcat(a: seq<Header>, b: seq<Header>, skipDate: bool)
    ensures Emitted(a + b, skipDate) == Emitted(a, skipDate) + Emitted(b, skipDate)
  {
    hide Regenerated;
    if a == [] {
      assert a + b == b;
    } else {
      assert (a + b)[1..] == a[1..] + b;
      EmittedConcat(a[1..], b, skipDate);
    }
  }

  lemma {:induction false} EmittedTwice(headers: seq<Header>, skipDate: bool)
    ensures Emitted(Emitted(headers, skipDate), skipDate) == Emitted(headers, skipDate)
  {
    hide Regenerated;
    if headers != [] {
      EmittedTwice(headers[1..], skipDate);
    }
  }

  /** Printing what was parsed back from a request's text gives that text again. */
  lemma RelayedTextIsTheSame(req: Request)
    ensures RequestText(req.(headers := Sent(req))) == RequestText(req)
  {
    hide Print, RequestLine, TailText;
    EmittedConcat(Emitted(req.headers, false), LengthHeader(req.body), false);
    EmittedTwice(req.headers, false);
    assert Emitted(LengthHeader(req.body), false) == [];
    assert Sent(req.(headers := Sent(req))) == Sent(req);
  }

  // --- Room -------------------------------------------------------------------------------------

  /** Room left after the caller's headers, or why the serializer stops among them. */
  function PutHeaders(headers: seq<Header>, skipDate: bool, room: nat): Reply<nat> {
    if headers == [] then Good(room)
    else if Regenerated(headers[0], skipDate) then PutHeaders(headers[1..], skipDate, room)
    else if !GoodHeader(headers[0]) then Refused(Malformed)
    else if |HeaderText(headers[0])| > room then Refused(NoSpace)
    else PutHeaders(headers[1..], skipDate, room - |HeaderText(headers[0])|)
  }

  function PutText(text: string, room: nat): Reply<nat> {
    if |text| > room then Refused(NoSpace) else Good(room - |text|)
  }

  /** Room left after everything behind the first line. */
  function PutTail(headers: seq<Header>, body: string, skipDate: bool, room: nat): Reply<nat> {
    if |headers| > MAX_HEADERS then Refused(TooLong)
    else
      match PutHeaders(headers, skipDate, room)
      case Refused(code) => Refused(code)
      case Good(left) => PutText(TailText(LengthHeader(body), body), left)
  }

  function PutRequest(req: Request, room: nat): Reply<nat> {
    if req.verb == [] || req.path == [] then Refused(Malformed)
    else if !ValidField(req.verb, false) || !ValidField(req.path, false) then Refused(Malformed)
    else
      match PutText(RequestLine(req.verb, req.path) + CRLF, room)
      case Refused(code) => Refused(code)
      case Good(left) => PutTail(req.headers, req.body, false, left)
  }

  function PutResponse(res: Response, date: string, room: nat): Reply<nat> {
    if Reason(res.status).None? then Refused(Malformed)
    else
      match PutText(StatusLine(res.status, Reason(res.status).value) + CRLF, room)
      case Refused(code) => Refused(code)
      case Good(left) =>
        match PutText(HeaderText(Header("Date", date)), left)
        case Refused(code) => Refused(code)
        case Good(left) => PutTail(res.headers, res.body, true, left)
  }

  lemma {:induction false} PutHeadersFits(headers: seq<Header>, skipDate: bool, room: nat)
    ensures var own := Emitted(headers, skipDate);
            PutHeaders(headers, skipDate, room).Good? <==> GoodHeaders(own) && |HeaderLines(own)| <= room
    ensures var own := Emitted(headers, skipDate);
            PutHeaders(headers, skipDate, room).Good?
            ==> PutHeaders(headers, skipDate, room).value == room - |HeaderLines(own)|
    ensures var own := Emitted(headers, skipDate);
            GoodHeaders(own) && |HeaderLines(own)| > room
            ==> PutHeaders(headers, skipDate, room) == Refused(NoSpace)
    decreases |headers|
  {
    hide Regenerated, GoodHeader, HeaderText;
    if headers != [] {
      if Regenerated(headers[0], skipDate) {
        PutHeadersFits(headers[1..], skipDate, room);
      } else {
        var own := Emitted(headers, skipDate);
        var rest := Emitted(headers[1..], skipDate);
        assert own[1..] == rest && own[0] == headers[0];
        assert GoodHeaders(own) == (GoodHeader(headers[0]) && GoodHeaders(rest)) by {
          assert forall i :: 0 <= i < |rest| ==> rest[i] == own[i + 1];
        }
        if |HeaderText(headers[0])| <= room {
          PutHeadersFits(headers[1..], skipDate, room - |HeaderText(headers[0])|);
        }
      }
    }
  }

  lemma {:induction false} LinesConcat(a: seq<Header>, b: seq<Header>)
    ensures HeaderLines(a + b) == HeaderLines(a) + HeaderLines(b)
  {
    hide HeaderText;
    if a == [] {
      assert a + b == b;
    } else {
      assert (a + b)[1..] == a[1..] + b;
      LinesConcat(a[1..], b);
    }
  }

  /** A printable request is written exactly when its whole text fits; a request that is not
      printable never is. Nothing but lack of room refuses a printable one. */
  lemma RequestFits(req: Request, room: nat)
    ensures PutRequest(req, room).Good? <==> Printable(req) && |RequestText(req)| <= room
    ensures PutRequest(req, room).Good? ==> PutRequest(req, room).value == room - |RequestText(req)|
    ensures Printable(req) && |RequestText(req)| > room ==> PutRequest(req, room) == Refused(NoSpace)
  {
    hide HeaderLines, PutHeaders, Emitted, GoodHeaders, ValidField, RequestLine, LengthHeader;
    var line := RequestLine(req.verb, req.path) + CRLF;
    LinesConcat(Emitted(req.headers, false), LengthHeader(req.body));
    if |line| <= room {
      PutHeadersFits(req.headers, false, room - |line|);
    }
  }

  lemma ResponseFits(res: Response, date: string, room: nat)
    ensures PutResponse(res, date, room).Good?
            <==> ResponsePrintable(res) && |ResponseText(res, date)| <= room
    ensures PutResponse(res, date, room).Good?
            ==> PutResponse(res, date, room).value == room - |ResponseText(res, date)|
    ensures ResponsePrintable(res) && |ResponseText(res, date)| > room
            ==> PutResponse(res, date, room) == Refused(NoSpace)
  {
    hide PutHeaders, Emitted, GoodHeaders, StatusLine, LengthHeader, Reason, HeaderText;
    if Reason(res.status).Some? {
      var line := StatusLine(res.status, Reason(res.status).value) + CRLF;
      var dateLine := HeaderText(Header("Date", date));
      LinesConcat(Dated(res, date), LengthHeader(res.body));
      assert Dated(res, date)[1..] == Emitted(res.headers, true);
      assert |HeaderLines(Dated(res, date))| == |dateLine| + |HeaderLines(Emitted(res.headers, true))|;
      if |line| + |dateLine| <= room {
        PutHeadersFits(res.headers, true, room - |line| - |dateLine|);
      }
    }
  }
}
