/**
 * The HTTTP library's own loops (core/src/libhtttp/htttp.c), over a byte buffer read by offset and
 * an output buffer written at a cursor, each proved against the message text of Htttp.
 */
module HtttpCode {
  import opened Basics
  import opened Decimal
  import opened Htttp
  import opened HtttpLaws

  // --- Reading ----------------------------------------------------------------------------------

  method FindCrlf(buf: string, from: nat) returns (at: Option<nat>)
    requires from <= |buf|
    ensures at.Some? <==> Crlf(buf[from..]).Some?
    ensures at.Some? ==> from <= at.value < |buf| - 1 && Crlf(buf[from..]) == Some(at.value - from)
  {
    var index := from;
    while index + 1 < |buf|
      invariant from <= index <= |buf|
      invariant forall i :: 0 <= i < index - from ==> !CrlfAt(buf[from..], i)
    {
      if buf[index] == '\r' && buf[index + 1] == '\n' {
        CrlfIs(buf[from..], index - from);
        return Some(index);
      }
      assert !CrlfAt(buf[from..], index - from);
      index := index + 1;
    }
    return None;
  }

  /** The first place in buf[from..to] where c stands; `to` if nowhere. */
  method FindByte(buf: string, from: nat, to: nat, c: char) returns (at: nat)
    requires from <= to <= |buf|
    ensures from <= at <= to && IndexOf(buf[from..to], c) == at - from
  {
    at := from;
    while at < to && buf[at] != c
      invariant from <= at <= to
      invariant forall i :: 0 <= i < at - from ==> buf[from..to][i] != c
    {
      at := at + 1;
    }
    IndexIs(buf[from..to], c, at - from);
  }

  method NamesEqual(a: string, b: string) returns (same: bool)
    ensures same == SameName(a, b)
  {
    var i := 0;
    while i < |a| && i < |b|
      invariant 0 <= i <= |a| && i <= |b|
      invariant forall k :: 0 <= k < i ==> Lower(a[k]) == Lower(b[k])
    {
      if Lower(a[i]) != Lower(b[i]) {
        return false;
      }
      i := i + 1;
    }
    return i == |a| && i == |b|;
  }

  method HeaderGet(headers: seq<Header>, key: string) returns (value: Option<string>)
    ensures value == Lookup(headers, key)
  {
    var i := 0;
    while i < |headers|
      invariant 0 <= i <= |headers|
      invariant Lookup(headers, key) == Lookup(headers[i..], key)
    {
      var same := NamesEqual(headers[i].key, key);
      if same {
        return Some(headers[i].value);
      }
      assert headers[i..][1..] == headers[i + 1..];
      i := i + 1;
    }
    return None;
  }

  method HeaderSet(headers: seq<Header>, key: string, value: string) returns (r: Reply<seq<Header>>)
    ensures r.Good? <==>
              GoodHeader(Header(key, value)) && |headers| < MAX_HEADERS && |key| < MAX_KEY && |value| < MAX_VALUE
    ensures r.Good? ==> r.value == headers + [Header(key, value)]
    ensures r.Refused? ==> r.code == if GoodHeader(Header(key, value)) then TooLong else Malformed
  {
    if key == [] {
      return Refused(Malformed);
    }
    if !ValidField(key, false) || !ValidField(value, true) {
      return Refused(Malformed);
    }
    ValidHasNo(key, false, '\0');
    ValidHasNo(value, true, '\0');
    if |headers| >= MAX_HEADERS {
      return Refused(TooLong);
    }
    if Token(key, MAX_KEY).Refused? || Token(value, MAX_VALUE).Refused? {
      return Refused(TooLong);
    }
    return Good(headers + [Header(key, value)]);
  }

  /** The guard taken before the multiplication is exactly overflow. */
  lemma GuardIsOverflow(value: nat, digit: nat)
    requires digit < 10
    ensures value > (UINT32_MAX - digit) / 10 <==> 10 * value + digit > UINT32_MAX
  {
  }

  lemma NextDigit(src: string, i: nat)
    requires i < |src| && AllDigits(src[..i]) && IsDigit(src[i])
    ensures AllDigits(src[..i + 1]) && Value(src[..i + 1]) == 10 * Value(src[..i]) + ValueOf(src[i])
  {
    var s := src[..i + 1];
    assert s[..|s| - 1] == src[..i];
  }

  /** The loop refuses exactly the texts that are not a decimal number of 32 bits, without ever
      letting the accumulator wrap. */
  method ParseUint(src: string) returns (r: Reply<nat>)
    ensures r == Uint(src)
    ensures r.Good? ==> r.value <= UINT32_MAX
  {
    hide Value, AllDigits;
    if |src| == 0 {
      return Refused(Malformed);
    }
    if |src| > 32 {
      return Refused(TooLong);
    }
    var value := 0;
    assert src[..0] == [] && AllDigits([]) && Value([]) == 0 by { NothingIsZero(); }
    var i := 0;
    while i < |src|
      invariant 0 <= i <= |src| && AllDigits(src[..i]) && value == Value(src[..i]) <= UINT32_MAX
      invariant NoOverflowYet(src, i)
    {
      if src[i] < '0' || src[i] > '9' {
        BadDigit(src, i);
        return Refused(Malformed);
      }
      var digit := ValueOf(src[i]);
      GuardIsOverflow(value, digit);
      NextDigit(src, i);
      if value > (UINT32_MAX - digit) / 10 {
        assert Overflows(src);
        return Refused(TooLong);
      }
      value := 10 * value + digit;
      i := i + 1;
    }
    assert src[..|src|] == src;
    return Good(value);
  }

  lemma NothingIsZero()
    ensures AllDigits([]) && Value([]) == 0
  {
  }

  ghost predicate NoOverflowYet(src: string, i: nat)
    requires i <= |src|
  {
    forall k :: 0 <= k <= i && AllDigits(src[..k]) ==> Value(src[..k]) <= UINT32_MAX
  }

  lemma BadDigit(src: string, i: nat)
    requires i < |src| && !IsDigit(src[i]) && NoOverflowYet(src, i)
    ensures !AllDigits(src) && !Overflows(src)
  {
    forall k | i < k <= |src| ensures !AllDigits(src[..k]) {
      assert src[..k][i] == src[i];
    }
  }

  /** The header block and the body; the body is the rest of the buffer, not a copy. */
  method ParseTail(buf: string, start: nat) returns (r: Reply<(seq<Header>, string)>)
    requires start <= |buf|
    ensures r == ReadTail(buf[start..], [])
  {
    hide Crlf, ReadBody, ReadHeader, ReadTail;
    var off, headers := start, [];
    while true
      invariant start <= off <= |buf|
      invariant ReadTail(buf[start..], []) == ReadTail(buf[off..], headers)
      decreases |buf| - off
    {
      var eol := FindCrlf(buf, off);
      if eol == None {
        NoLine(buf[off..], headers);
        return Refused(Malformed);
      }
      NextLine(buf, off, eol.value, headers);
      if eol.value == off {
        r := ParseBody(buf, off + 2, headers);
        return;
      }
      var header := ParseHeader(buf, off, eol.value, |headers|);
      if header.Refused? {
        return Refused(header.code);
      }
      headers := headers + [header.value];
      off := eol.value + 2;
    }
  }

  lemma NoLine(s: string, headers: seq<Header>)
    requires Crlf(s).None?
    ensures ReadTail(s, headers) == Refused(Malformed)
  {
  }

  /** The block at `off`, whose first line ends at `eol`. */
  lemma NextLine(buf: string, off: nat, eol: nat, headers: seq<Header>)
    requires off <= eol < |buf| - 1 && Crlf(buf[off..]) == Some(eol - off)
    ensures ReadTail(buf[off..], headers)
            == if eol == off then ReadBody(buf[off + 2..], headers)
               else if ReadHeader(buf[off..eol], |headers|).Refused? then
                 Refused(ReadHeader(buf[off..eol], |headers|).code)
               else ReadTail(buf[eol + 2..], headers + [ReadHeader(buf[off..eol], |headers|).value])
  {
    hide Crlf, ReadBody, ReadHeader;
    assert buf[off..][..eol - off] == buf[off..eol];
    assert buf[off..][eol - off + 2..] == buf[eol + 2..];
  }

  method ParseHeader(buf: string, off: nat, eol: nat, count: nat) returns (r: Reply<Header>)
    requires off <= eol <= |buf|
    ensures r == ReadHeader(buf[off..eol], count)
  {
    hide IndexOf;
    var colon := FindByte(buf, off, eol, ':');
    if colon == off || colon >= eol || colon + 1 >= eol || buf[colon + 1] != ' ' {
      return Refused(Malformed);
    }
    if count >= MAX_HEADERS {
      return Refused(TooLong);
    }
    assert buf[off..eol][..colon - off] == buf[off..colon];
    assert buf[off..eol][colon - off + 2..] == buf[colon + 2..eol];
    var key := Token(buf[off..colon], MAX_KEY);
    if key.Refused? {
      return Refused(key.code);
    }
    var value := Token(buf[colon + 2..eol], MAX_VALUE);
    if value.Refused? {
      return Refused(value.code);
    }
    return Good(Header(key.value, value.value));
  }

  method ParseBody(buf: string, off: nat, headers: seq<Header>) returns (r: Reply<(seq<Header>, string)>)
    requires off <= |buf|
    ensures r == ReadBody(buf[off..], headers)
  {
    var remaining := |buf| - off;
    var text := HeaderGet(headers, LengthName());
    if text == None {
      if remaining != 0 {
        return Refused(Length);
      }
      return Good((headers, []));
    }
    var declared := ParseUint(text.value);
    if declared.Refused? {
      return Refused(Malformed);
    }
    if declared.value != remaining {
      return Refused(Length);
    }
    return Good((headers, buf[off..]));
  }

  method ScanRequest(buf: string) returns (r: Reply<Request>)
    ensures r == ParseRequest(buf)
  {
    hide Crlf, ReadTail, IndexOf;
    assert buf[0..] == buf;
    var eol := FindCrlf(buf, 0);
    if eol == None {
      return Refused(Malformed);
    }
    var line := ScanRequestLine(buf, eol.value);
    if line.Refused? {
      return Refused(line.code);
    }
    var tail := ParseTail(buf, eol.value + 2);
    if tail.Refused? {
      return Refused(tail.code);
    }
    return Good(Request(line.value.0, line.value.1, tail.value.0, tail.value.1));
  }

  method ScanRequestLine(buf: string, eol: nat) returns (r: Reply<(string, string)>)
    requires eol <= |buf|
    ensures r == ReadRequestLine(buf[..eol])
  {
    hide IndexOf;
    ghost var line := buf[..eol];
    assert buf[0..eol] == line;
    var sp1 := FindByte(buf, 0, eol, ' ');
    if sp1 == 0 || sp1 >= eol {
      return Refused(Malformed);
    }
    assert line[..sp1] == buf[..sp1] && line[sp1 + 1..] == buf[sp1 + 1..eol];
    if Token(buf[..sp1], MAX_METHOD).Refused? {
      return Refused(TooLong);
    }
    var sp2 := FindByte(buf, sp1 + 1, eol, ' ');
    if sp2 == sp1 + 1 || sp2 >= eol {
      return Refused(Malformed);
    }
    assert buf[sp1 + 1..eol][..sp2 - sp1 - 1] == buf[sp1 + 1..sp2];
    assert buf[sp1 + 1..eol][sp2 - sp1..] == buf[sp2 + 1..eol];
    if Token(buf[sp1 + 1..sp2], MAX_PATH).Refused? {
      return Refused(TooLong);
    }
    if buf[sp2 + 1..eol] != Version() {
      return Refused(Malformed);
    }
    return Good((buf[..sp1], buf[sp1 + 1..sp2]));
  }

  method ScanResponse(buf: string) returns (r: Reply<Response>)
    ensures r == ParseResponse(buf)
  {
    hide Crlf, ReadTail, IndexOf, Uint;
    assert buf[0..] == buf;
    var eol := FindCrlf(buf, 0);
    if eol == None {
      return Refused(Malformed);
    }
    var status := ScanStatusLine(buf, eol.value);
    if status.Refused? {
      return Refused(status.code);
    }
    var tail := ParseTail(buf, eol.value + 2);
    if tail.Refused? {
      return Refused(tail.code);
    }
    return Good(Response(status.value, tail.value.0, tail.value.1));
  }

  method ScanStatusLine(buf: string, eol: nat) returns (r: Reply<int>)
    requires eol <= |buf|
    ensures r == ReadStatusLine(buf[..eol])
  {
    hide IndexOf, Uint;
    var fixed := |Version()|;
    ghost var line := buf[..eol];
    if eol <= fixed {
      return Refused(Malformed);
    }
    assert line[..fixed] == buf[..fixed];
    if buf[..fixed] != Version() || buf[fixed] != ' ' {
      return Refused(Malformed);
    }
    assert line[fixed + 1..] == buf[fixed + 1..eol];
    var sp := FindByte(buf, fixed + 1, eol, ' ');
    if sp == fixed + 1 || sp >= eol {
      return Refused(Malformed);
    }
    assert buf[fixed + 1..eol][..sp - fixed - 1] == buf[fixed + 1..sp];
    var status := ParseUint(buf[fixed + 1..sp]);
    if status.Refused? || status.value < 100 || status.value > 599 {
      return Refused(Malformed);
    }
    return Good(status.value);
  }

  // --- Writing ----------------------------------------------------------------------------------

  /** The output buffer: cap bytes of `out` may be written, off of them have been. */
  class Output {
    const out: array<char>
    const cap: nat
    var off: nat

    ghost predicate Valid()
      reads this
    {
      off <= cap <= out.Length
    }

    ghost function Written(): string
      requires Valid()
      reads this, out
    {
      out[..off]
    }

    ghost function Room(): nat
      requires Valid()
      reads this
    {
      cap - off
    }

    constructor (out: array<char>, cap: nat)
      requires cap <= out.Length
      ensures Valid() && this.out == out && this.cap == cap && off == 0
    {
      this.out := out;
      this.cap := cap;
      off := 0;
    }

    /** All of the text is written, or none of it. */
    method Append(text: string) returns (ok: bool)
      requires Valid()
      modifies this, out
      ensures Valid()
      ensures ok <==> |text| <= old(Room())
      ensures ok ==> Written() == old(Written()) + text
      ensures !ok ==> off == old(off) && out[..] == old(out[..])
      ensures out[cap..] == old(out[cap..])
    {
      if |text| > cap - off {
        return false;
      }
      ghost var before := out[..];
      var i := 0;
      while i < |text|
        invariant 0 <= i <= |text| && off + |text| <= cap && off == old(off)
        invariant out[..off + i] == before[..off] + text[..i]
        invariant out[cap..] == before[cap..]
      {
        out[off + i] := text[i];
        assert out[..off + i + 1] == out[..off + i] + [text[i]];
        assert text[..i + 1] == text[..i] + [text[i]];
        i := i + 1;
      }
      assert text[..|text|] == text;
      off := off + |text|;
      return true;
    }

    /** Several texts one after another: as one text, except that a failure may leave some of it. */
    method AppendAll(texts: seq<string>) returns (ok: bool)
      requires Valid()
      modifies this, out
      ensures Valid()
      ensures ok <==> |Joined(texts)| <= old(Room())
      ensures ok ==> Written() == old(Written()) + Joined(texts)
      ensures out[cap..] == old(out[cap..])
    {
      var i := 0;
      ghost var whole := old(Written()) + Joined(texts);
      assert texts[0..] == texts;
      while i < |texts|
        invariant 0 <= i <= |texts| && Valid()
        invariant Written() + Joined(texts[i..]) == whole
        invariant out[cap..] == old(out[cap..])
      {
        assert texts[i..][1..] == texts[i + 1..];
        ghost var done := Written();
        ok := Append(texts[i]);
        if !ok {
          assert |Joined(texts[i..])| >= |texts[i]|;
          return;
        }
        assert done + Joined(texts[i..]) == Written() + Joined(texts[i + 1..]);
        i := i + 1;
      }
      ok := true;
    }

    method EmitHeader(h: Header) returns (ok: bool)
      requires Valid()
      modifies this, out
      ensures Valid()
      ensures ok <==> |HeaderText(h)| <= old(Room())
      ensures ok ==> Written() == old(Written()) + HeaderText(h)
      ensures out[cap..] == old(out[cap..])
    {
      HeaderPieces(h);
      ok := AppendAll([h.key, ": ", h.value, CRLF]);
    }

    /** The caller's headers without those regenerated, in order; stops at the first bad one. */
    method EmitHeaders(headers: seq<Header>, skipDate: bool) returns (refused: Option<Code>)
      requires Valid()
      modifies this, out
      ensures Valid()
      ensures refused == HeadersRefusal(headers, skipDate, old(Room()))
      ensures refused == None ==> Written() == old(Written()) + HeaderLines(Emitted(headers, skipDate))
      ensures out[cap..] == old(out[cap..])
    {
      hide GoodHeader, HeaderText, SameName, Regenerated;
      if |headers| > MAX_HEADERS {
        return Some(TooLong);
      }
      var i := 0;
      assert headers[0..] == headers;
      ghost var whole := old(Written()) + HeaderLines(Emitted(headers, skipDate));
      while i < |headers|
        invariant 0 <= i <= |headers| && Valid()
        invariant PutHeaders(headers, skipDate, old(Room())) == PutHeaders(headers[i..], skipDate, Room())
        invariant Written() + HeaderLines(Emitted(headers[i..], skipDate)) == whole
        invariant out[cap..] == old(out[cap..])
      {
        var h := headers[i];
        assert headers[i..][1..] == headers[i + 1..];
        var skip := IsRegenerated(h, skipDate);
        if !skip {
          if !GoodHeader(h) {
            return Some(Malformed);
          }
          ghost var done, rest := Written(), Emitted(headers[i + 1..], skipDate);
          assert ([h] + rest)[1..] == rest;
          var ok := EmitHeader(h);
          if !ok {
            return Some(NoSpace);
          }
          assert done + (HeaderText(h) + HeaderLines(rest)) == Written() + HeaderLines(rest);
        }
        i := i + 1;
      }
      return None;
    }

    /** The generated length, the blank line and the body. */
    method EmitBody(body: string) returns (ok: bool)
      requires Valid()
      modifies this, out
      ensures Valid()
      ensures ok <==> |TailText(LengthHeader(body), body)| <= old(Room())
      ensures ok ==> Written() == old(Written()) + TailText(LengthHeader(body), body)
      ensures out[cap..] == old(out[cap..])
    {
      hide Print;
      BodyPieces(body);
      if |body| > 0 {
        ok := AppendAll([LengthName(), ": ", Print(|body|), CRLF, CRLF, body]);
      } else {
        ok := AppendAll([CRLF, body]);
      }
    }

    /** Everything behind the first line. */
    method EmitRest(headers: seq<Header>, body: string, skipDate: bool) returns (refused: Option<Code>)
      requires Valid()
      modifies this, out
      ensures Valid()
      ensures refused == Refusal(PutTail(headers, body, skipDate, old(Room())))
      ensures refused == None ==>
                Written() == old(Written()) + TailText(Emitted(headers, skipDate) + LengthHeader(body), body)
      ensures out[cap..] == old(out[cap..])
    {
      hide PutHeaders, HeaderLines, Emitted, LengthHeader;
      refused := EmitHeaders(headers, skipDate);
      if refused.Some? {
        return;
      }
      PutHeadersFits(headers, skipDate, old(Room()));
      var ok := EmitBody(body);
      if !ok {
        return Some(NoSpace);
      }
      LinesConcat(Emitted(headers, skipDate), LengthHeader(body));
    }

    method SerializeRequest(req: Request) returns (refused: Option<Code>)
      requires Valid() && off == 0
      modifies this, out
      ensures Valid()
      ensures refused == Refusal(PutRequest(req, cap))
      ensures refused == None ==> Written() == RequestText(req)
      ensures out[cap..] == old(out[cap..])
    {
      hide ValidField, PutTail, TailText, Emitted, LengthHeader, RequestLine;
      if req.verb == [] || req.path == [] {
        return Some(Malformed);
      }
      if !ValidField(req.verb, false) || !ValidField(req.path, false) {
        return Some(Malformed);
      }
      RequestLinePieces(req.verb, req.path);
      var ok := AppendAll([req.verb, " ", req.path, " ", Version(), CRLF]);
      if !ok {
        return Some(NoSpace);
      }
      refused := EmitRest(req.headers, req.body, false);
    }

    method SerializeResponse(res: Response, date: string) returns (refused: Option<Code>)
      requires Valid() && off == 0
      modifies this, out
      ensures Valid()
      ensures refused == Refusal(PutResponse(res, date, cap))
      ensures refused == None ==> Reason(res.status).Some? && Written() == ResponseText(res, date)
      ensures out[cap..] == old(out[cap..])
    {
      hide PutTail, TailText, Emitted, LengthHeader, Reason, StatusLine, HeaderText;
      var phrase := Reason(res.status);
      if phrase == None {
        return Some(Malformed);
      }
      StatusLinePieces(res.status, phrase.value);
      var ok := AppendAll([Version(), " ", Print(res.status), " ", phrase.value, CRLF]);
      if !ok {
        return Some(NoSpace);
      }
      ok := EmitHeader(Header("Date", date));
      if !ok {
        return Some(NoSpace);
      }
      refused := EmitRest(res.headers, res.body, true);
      ResponseParts(res, date);
    }
  }

  ghost function Refusal(put: Reply<nat>): Option<Code> {
    match put
    case Good(_) => None
    case Refused(code) => Some(code)
  }

  ghost function HeadersRefusal(headers: seq<Header>, skipDate: bool, room: nat): Option<Code> {
    if |headers| > MAX_HEADERS then Some(TooLong) else Refusal(PutHeaders(headers, skipDate, room))
  }

  method IsRegenerated(h: Header, skipDate: bool) returns (skip: bool)
    ensures skip == Regenerated(h, skipDate)
  {
    skip := NamesEqual(h.key, LengthName());
    if !skip && skipDate {
      skip := NamesEqual(h.key, "Date");
    }
  }

  function Joined(texts: seq<string>): string {
    if texts == [] then [] else texts[0] + Joined(texts[1..])
  }

  lemma JoinedTwo(a: string, b: string)
    ensures Joined([a, b]) == a + b
  {
    assert [b][1..] == [];
    assert Joined([b]) == b;
    assert [a, b][1..] == [b];
  }

  lemma JoinedMore(a: string, texts: seq<string>)
    ensures Joined([a] + texts) == a + Joined(texts)
  {
    assert ([a] + texts)[1..] == texts;
  }

  lemma JoinedFour(a: string, b: string, c: string, d: string)
    ensures Joined([a, b, c, d]) == a + (b + (c + d))
  {
    hide Joined;
    JoinedTwo(c, d);
    JoinedMore(b, [c, d]);
    JoinedMore(a, [b, c, d]);
    assert [b] + [c, d] == [b, c, d] && [a] + [b, c, d] == [a, b, c, d];
  }

  lemma JoinedSix(a: string, b: string, c: string, d: string, e: string, f: string)
    ensures Joined([a, b, c, d, e, f]) == a + (b + (c + (d + (e + f))))
  {
    hide Joined;
    JoinedFour(c, d, e, f);
    JoinedMore(b, [c, d, e, f]);
    JoinedMore(a, [b, c, d, e, f]);
    assert [b] + [c, d, e, f] == [b, c, d, e, f] && [a] + [b, c, d, e, f] == [a, b, c, d, e, f];
  }

  lemma HeaderPieces(h: Header)
    ensures Joined([h.key, ": ", h.value, CRLF]) == HeaderText(h)
  {
    hide Joined;
    JoinedFour(h.key, ": ", h.value, CRLF);
  }

  lemma BodyPieces(body: string)
    ensures var text := TailText(LengthHeader(body), body);
            if body == [] then Joined([CRLF, body]) == text
            else Joined([LengthName(), ": ", Print(|body|), CRLF, CRLF, body]) == text
  {
    hide Joined, Print, HeaderText, LengthName;
    if body == [] {
      JoinedTwo(CRLF, body);
    } else {
      var h := Header(LengthName(), Print(|body|));
      LengthPieces(h, body);
      assert [h][1..] == [];
      assert HeaderLines([h]) == HeaderText(h);
    }
  }

  lemma LengthPieces(h: Header, body: string)
    ensures Joined([h.key, ": ", h.value, CRLF, CRLF, body]) == HeaderText(h) + (CRLF + body)
  {
    hide Joined;
    JoinedSix(h.key, ": ", h.value, CRLF, CRLF, body);
  }

  lemma RequestLinePieces(verb: string, path: string)
    ensures Joined([verb, " ", path, " ", Version(), CRLF]) == RequestLine(verb, path) + CRLF
  {
    hide Joined;
    JoinedSix(verb, " ", path, " ", Version(), CRLF);
  }

  lemma StatusLinePieces(status: nat, phrase: string)
    ensures Joined([Version(), " ", Print(status), " ", phrase, CRLF]) == StatusLine(status, phrase) + CRLF
  {
    hide Joined, Print;
    JoinedSix(Version(), " ", Print(status), " ", phrase, CRLF);
  }

  lemma ResponseParts(res: Response, date: string)
    requires Reason(res.status).Some?
    ensures StatusLine(res.status, Reason(res.status).value) + CRLF + HeaderText(Header("Date", date))
            + TailText(Emitted(res.headers, true) + LengthHeader(res.body), res.body)
            == ResponseText(res, date)
  {
    hide Emitted, LengthHeader, StatusLine, HeaderText;
    var rest := Emitted(res.headers, true) + LengthHeader(res.body);
    assert ResponseSent(res, date) == [Header("Date", date)] + rest;
    assert ResponseSent(res, date)[1..] == rest;
  }
}
