/** Which byte strings are HTTTP messages: the parsers accept exactly the texts of the grammar, each as the
    one message it is the text of (core/src/libhtttp/htttp.c:117-294). */
module HtttpGrammar {
  import opened Basics
  import opened Htttp

  ghost predicate OneLine(line: string) {
    forall k :: !CrlfAt(line, k)
  }

  /** A header as it can stand in a message: unlike the serializer's, any bytes but NUL and a line break. */
  ghost predicate WireHeader(h: Header) {
    && h.key != [] && ':' !in h.key && '\0' !in h.key && |h.key| < MAX_KEY
    && '\0' !in h.value && |h.value| < MAX_VALUE
    && OneLine(h.key + (": " + h.value))
  }

  ghost predicate WireHeaders(hs: seq<Header>) {
    forall i :: 0 <= i < |hs| ==> WireHeader(hs[i])
  }

  /** The first declared length is the body's; without one there is no body. */
  ghost predicate Framed(hs: seq<Header>, body: string) {
    match Lookup(hs, LengthName())
    case None => body == []
    case Some(text) => Uint(text) == Good(|body|)
  }

  lemma CrlfEnds(line: string, rest: string)
    requires OneLine(line)
    ensures Crlf(line + (CRLF + rest)) == Some(|line|)
  {
    var s := line + (CRLF + rest);
    forall i | 0 <= i < |line| ensures !CrlfAt(s, i) {
      assert !CrlfAt(line, i);
      assert s[i] == line[i];
      assert i + 1 < |line| ==> s[i + 1] == line[i + 1];
      assert i + 1 == |line| ==> s[i + 1] == '\r';
    }
    CrlfIs(s, |line|);
  }

  /** The text before the first CRLF is one line, and the whole is that line, the CRLF and the rest. */
  lemma CutAtCrlf(s: string)
    requires Crlf(s).Some?
    ensures var eol := Crlf(s).value;
            OneLine(s[..eol]) && eol + 2 <= |s| && s == s[..eol] + (CRLF + s[eol + 2..])
  {
    hide Crlf;
    var eol := Crlf(s).value;
    forall k ensures !CrlfAt(s[..eol], k) {
      if 0 <= k < eol {
        assert !CrlfAt(s, k);
      }
    }
    assert CrlfAt(s, eol);
  }

  // --- Header lines -----------------------------------------------------------------------------

  lemma HeaderExact(line: string, count: nat, h: Header)
    requires OneLine(line)
    ensures ReadHeader(line, count) == Good(h) <==>
              WireHeader(h) && count < MAX_HEADERS && line == h.key + (": " + h.value)
  {
    hide OneLine;
    if ReadHeader(line, count) == Good(h) {
      HeaderTaken(line, count, h);
    }
    if WireHeader(h) && count < MAX_HEADERS && line == h.key + (": " + h.value) {
      assert forall i :: 0 <= i < |h.key| ==> line[i] == h.key[i];
      IndexIs(line, ':', |h.key|);
      assert line[..|h.key|] == h.key && line[|h.key| + 2..] == h.value;
    }
  }

  lemma HeaderTaken(line: string, count: nat, h: Header)
    requires OneLine(line) && ReadHeader(line, count) == Good(h)
    ensures WireHeader(h) && count < MAX_HEADERS && line == h.key + (": " + h.value)
  {
    hide OneLine;
    var colon := IndexOf(line, ':');
    assert line[colon] == ':' && line[colon + 1] == ' ';
    assert line == line[..colon] + (": " + line[colon + 2..]);
  }

  // --- Header block and body --------------------------------------------------------------------

  lemma BodyExact(rest: string, hs: seq<Header>, out: (seq<Header>, string))
    ensures ReadBody(rest, hs) == Good(out) <==> out == (hs, rest) && Framed(hs, rest)
  {
    hide Uint, Lookup;
  }

  /** The block is read as headers and a body exactly when it is their text. */
  lemma {:induction false} TailExact(s: string, before: seq<Header>, new_: seq<Header>, body: string)
    requires |before| <= MAX_HEADERS
    ensures ReadTail(s, before) == Good((before + new_, body)) <==>
              && s == TailText(new_, body) && WireHeaders(new_) && |before + new_| <= MAX_HEADERS
              && Framed(before + new_, body)
    decreases |s|
  {
    hide Crlf, ReadHeader, ReadBody, WireHeader, Framed, HeaderText;
    if ReadTail(s, before) == Good((before + new_, body)) {
      TailTaken(s, before, new_, body);
    }
    if s == TailText(new_, body) && WireHeaders(new_) && |before + new_| <= MAX_HEADERS && Framed(before + new_, body) {
      TailGiven(before, new_, body);
    }
  }

  lemma {:induction false} TailTaken(s: string, before: seq<Header>, new_: seq<Header>, body: string)
    requires |before| <= MAX_HEADERS && ReadTail(s, before) == Good((before + new_, body))
    ensures s == TailText(new_, body) && WireHeaders(new_) && |before + new_| <= MAX_HEADERS
    ensures Framed(before + new_, body)
    decreases |s|
  {
    hide Crlf, ReadHeader, ReadBody, WireHeader, WireHeaders, Framed, TailText, HeaderText;
    var eol := Crlf(s).value;
    if eol == 0 {
      EndTaken(s, before, new_, body);
    } else {
      var h := ReadHeader(s[..eol], |before|).value;
      HeaderLineTaken(s, before);
      GrowsFrom(s[eol + 2..], before + [h]);
      assert (before + new_)[..|before| + 1] == before + [h];
      assert (before + new_)[|before|] == h && |new_| > 0;
      var more := new_[1..];
      assert before + new_ == before + [h] + more;
      TailTaken(s[eol + 2..], before + [h], more, body);
      assert new_ == [h] + more;
      TailSplit(new_, body);
      MoreHeaders(h, more);
    }
  }

  lemma MoreHeaders(h: Header, more: seq<Header>)
    requires WireHeader(h) && WireHeaders(more)
    ensures WireHeaders([h] + more)
  {
    hide WireHeader;
  }

  lemma EndTaken(s: string, before: seq<Header>, new_: seq<Header>, body: string)
    requires Crlf(s) == Some(0) && ReadBody(s[2..], before) == Good((before + new_, body))
    ensures new_ == [] && s == TailText(new_, body) && WireHeaders(new_) && before + new_ == before
    ensures Framed(before + new_, body)
  {
    hide Crlf, ReadBody, WireHeader, Framed;
    CutAtCrlf(s);
    BodyExact(s[2..], before, (before + new_, body));
    assert |before + new_| == |before|;
    assert s == [] + (CRLF + body);
  }

  lemma HeaderLineTaken(s: string, before: seq<Header>)
    requires Crlf(s).Some? && ReadHeader(s[..Crlf(s).value], |before|).Good?
    ensures var h := ReadHeader(s[..Crlf(s).value], |before|).value;
            WireHeader(h) && |before| < MAX_HEADERS && s == HeaderText(h) + s[Crlf(s).value + 2..]
  {
    hide Crlf, ReadHeader, WireHeader, OneLine;
    var eol := Crlf(s).value;
    CutAtCrlf(s);
    HeaderExact(s[..eol], |before|, ReadHeader(s[..eol], |before|).value);
  }

  /** What is read always starts with what was read before. */
  lemma {:induction false} GrowsFrom(s: string, before: seq<Header>)
    ensures ReadTail(s, before).Good? ==>
              |before| <= |ReadTail(s, before).value.0| && ReadTail(s, before).value.0[..|before|] == before
    decreases |s|
  {
    hide Crlf, ReadHeader, Uint, Lookup;
    if Crlf(s).Some? && Crlf(s).value != 0 && ReadHeader(s[..Crlf(s).value], |before|).Good? {
      var eol := Crlf(s).value;
      var h := ReadHeader(s[..eol], |before|).value;
      GrowsFrom(s[eol + 2..], before + [h]);
      var r := ReadTail(s[eol + 2..], before + [h]);
      if r.Good? {
        assert r.value.0[..|before|] == r.value.0[..|before| + 1][..|before|];
      }
    }
  }

  lemma {:induction false} TailGiven(before: seq<Header>, new_: seq<Header>, body: string)
    requires WireHeaders(new_) && |before + new_| <= MAX_HEADERS && Framed(before + new_, body)
    ensures ReadTail(TailText(new_, body), before) == Good((before + new_, body))
    decreases |new_|
  {
    hide Crlf, ReadHeader, ReadBody, WireHeader, Framed, TailText, HeaderText, ReadTail;
    if new_ == [] {
      assert before + new_ == before;
      TailEnd(body, before);
      BodyExact(body, before, (before, body));
    } else {
      var h, more := new_[0], new_[1..];
      assert before + [h] + more == before + new_;
      TailSplit(new_, body);
      NextHeader(h, TailText(more, body), before);
      TailGiven(before + [h], more, body);
    }
  }

  lemma NextHeader(h: Header, rest: string, before: seq<Header>)
    requires WireHeader(h) && |before| < MAX_HEADERS
    ensures ReadTail(HeaderText(h) + rest, before) == ReadTail(rest, before + [h])
  {
    hide ReadHeader, Crlf;
    var line := h.key + (": " + h.value);
    var s := HeaderText(h) + rest;
    assert s == line + (CRLF + rest);
    CrlfEnds(line, rest);
    assert s[..|line|] == line && s[|line| + 2..] == rest;
    HeaderExact(line, |before|, h);
  }

  // --- Requests ---------------------------------------------------------------------------------

  ghost predicate Word(w: string, cap: nat) {
    w != [] && ' ' !in w && '\0' !in w && |w| < cap
  }

  ghost predicate WireRequest(req: Request) {
    && Word(req.verb, MAX_METHOD) && Word(req.path, MAX_PATH) && OneLine(RequestLine(req.verb, req.path))
    && WireHeaders(req.headers) && |req.headers| <= MAX_HEADERS && Framed(req.headers, req.body)
  }

  /** The text of a request, its headers as they are. */
  function WireText(req: Request): string {
    RequestLine(req.verb, req.path) + (CRLF + TailText(req.headers, req.body))
  }

  lemma RequestLineExact(line: string, verb: string, path: string)
    ensures ReadRequestLine(line) == Good((verb, path)) <==>
              Word(verb, MAX_METHOD) && Word(path, MAX_PATH) && line == RequestLine(verb, path)
  {
    hide IndexOf, Version;
    if ReadRequestLine(line) == Good((verb, path)) {
      RequestLineTaken(line, verb, path);
    }
    if Word(verb, MAX_METHOD) && Word(path, MAX_PATH) && line == RequestLine(verb, path) {
      var rest := path + (" " + Version());
      SplitAtSpace(verb, rest);
      SplitAtSpace(path, Version());
      assert line == verb + (" " + rest);
    }
  }

  lemma RequestLineTaken(line: string, verb: string, path: string)
    requires ReadRequestLine(line) == Good((verb, path))
    ensures Word(verb, MAX_METHOD) && Word(path, MAX_PATH) && line == RequestLine(verb, path)
  {
    hide IndexOf, Version, Token, Word;
    var sp1 := IndexOf(line, ' ');
    var rest := line[sp1 + 1..];
    FirstWord(line, MAX_METHOD, sp1, verb, rest);
    FirstWord(rest, MAX_PATH, IndexOf(rest, ' '), path, Version());
  }

  lemma FirstWord(s: string, cap: nat, sp: nat, word: string, rest: string)
    requires sp == IndexOf(s, ' ') && 0 < sp < |s| && word == s[..sp] && rest == s[sp + 1..] && Token(word, cap).Good?
    ensures Word(word, cap) && s == word + (" " + rest)
  {
    hide IndexOf;
    NoSpaceBefore(s, sp);
    CutAtSpace(s, sp);
  }

  lemma NoSpaceBefore(s: string, sp: nat)
    requires sp == IndexOf(s, ' ')
    ensures ' ' !in s[..sp] && (sp < |s| ==> s[sp] == ' ')
  {
    hide IndexOf;
  }

  /** A byte string is read as this request exactly when it is this request's text: the parser takes every
      text of the grammar, nothing else, and each as the one request it stands for. */
  lemma RequestExact(s: string, req: Request)
    ensures ParseRequest(s) == Good(req) <==> s == WireText(req) && WireRequest(req)
  {
    hide Crlf, ReadRequestLine, ReadTail, RequestLine, TailText, WireHeaders, Framed, OneLine, Word;
    if ParseRequest(s) == Good(req) {
      var eol := Crlf(s).value;
      CutAtCrlf(s);
      RequestLineExact(s[..eol], req.verb, req.path);
      assert [] + req.headers == req.headers;
      TailExact(s[eol + 2..], [], req.headers, req.body);
    }
    if s == WireText(req) && WireRequest(req) {
      var line, tail := RequestLine(req.verb, req.path), TailText(req.headers, req.body);
      CrlfEnds(line, tail);
      assert s[..|line|] == line && s[|line| + 2..] == tail;
      RequestLineExact(line, req.verb, req.path);
      assert [] + req.headers == req.headers;
      TailExact(tail, [], req.headers, req.body);
    }
  }

  // --- Responses --------------------------------------------------------------------------------

  /** A status line: any decimal text of the status, and any reason at all. */
  function AnyStatusLine(digits: string, reason: string): string {
    Version() + (" " + (digits + (" " + reason)))
  }

  ghost predicate StatusText(digits: string, status: int) {
    ' ' !in digits && 100 <= status <= 599 && Uint(digits) == Good(status)
  }

  lemma StatusLineExact(line: string, status: int)
    ensures ReadStatusLine(line) == Good(status) <==>
              exists digits, reason :: StatusText(digits, status) && line == AnyStatusLine(digits, reason)
  {
    hide ReadStatusLine, StatusText, AnyStatusLine;
    if ReadStatusLine(line) == Good(status) {
      StatusLineTaken(line, status);
    }
    if exists digits, reason :: StatusText(digits, status) && line == AnyStatusLine(digits, reason) {
      var digits, reason :| StatusText(digits, status) && line == AnyStatusLine(digits, reason);
      StatusLineGiven(digits, reason, status);
    }
  }

  lemma StatusLineTaken(line: string, status: int)
    requires ReadStatusLine(line) == Good(status)
    ensures exists digits, reason :: StatusText(digits, status) && line == AnyStatusLine(digits, reason)
  {
    hide IndexOf, Uint, Version;
    var rest := line[|Version()| + 1..];
    var sp := IndexOf(rest, ' ');
    CutAtSpace(rest, sp);
    assert line == Version() + (" " + rest);
    assert StatusText(rest[..sp], status) && line == AnyStatusLine(rest[..sp], rest[sp + 1..]);
  }

  lemma CutAtSpace(s: string, k: nat)
    requires k < |s| && s[k] == ' '
    ensures s == s[..k] + (" " + s[k + 1..])
  {
  }

  lemma StatusLineGiven(digits: string, reason: string, status: int)
    requires StatusText(digits, status)
    ensures ReadStatusLine(AnyStatusLine(digits, reason)) == Good(status)
  {
    hide IndexOf, Uint, Version;
    var line, rest, fixed := AnyStatusLine(digits, reason), digits + (" " + reason), |Version()|;
    assert line == Version() + (" " + rest);
    assert line[..fixed] == Version() && line[fixed] == ' ' && line[fixed + 1..] == rest;
    SplitAtSpace(digits, reason);
    assert digits != [] by { NothingIsNoNumber(); }
  }

  lemma NothingIsNoNumber()
    ensures Uint([]) == Refused(Malformed)
  {
  }

  ghost predicate WireResponse(s: string, res: Response, digits: string, reason: string) {
    && StatusText(digits, res.status) && OneLine(AnyStatusLine(digits, reason))
    && s == AnyStatusLine(digits, reason) + (CRLF + TailText(res.headers, res.body))
    && WireHeaders(res.headers) && |res.headers| <= MAX_HEADERS && Framed(res.headers, res.body)
  }

  /** The same for responses; the reason is not kept, so any will do. */
  lemma ResponseExact(s: string, res: Response)
    ensures ParseResponse(s) == Good(res) <==> exists digits, reason :: WireResponse(s, res, digits, reason)
  {
    hide Crlf, ReadStatusLine, ReadTail, AnyStatusLine, TailText, WireHeaders, Framed, OneLine, StatusText;
    assert [] + res.headers == res.headers;
    if ParseResponse(s) == Good(res) {
      var eol := Crlf(s).value;
      CutAtCrlf(s);
      StatusLineExact(s[..eol], res.status);
      TailExact(s[eol + 2..], [], res.headers, res.body);
      var digits, reason :| StatusText(digits, res.status) && s[..eol] == AnyStatusLine(digits, reason);
      assert WireResponse(s, res, digits, reason);
    }
    if exists digits, reason :: WireResponse(s, res, digits, reason) {
      var digits, reason :| WireResponse(s, res, digits, reason);
      var line, tail := AnyStatusLine(digits, reason), TailText(res.headers, res.body);
      CrlfEnds(line, tail);
      assert s[..|line|] == line && s[|line| + 2..] == tail;
      StatusLineExact(line, res.status);
      TailExact(tail, [], res.headers, res.body);
    }
  }
}
