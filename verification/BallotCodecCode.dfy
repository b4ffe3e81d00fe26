/**
 * The codec's own loops (ballotbox/src/libballotclient/codec.c:109-410): the body cursor, the line
 * walk with its callback, the hex loops, and the two request functions built from them.
 */
module BallotCodecCode {
  import opened Basics
  import opened Htttp
  import opened HtttpLaws
  import opened HtttpCode
  import Receipts
  import opened BallotCodec
  import opened BallotTrip

  // --- Hex --------------------------------------------------------------------------------------

  method HexEncode(payload: seq<int>) returns (hex: string)
    requires IsBytes(payload)
    ensures hex == Hex(payload)
  {
    hex := [];
    var i := 0;
    assert payload[0..] == payload;
    while i < |payload|
      invariant 0 <= i <= |payload|
      invariant hex + Hex(payload[i..]) == Hex(payload)
    {
      hex := hex + [Receipts.HexDigit(payload[i] / 16), Receipts.HexDigit(payload[i] % 16)];
      assert payload[i..][1..] == payload[i + 1..];
      i := i + 1;
    }
  }

  /** Bytes go into the output as their pairs are read, so a refusal can come after some are there. */
  method HexDecode(hex: string, out: array<int>) returns (len: Option<nat>)
    modifies out
    ensures out[..] == Over(old(out[..]), HexWritten(hex, out.Length))
    ensures match Unhex(hex, out.Length)
            case None => len == None
            case Some(payload) => len == Some(|payload|)
  {
    hide Nibble, Unhex, GoodPairs, Over, SoFar;
    UnhexWritten(hex, out.Length);
    OverNothing(out[..]);
    var n := |hex| / 2;
    if |hex| % 2 != 0 || n > out.Length {
      return None;
    }
    ghost var was, all := out[..], GoodPairs(hex);
    var i := 0;
    NoneYet(hex);
    while i < n
      invariant 0 <= i <= n && 2 * n == |hex| && n <= out.Length && i <= |all|
      invariant SoFar(hex, i, all) && out[..] == Over(was, all[..i])
    {
      var hi, lo := Nibble(hex[2 * i]), Nibble(hex[2 * i + 1]);
      PairRead(hex, i, all);
      if hi == None || lo == None {
        return None;
      }
      OverMore(was, all[..i], all[i]);
      ghost var before := out[..];
      out[i] := 16 * hi.value + lo.value;
      assert out[..] == before[i := all[i]];
      i := i + 1;
    }
    AllRead(hex, all);
    return Some(n);
  }

  /** The first i pairs are good, and the rest of the bytes are those of the rest of the text. */
  ghost predicate SoFar(hex: string, i: nat, all: seq<int>)
    requires 2 * i <= |hex| && i <= |all|
  {
    all[..i] + GoodPairs(hex[2 * i..]) == all
  }

  lemma NoneYet(hex: string)
    ensures SoFar(hex, 0, GoodPairs(hex)) && GoodPairs(hex)[..0] == []
  {
    assert hex[0..] == hex;
  }

  lemma PairRead(hex: string, i: nat, all: seq<int>)
    requires 2 * i + 1 < |hex| && i <= |all| && SoFar(hex, i, all)
    ensures var hi, lo := Nibble(hex[2 * i]), Nibble(hex[2 * i + 1]);
            if hi.None? || lo.None? then all[..i] == all && |all| == i
            else
              && i < |all| && all[i] == 16 * hi.value + lo.value && all[..i + 1] == all[..i] + [all[i]]
              && SoFar(hex, i + 1, all)
  {
    hide Nibble;
    assert hex[2 * i..][2..] == hex[2 * (i + 1)..];
    var hi, lo := Nibble(hex[2 * i]), Nibble(hex[2 * i + 1]);
    if hi.Some? && lo.Some? {
      var rest := GoodPairs(hex[2 * (i + 1)..]);
      assert all == all[..i] + ([16 * hi.value + lo.value] + rest);
      assert all[..i + 1] + rest == all;
    }
  }

  lemma AllRead(hex: string, all: seq<int>)
    requires |hex| % 2 == 0 && |hex| / 2 <= |all| && SoFar(hex, |hex| / 2, all)
    ensures all[..|hex| / 2] == all && |all| == |hex| / 2
  {
    assert hex[|hex|..] == [];
  }

  lemma OverNothing(buf: seq<int>)
    ensures Over(buf, []) == buf
  {
  }

  lemma OverMore(buf: seq<int>, bytes: seq<int>, byte: int)
    requires |bytes| < |buf|
    ensures Over(buf, bytes + [byte]) == Over(buf, bytes)[|bytes| := byte]
  {
  }

  // --- The body writer --------------------------------------------------------------------------

  /** A line break that is not the line's own end. */
  predicate Broken(line: string) {
    '\r' in line || exists i :: 0 <= i < |line| - 1 && line[i] == '\n'
  }

  class Body {
    const buf: array<char>
    var off: nat

    ghost predicate Valid()
      reads this
    {
      buf.Length == BODY_MAX && off < BODY_MAX
    }

    ghost function Text(): string
      requires Valid()
      reads this, buf
    {
      buf[..off]
    }

    constructor ()
      ensures Valid() && fresh(buf) && Text() == []
    {
      buf := new char[BODY_MAX];
      off := 0;
    }

    /** Refused text may already lie behind the cursor, but the cursor has not moved over it. */
    method Append(line: string) returns (ok: bool)
      requires Valid()
      modifies this, buf
      ensures Valid()
      ensures ok <==> |old(Text()) + line| < BODY_MAX && !Broken(line)
      ensures Text() == if ok then old(Text()) + line else old(Text())
    {
      Print(line);
      if |line| >= BODY_MAX - off {
        return false;
      }
      assert buf[off..off + |line|] == line;
      var i := 0;
      while i < |line|
        invariant 0 <= i <= |line|
        invariant '\r' !in line[..i] && forall k :: 0 <= k < i && k < |line| - 1 ==> line[k] != '\n'
      {
        var c := buf[off + i];
        assert c == line[i];
        if c == '\r' || (c == '\n' && i != |line| - 1) {
          return false;
        }
        assert line[..i + 1] == line[..i] + [line[i]];
        i := i + 1;
      }
      assert line[..|line|] == line;
      off := off + |line|;
      return true;
    }

    /** As much of the text as fits, at the cursor. */
    method Print(text: string)
      requires Valid()
      modifies buf
      ensures Valid() && Text() == old(Text())
      ensures off + |text| <= BODY_MAX ==> buf[off..off + |text|] == text
    {
      var i := 0;
      while i < |text| && off + i < BODY_MAX
        invariant 0 <= i <= |text| && off + i <= BODY_MAX
        invariant buf[off..off + i] == text[..i]
        invariant buf[..off] == old(buf[..off])
      {
        buf[off + i] := text[i];
        assert buf[off..off + i + 1] == buf[off..off + i] + [text[i]];
        assert text[..i + 1] == text[..i] + [text[i]];
        i := i + 1;
      }
      assert text[..|text|] == text;
    }

    /** One "key=value" line. */
    method Put(key: string, value: string) returns (ok: bool)
      requires Valid() && Clean(key)
      modifies this, buf
      ensures Valid()
      ensures ok <==> |old(Text()) + LineText(key, value)| < BODY_MAX && Clean(value)
      ensures Text() == if ok then old(Text()) + LineText(key, value) else old(Text())
    {
      BrokenLine(key, value);
      ok := Append(LineText(key, value));
    }

    /** A line for each value, under the same key. */
    method PutAll(key: string, values: seq<string>) returns (ok: bool)
      requires Valid() && Clean(key)
      modifies this, buf
      ensures Valid()
      ensures ok <==> Writable(old(Text()), Keyed(key, values))
      ensures ok ==> Text() == old(Text()) + BodyText(Keyed(key, values))
    {
      hide LineText, Clean;
      var i := 0;
      ghost var start := Text();
      ghost var pairs := Keyed(key, values);
      assert values[0..] == values;
      while i < |values|
        invariant 0 <= i <= |values| && Valid()
        invariant Text() + BodyText(Keyed(key, values[i..])) == start + BodyText(pairs)
        invariant Writable(start, pairs) == Writable(Text(), Keyed(key, values[i..]))
      {
        ghost var rest := Keyed(key, values[i + 1..]);
        assert values[i..][1..] == values[i + 1..];
        assert Keyed(key, values[i..]) == [(key, values[i])] + rest;
        WritableStep(Text(), key, values[i], rest);
        ok := Put(key, values[i]);
        if !ok {
          return;
        }
        i := i + 1;
      }
      ok := true;
    }
  }

  lemma BrokenLine(key: string, value: string)
    requires Clean(key)
    ensures Broken(LineText(key, value)) <==> !Clean(value)
  {
    var line := LineText(key, value);
    forall i | 0 <= i < |value| ensures line[|key| + 1 + i] == value[i] {
    }
    forall i | 0 <= i < |line|
      ensures line[i] == if i < |key| then key[i] else if i == |key| then '='
                         else if i < |line| - 1 then value[i - |key| - 1] else '\n'
    {
    }
    if '\n' in value {
      var i :| 0 <= i < |value| && value[i] == '\n';
      assert line[|key| + 1 + i] == '\n';
    }
  }

  /** Lines that can be written behind this text. */
  ghost predicate Writable(text: string, pairs: seq<(string, string)>) {
    (forall i :: 0 <= i < |pairs| ==> Clean(pairs[i].1)) && |text| + |BodyText(pairs)| < BODY_MAX
  }

  lemma WritableStep(text: string, key: string, value: string, rest: seq<(string, string)>)
    requires |text| < BODY_MAX
    ensures var pairs := [(key, value)] + rest;
            && BodyText(pairs) == LineText(key, value) + BodyText(rest)
            && (Writable(text, pairs) ==> Clean(value) && |text + LineText(key, value)| < BODY_MAX)
            && (Clean(value) ==> Writable(text, pairs) == Writable(text + LineText(key, value), rest))
  {
    hide LineText, Clean;
    var pairs := [(key, value)] + rest;
    assert pairs[1..] == rest && pairs[0] == (key, value);
    assert forall i :: 0 <= i < |rest| ==> rest[i] == pairs[i + 1];
  }

  lemma {:induction false} WritableConcat(text: string, a: seq<(string, string)>, b: seq<(string, string)>)
    requires |text| < BODY_MAX
    ensures BodyText(a + b) == BodyText(a) + BodyText(b)
    ensures Writable(text, a + b) <==> Writable(text, a) && Writable(text + BodyText(a), b)
    decreases |a|
  {
    hide LineText, Clean;
    if a == [] {
      assert a + b == b && text + BodyText(a) == text;
    } else {
      assert (a + b)[1..] == a[1..] + b;
      BodyTextConcat(a, b);
      assert forall i :: 0 <= i < |a| ==> a[i] == (a + b)[i];
      assert forall i :: 0 <= i < |b| ==> b[i] == (a + b)[|a| + i];
    }
  }

  lemma {:induction false} BodyTextConcat(a: seq<(string, string)>, b: seq<(string, string)>)
    ensures BodyText(a + b) == BodyText(a) + BodyText(b)
    decreases |a|
  {
    hide LineText;
    if a == [] {
      assert a + b == b;
    } else {
      assert (a + b)[1..] == a[1..] + b;
      BodyTextConcat(a[1..], b);
    }
  }

  // --- The body reader --------------------------------------------------------------------------

  /** Calls f on every line's pair in order, threading its context. */
  method ForEach<C>(body: string, f: (C, string, string) -> C, start: C) returns (c: C)
    ensures c == Fold(f, start, ReadPairs(body))
  {
    hide PairsOfLine, IndexOf;
    c := start;
    var p := 0;
    assert body[0..] == body;
    while p < |body|
      invariant 0 <= p <= |body|
      invariant Fold(f, start, ReadPairs(body)) == Fold(f, c, ReadPairs(body[p..]))
    {
      var nl := FindByte(body, p, |body|, '\n');
      assert body[p..|body|] == body[p..];
      assert body[p..][..nl - p] == body[p..nl];
      var next := if nl < |body| then nl + 1 else |body|;
      assert nl < |body| ==> body[p..][nl - p + 1..] == body[next..];
      assert nl == |body| ==> body[next..] == [];
      var pair := LinePair(body, p, nl);
      FoldConcat(f, c, PairsOfLine(body[p..nl]), ReadPairs(body[next..]));
      if pair.Some? {
        FoldOne(f, c, pair.value.0, pair.value.1);
        c := f(c, pair.value.0, pair.value.1);
      }
      p := next;
    }
  }

  /** The key and value in [p, nl), if that line has them. */
  method LinePair(body: string, p: nat, nl: nat) returns (pair: Option<(string, string)>)
    requires p <= nl <= |body|
    ensures PairsOfLine(body[p..nl]) == if pair.Some? then [pair.value] else []
  {
    hide IndexOf, CStr, Cut, PairsOfLine, WithoutCr;
    var end := TrimmedEnd(body, p, nl);
    var eq := FindByte(body, p, end, '=');
    PairsOfText(body[p..nl], eq - p);
    if eq == p || eq >= end {
      return None;
    }
    Subrange(body, p, end, 0, eq - p);
    Subrange(body, p, end, eq - p + 1, end - p);
    var key := Copied(body, p, eq, KEY_CAP);
    var value := Copied(body, eq + 1, end, VALUE_CAP);
    return Some((CStr(key), CStr(value)));
  }

  lemma PairsOfText(line: string, eq: nat)
    requires eq == IndexOf(WithoutCr(line), '=')
    ensures var text := WithoutCr(line);
            PairsOfLine(line)
            == if eq == 0 || eq >= |text| then []
               else [(CStr(Cut(text[..eq], KEY_CAP - 1)), CStr(Cut(text[eq + 1..], VALUE_CAP - 1)))]
  {
    hide IndexOf, CStr, Cut, WithoutCr;
  }

  lemma Subrange(s: string, p: nat, q: nat, i: nat, j: nat)
    requires p <= q <= |s| && i <= j <= q - p
    ensures s[p..q][i..j] == s[p + i..p + j]
  {
    var a, b := s[p..q][i..j], s[p + i..p + j];
    assert |a| == |b|;
    forall k | 0 <= k < |a| ensures a[k] == b[k] {
      assert a[k] == s[p..q][i + k];
    }
  }

  method TrimmedEnd(body: string, p: nat, nl: nat) returns (end: nat)
    requires p <= nl <= |body|
    ensures p <= end <= nl && body[p..end] == WithoutCr(body[p..nl])
  {
    end := nl;
    if end > p && body[end - 1] == '\r' {
      Subrange(body, p, nl, 0, nl - p - 1);
      end := end - 1;
    }
  }

  /** As much of [from, to) as a buffer of this size holds with its terminator. */
  method Copied(body: string, from: nat, to: nat, size: nat) returns (text: string)
    requires from <= to <= |body| && size > 0
    ensures text == Cut(body[from..to], size - 1)
  {
    var n := if to - from >= size then size - 1 else to - from;
    Subrange(body, from, to, 0, n);
    text := body[from..from + n];
  }

  // --- Requests ---------------------------------------------------------------------------------

  /** The lines still to be written behind this text to make the whole body. */
  ghost predicate Pending(text: string, rest: seq<(string, string)>, whole: seq<(string, string)>) {
    text + BodyText(rest) == BodyText(whole) && (Writable([], whole) <==> Writable(text, rest))
  }

  lemma PendingStep(text: string, pairs: seq<(string, string)>, rest: seq<(string, string)>,
                    whole: seq<(string, string)>)
    requires |text| < BODY_MAX && Pending(text, pairs + rest, whole)
    ensures Writable([], whole) ==> Writable(text, pairs)
    ensures Writable(text, pairs) ==> Pending(text + BodyText(pairs), rest, whole)
  {
    hide Writable, BodyText;
    WritableConcat(text, pairs, rest);
    assert text + (BodyText(pairs) + BodyText(rest)) == text + BodyText(pairs) + BodyText(rest);
  }

  lemma OnePair(text: string, key: string, value: string)
    ensures BodyText([(key, value)]) == LineText(key, value)
    ensures Writable(text, [(key, value)]) <==> |text + LineText(key, value)| < BODY_MAX && Clean(value)
  {
    hide LineText, Clean;
    assert [(key, value)][1..] == [];
  }

  /** One line of a body under way. */
  method PutNext(body: Body, key: string, value: string, ghost rest: seq<(string, string)>,
                 ghost whole: seq<(string, string)>)
    returns (ok: bool)
    requires body.Valid() && Clean(key) && Pending(body.Text(), [(key, value)] + rest, whole)
    modifies body, body.buf
    ensures body.Valid()
    ensures ok ==> Pending(body.Text(), rest, whole)
    ensures !ok ==> !Writable([], whole)
  {
    hide Writable, BodyText, LineText, Clean, Pending;
    OnePair(body.Text(), key, value);
    PendingStep(body.Text(), [(key, value)], rest, whole);
    ok := body.Put(key, value);
  }

  method PutMany(body: Body, key: string, values: seq<string>, ghost rest: seq<(string, string)>,
                 ghost whole: seq<(string, string)>)
    returns (ok: bool)
    requires body.Valid() && Clean(key) && Pending(body.Text(), Keyed(key, values) + rest, whole)
    modifies body, body.buf
    ensures body.Valid()
    ensures ok ==> Pending(body.Text(), rest, whole)
    ensures !ok ==> !Writable([], whole)
  {
    hide Writable, BodyText, Pending, Keyed, Clean;
    PendingStep(body.Text(), Keyed(key, values), rest, whole);
    ok := body.PutAll(key, values);
  }

  ghost predicate Done(ok: bool, text: string, whole: seq<(string, string)>) {
    ok == Writable([], whole) && (ok ==> text == BodyText(whole))
  }

  lemma DoneWhen(text: string, whole: seq<(string, string)>)
    requires Pending(text, [], whole) && |text| < BODY_MAX
    ensures Done(true, text, whole)
  {
    assert text + BodyText([]) == text;
  }

  lemma NothingDone(whole: seq<(string, string)>)
    ensures Pending([], whole, whole)
  {
    assert [] + BodyText(whole) == BodyText(whole);
  }

  lemma ConfigShape(c: Config)
    ensures ConfigPairs(c)
            == [("title", c.title)] + ([("open_time", c.openTime)] + ([("close_time", c.closeTime)]
               + (Keyed("option", c.options) + (Keyed("eligible", c.eligible) + []))))
  {
    hide Keyed;
  }

  method PutConfig(body: Body, c: Config, ghost whole: seq<(string, string)>) returns (ok: bool)
    requires body.Valid() && Pending(body.Text(), ConfigPairs(c), whole)
    modifies body, body.buf
    ensures body.Valid() && Done(ok, body.Text(), whole)
  {
    hide Pending, Writable, Keyed, ConfigPairs, BodyText;
    ConfigShape(c);
    ghost var r5 := Keyed("eligible", c.eligible) + [];
    ghost var r4 := Keyed("option", c.options) + r5;
    ghost var r3 := [("close_time", c.closeTime)] + r4;
    ghost var r2 := [("open_time", c.openTime)] + r3;
    ok := PutNext(body, "title", c.title, r2, whole);
    if !ok { return; }
    ok := PutNext(body, "open_time", c.openTime, r3, whole);
    if !ok { return; }
    ok := PutNext(body, "close_time", c.closeTime, r4, whole);
    if !ok { return; }
    ok := PutMany(body, "option", c.options, r5, whole);
    if !ok { return; }
    ok := PutMany(body, "eligible", c.eligible, [], whole);
    if !ok { return; }
    DoneWhen(body.Text(), whole);
  }

  method PutCreate(body: Body, call: Call) returns (ok: bool)
    requires body.Valid() && body.Text() == []
    modifies body, body.buf
    ensures body.Valid() && Done(ok, body.Text(), CreatePairs(call))
  {
    hide Pending, Writable, ConfigPairs, BodyText;
    ghost var whole := CreatePairs(call);
    NothingDone(whole);
    if call.election != [] {
      ok := PutNext(body, "election_id", call.election, ConfigPairs(call.config), whole);
      if !ok { return; }
    } else {
      assert whole == ConfigPairs(call.config);
    }
    ok := PutConfig(body, call.config, whole);
  }

  method PutBallot(body: Body, b: Ballot) returns (ok: bool)
    requires body.Valid() && body.Text() == [] && IsBytes(b.payload)
    modifies body, body.buf
    ensures body.Valid()
    ensures |b.payload| <= CIPHERTEXT_MAX ==> Done(ok, body.Text(), BallotPairs(b))
    ensures |b.payload| > CIPHERTEXT_MAX ==> !ok
  {
    hide Pending, Writable, BodyText, Hex;
    ghost var whole := BallotPairs(b);
    ghost var last := [("payload", Hex(b.payload))];
    NothingDone(whole);
    assert whole == [("nonce", b.nonce)] + last;
    ok := PutNext(body, "nonce", b.nonce, last, whole);
    if !ok { return; }
    if |b.payload| > CIPHERTEXT_MAX {
      return false;
    }
    var hex := HexEncode(b.payload);
    assert last == [("payload", hex)] + [];
    ok := PutNext(body, "payload", hex, [], whole);
    if !ok { return; }
    DoneWhen(body.Text(), whole);
  }

  method PutHash(body: Body, hash: string) returns (ok: bool)
    requires body.Valid() && body.Text() == []
    modifies body, body.buf
    ensures body.Valid() && Done(ok, body.Text(), [("hash", hash)])
  {
    hide Pending, Writable, BodyText;
    ghost var whole := [("hash", hash)];
    NothingDone(whole);
    assert whole == whole + [];
    ok := PutNext(body, "hash", hash, [], whole);
    if !ok { return; }
    DoneWhen(body.Text(), whole);
  }

  /** The body of a call's message; None when a field cannot go into it. */
  method EncodeBody(call: Call) returns (text: Option<string>)
    requires IsBytes(call.ballot.payload)
    ensures text.Some? <==>
              && (CarriesBallot(call.op) ==> |call.ballot.payload| <= CIPHERTEXT_MAX)
              && BodyFits(CallPairs(call))
    ensures text.Some? ==> text.value == BodyText(CallPairs(call))
  {
    hide BodyText, CreatePairs, BallotPairs;
    var body := new Body();
    var ok := true;
    if call.op.Create? {
      ok := PutCreate(body, call);
    } else if CarriesBallot(call.op) {
      ok := PutBallot(body, call.ballot);
    } else if CarriesHash(call.op) {
      ok := PutHash(body, call.hash);
    } else {
      NothingWritten();
    }
    if !ok {
      return None;
    }
    return Some(body.buf[..body.off]);
  }

  lemma NothingWritten()
    ensures BodyText([]) == []
  {
  }

  /** Succeeds exactly when the call's message can be built, printed, and fits. */
  method EncodeRequest(call: Call, output: Output) returns (ok: bool)
    requires CallHeld(call) && output.Valid() && output.off == 0
    modifies output, output.out
    ensures output.Valid()
    ensures ok <==> Encodes(call) && |RequestText(HttpOf(call).value)| <= output.cap
    ensures ok ==> output.Written() == RequestText(HttpOf(call).value)
  {
    hide CallPairs, BodyFits, ConfigHeld, PathOf, MethodName, RequestText, Printable, ValidField, PutRequest, BodyText;
    var body := EncodeBody(call);
    if body == None {
      return false;
    }
    var headers := [];
    if call.cert != [] {
      assert GoodHeader(Header(CertName(), call.cert)) == ValidField(call.cert, true) by { CertIsName(call.cert); }
      var added := HeaderSet(headers, CertName(), call.cert);
      if added.Refused? {
        return false;
      }
      headers := added.value;
    }
    assert call.cert == [] ==> ValidField(call.cert, true) by { NothingIsValid(); }
    var http := Request(MethodName(call.op), PathOf(call), headers, body.value);
    assert headers == CertHeader(call.cert);
    assert HttpOf(call) == Some(http);
    RequestFits(http, output.cap);
    var refused := output.SerializeRequest(http);
    ok := refused == None;
  }

  lemma CertIsName(cert: string)
    ensures GoodHeader(Header(CertName(), cert)) == ValidField(cert, true)
  {
  }

  lemma NothingIsValid()
    ensures ValidField([], true)
  {
  }

  method OpFromMethod(name: string) returns (op: Option<Op>)
    ensures op == OpNamed(name)
  {
    hide MethodName;
    var ops, i := Ops(), 0;
    assert ops[0..] == ops;
    while i < |ops|
      invariant 0 <= i <= |ops|
      invariant OpNamed(name) == OpAmong(ops[i..], name)
    {
      if MethodName(ops[i]) == name {
        return Some(ops[i]);
      }
      assert ops[i..][1..] == ops[i + 1..];
      i := i + 1;
    }
    return None;
  }

  method DecodeRequest(http: Request) returns (call: Option<Call>)
    ensures call == Decode(http)
  {
    hide OpNamed, Fold, ReadPairs, PathId, Lookup, CreateKv, BallotKv, HashKv;
    var op := OpFromMethod(http.verb);
    if op == None {
      return None;
    }
    var found := HeaderGet(http.headers, CertName());
    var cert := if found.Some? then Cut(found.value, CERT_LEN - 1) else "";
    var req := Blank(op.value, cert);
    if op.value.Create? {
      var c := ForEach(http.body, CreateKv, ("", NoConfig()));
      return Some(req.(election := c.0, config := c.1));
    }
    if op.value.AdminNextId? {
      return Some(req);
    }
    var id := PathId(http.path);
    if id == None {
      return None;
    }
    req := req.(election := id.value);
    if CarriesBallot(op.value) {
      var c := ForEach(http.body, BallotKv, EMPTY_FILLING);
      return if c.got then Some(req.(ballot := Filled(c, cert))) else None;
    }
    if CarriesHash(op.value) {
      var hash := ForEach(http.body, HashKv, "");
      return if hash == [] then None else Some(req.(hash := hash));
    }
    return Some(req);
  }
}
