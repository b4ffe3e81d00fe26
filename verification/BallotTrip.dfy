/** What the daemon decodes from a client's encoded call, for every call that can be encoded. */
module BallotTrip {
  import opened Basics
  import opened Decimal
  import opened Htttp
  import opened BallotCodec
  import BallotStore

  /** A C string that an array of this size can hold. */
  predicate Text(s: string, size: nat) {
    |s| < size && '\0' !in s
  }

  predicate Texts(all: seq<string>, size: nat) {
    forall i :: 0 <= i < |all| ==> Text(all[i], size)
  }

  predicate ConfigHeld(c: Config) {
    && Text(c.title, TITLE_LEN) && Text(c.openTime, TIME_LEN) && Text(c.closeTime, TIME_LEN)
    && |c.options| <= MAX_OPTIONS && Texts(c.options, OPTION_LEN)
    && |c.eligible| <= MAX_VOTERS && Texts(c.eligible, CERT_LEN)
  }

  predicate BallotHeld(b: Ballot) {
    Text(b.cert, CERT_LEN) && Text(b.nonce, NONCE_LEN) && IsBytes(b.payload)
  }

  /** Every field within its array. */
  predicate CallHeld(call: Call) {
    && Text(call.cert, CERT_LEN) && Text(call.election, ID_LEN) && Text(call.hash, HASH_LEN)
    && ConfigHeld(call.config) && BallotHeld(call.ballot)
  }

  const PAYLOAD_CARRIED := 159

  /** The id as the path gives it back. */
  function IdSeen(id: string): string {
    id[..IndexOf(id, '/')]
  }

  /** What decoding makes of an encoded call: an id is cut at its first '/', and a call is refused
      when that leaves no id, when a check carries no hash, or when a payload is longer than 159
      bytes. */
  function Decoded(call: Call): Option<Call> {
    var base := Blank(call.op, call.cert);
    var id := IdSeen(call.election);
    if call.op.Create? then Some(base.(election := call.election, config := call.config))
    else if call.op.AdminNextId? then Some(base)
    else if id == [] then None
    else if CarriesBallot(call.op) then
      if |call.ballot.payload| > PAYLOAD_CARRIED then None
      else Some(base.(election := id, ballot := call.ballot.(cert := call.cert)))
    else if CarriesHash(call.op) then
      if call.hash == [] then None else Some(base.(election := id, hash := call.hash))
    else Some(base.(election := id))
  }

  /** The call with only the fields its operation uses. */
  function Relevant(call: Call): Call {
    var base := Blank(call.op, call.cert);
    if call.op.Create? then base.(election := call.election, config := call.config)
    else if call.op.AdminNextId? then base
    else if CarriesBallot(call.op) then base.(election := call.election, ballot := call.ballot)
    else if CarriesHash(call.op) then base.(election := call.election, hash := call.hash)
    else base.(election := call.election)
  }

  predicate Intact(call: Call) {
    && (CarriesPathId(call.op) ==> call.election != [] && '/' !in call.election)
    && (CarriesHash(call.op) ==> call.hash != [])
    && (CarriesBallot(call.op) ==>
          call.ballot.cert == call.cert && |call.ballot.payload| <= PAYLOAD_CARRIED)
  }

  // --- Lines ------------------------------------------------------------------------------------

  predicate PlainKey(k: string) {
    0 < |k| < KEY_CAP && '=' !in k && Clean(k) && '\0' !in k
  }

  predicate PlainPairs(pairs: seq<(string, string)>) {
    forall i :: 0 <= i < |pairs| ==> PlainKey(pairs[i].0) && Clean(pairs[i].1) && '\0' !in pairs[i].1
  }

  function Shortened(pairs: seq<(string, string)>): seq<(string, string)> {
    if pairs == [] then [] else [(pairs[0].0, Cut(pairs[0].1, VALUE_CAP - 1))] + Shortened(pairs[1..])
  }

  lemma {:induction false} NothingShortened(pairs: seq<(string, string)>)
    requires forall i :: 0 <= i < |pairs| ==> |pairs[i].1| < VALUE_CAP
    ensures Shortened(pairs) == pairs
  {
    if pairs != [] {
      NothingShortened(pairs[1..]);
      assert pairs == [pairs[0]] + pairs[1..];
    }
  }

  lemma CStrPlain(s: string)
    requires '\0' !in s
    ensures CStr(s) == s
  {
    IndexIs(s, '\0', |s|);
  }

  lemma LineRead(key: string, value: string)
    requires PlainKey(key) && Clean(value) && '\0' !in value
    ensures PairsOfLine(key + ("=" + value)) == [(key, Cut(value, VALUE_CAP - 1))]
    ensures '\n' !in key + ("=" + value)
  {
    hide CStr, IndexOf;
    var text := key + ("=" + value);
    assert text[|text| - 1] != '\r';
    IndexIs(text, '=', |key|);
    assert text[..|key|] == key && text[|key| + 1..] == value;
    CStrPlain(key);
    CStrPlain(Cut(value, VALUE_CAP - 1));
  }

  lemma {:induction false} PairsRead(pairs: seq<(string, string)>)
    requires PlainPairs(pairs)
    ensures ReadPairs(BodyText(pairs)) == Shortened(pairs)
  {
    hide PlainKey, PairsOfLine, Cut, IndexOf, Clean;
    if pairs != [] {
      var (key, value) := pairs[0];
      var line := key + ("=" + value);
      var rest := BodyText(pairs[1..]);
      var s := BodyText(pairs);
      LineRead(key, value);
      assert s == line + (['\n'] + rest);
      NewlineAfter(line, rest);
      assert s[..|line|] == line && s[|line| + 1..] == rest;
      PairsRead(pairs[1..]);
    }
  }

  lemma NewlineAfter(line: string, rest: string)
    requires '\n' !in line
    ensures IndexOf(line + (['\n'] + rest), '\n') == |line|
  {
    var s := line + (['\n'] + rest);
    assert forall i :: 0 <= i < |line| ==> s[i] == line[i];
    IndexIs(s, '\n', |line|);
  }

  // --- Callbacks --------------------------------------------------------------------------------

  lemma {:induction false} FoldConcat<C>(f: (C, string, string) -> C, c: C, a: seq<(string, string)>, b: seq<(string, string)>)
    ensures Fold(f, c, a + b) == Fold(f, Fold(f, c, a), b)
    decreases |a|
  {
    if a == [] {
      assert a + b == b;
    } else {
      assert (a + b)[1..] == a[1..] + b;
      FoldConcat(f, f(c, a[0].0, a[0].1), a[1..], b);
    }
  }

  lemma FoldKeyed<C>(f: (C, string, string) -> C, c: C, key: string, values: seq<string>)
    requires values != []
    ensures Fold(f, c, Keyed(key, values)) == Fold(f, f(c, key, values[0]), Keyed(key, values[1..]))
  {
    assert Keyed(key, values)[1..] == Keyed(key, values[1..]);
  }

  lemma FoldNone<C>(f: (C, string, string) -> C, c: C)
    ensures Fold(f, c, []) == c
  {
  }

  lemma FoldOne<C>(f: (C, string, string) -> C, c: C, key: string, value: string)
    ensures Fold(f, c, [(key, value)]) == f(c, key, value)
  {
    assert [(key, value)][1..] == [];
  }

  lemma OptionKv(c: (string, Config), name: string)
    requires |c.1.options| < MAX_OPTIONS && |name| < OPTION_LEN
    ensures CreateKv(c, "option", name) == (c.0, c.1.(options := c.1.options + [name]))
  {
  }

  lemma EligibleKv(c: (string, Config), name: string)
    requires |c.1.eligible| < MAX_VOTERS && |name| < CERT_LEN
    ensures CreateKv(c, "eligible", name) == (c.0, c.1.(eligible := c.1.eligible + [name]))
  {
  }

  lemma {:induction false} OptionsFold(c: (string, Config), names: seq<string>)
    requires |c.1.options| + |names| <= MAX_OPTIONS && Texts(names, OPTION_LEN)
    ensures Fold(CreateKv, c, Keyed("option", names)) == (c.0, c.1.(options := c.1.options + names))
    decreases |names|
  {
    hide CreateKv, Fold;
    if names == [] {
      FoldNone(CreateKv, c);
      assert c.1.options + names == c.1.options;
    } else {
      var next := CreateKv(c, "option", names[0]);
      OptionKv(c, names[0]);
      FoldKeyed(CreateKv, c, "option", names);
      OptionsFold(next, names[1..]);
      assert c.1.options + [names[0]] + names[1..] == c.1.options + names;
    }
  }

  lemma {:induction false} EligibleFold(c: (string, Config), names: seq<string>)
    requires |c.1.eligible| + |names| <= MAX_VOTERS && Texts(names, CERT_LEN)
    ensures Fold(CreateKv, c, Keyed("eligible", names)) == (c.0, c.1.(eligible := c.1.eligible + names))
    decreases |names|
  {
    hide CreateKv, Fold;
    if names == [] {
      FoldNone(CreateKv, c);
      assert c.1.eligible + names == c.1.eligible;
    } else {
      var next := CreateKv(c, "eligible", names[0]);
      EligibleKv(c, names[0]);
      FoldKeyed(CreateKv, c, "eligible", names);
      EligibleFold(next, names[1..]);
      assert c.1.eligible + [names[0]] + names[1..] == c.1.eligible + names;
    }
  }

  lemma HeadFold(id: string, title: string, open: string, close: string)
    requires |title| < TITLE_LEN && |open| < TIME_LEN && |close| < TIME_LEN
    ensures Fold(CreateKv, (id, NoConfig()), [("title", title), ("open_time", open), ("close_time", close)])
            == (id, BallotStore.Config(title, [], [], open, close))
  {
    var c0 := (id, NoConfig());
    var c1 := CreateKv(c0, "title", title);
    var c2 := CreateKv(c1, "open_time", open);
    var c3 := CreateKv(c2, "close_time", close);
    FoldOne(CreateKv, c0, "title", title);
    FoldOne(CreateKv, c1, "open_time", open);
    FoldOne(CreateKv, c2, "close_time", close);
    FoldConcat(CreateKv, c0, [("title", title)], [("open_time", open)]);
    FoldConcat(CreateKv, c0, [("title", title), ("open_time", open)], [("close_time", close)]);
    assert [("title", title)] + [("open_time", open)] == [("title", title), ("open_time", open)];
    assert [("title", title), ("open_time", open)] + [("close_time", close)]
        == [("title", title), ("open_time", open), ("close_time", close)];
  }

  lemma ConfigFold(id: string, c: Config)
    requires ConfigHeld(c)
    ensures Fold(CreateKv, (id, NoConfig()), ConfigPairs(c)) == (id, c)
  {
    hide Fold, Keyed, CreateKv;
    assert [] + c.options == c.options && [] + c.eligible == c.eligible;
    var head := [("title", c.title), ("open_time", c.openTime), ("close_time", c.closeTime)];
    var start := (id, NoConfig());
    HeadFold(id, c.title, c.openTime, c.closeTime);
    FoldConcat(CreateKv, start, head, Keyed("option", c.options));
    OptionsFold((id, BallotStore.Config(c.title, [], [], c.openTime, c.closeTime)), c.options);
    FoldConcat(CreateKv, start, head + Keyed("option", c.options), Keyed("eligible", c.eligible));
    EligibleFold((id, BallotStore.Config(c.title, c.options, [], c.openTime, c.closeTime)), c.eligible);
  }

  lemma CreateFold(call: Call)
    requires CallHeld(call)
    ensures Fold(CreateKv, ("", NoConfig()), CreatePairs(call)) == (call.election, call.config)
  {
    hide Fold, ConfigPairs, ConfigHeld;
    var start := ("", NoConfig());
    if call.election == [] {
      assert CreatePairs(call) == ConfigPairs(call.config);
    } else {
      FoldOne(CreateKv, start, "election_id", call.election);
      FoldConcat(CreateKv, start, [("election_id", call.election)], ConfigPairs(call.config));
    }
    ConfigFold(call.election, call.config);
  }

  /** An odd number of digits is no payload: a cut one is refused, not shortened. */
  lemma CutHexRefused(payload: seq<int>, cap: nat)
    requires IsBytes(payload) && |payload| > PAYLOAD_CARRIED
    ensures Unhex(Cut(Hex(payload), VALUE_CAP - 1), cap).None?
  {
  }

  lemma BallotFold(b: Ballot, cert: string)
    requires BallotHeld(b) && |b.payload| <= CIPHERTEXT_MAX
    ensures var c := Fold(BallotKv, EMPTY_FILLING, Shortened(BallotPairs(b)));
            && c.got == (|b.payload| <= PAYLOAD_CARRIED)
            && (c.got ==> Filled(c, cert) == b.(cert := cert))
  {
    hide Hex, Unhex, Cut, HexWritten, Zeros;
    var hex := Cut(Hex(b.payload), VALUE_CAP - 1);
    var pairs := BallotPairs(b);
    assert pairs[1..] == [("payload", Hex(b.payload))] && pairs[1..][1..] == [];
    assert Shortened(pairs[1..]) == [("payload", hex)];
    assert Shortened(pairs) == [("nonce", b.nonce)] + [("payload", hex)];
    var c := BallotKv(EMPTY_FILLING, "nonce", b.nonce);
    FoldOne(BallotKv, EMPTY_FILLING, "nonce", b.nonce);
    FoldOne(BallotKv, c, "payload", hex);
    FoldConcat(BallotKv, EMPTY_FILLING, [("nonce", b.nonce)], [("payload", hex)]);
    if |b.payload| <= PAYLOAD_CARRIED {
      UnhexHex(b.payload, CIPHERTEXT_MAX);
      PayloadTaken(c, Hex(b.payload), b.payload);
    } else {
      CutHexRefused(b.payload, CIPHERTEXT_MAX);
    }
  }

  /** An accepted payload line makes the ballot's payload its own bytes, whatever was there before. */
  lemma PayloadTaken(c: Filling, hex: string, payload: seq<int>)
    requires FillingOk(c) && Unhex(hex, CIPHERTEXT_MAX) == Some(payload)
    ensures var d := BallotKv(c, "payload", hex);
            FillingOk(d) && d.got && d.nonce == c.nonce && d.len == |payload| && d.buf[..d.len] == payload
  {
    hide Unhex, GoodPairs;
    UnhexWritten(hex, CIPHERTEXT_MAX);
    assert (payload + c.buf[|payload|..])[..|payload|] == payload;
  }

  /** A refused payload line changes neither the length nor the acceptance of an earlier one, and leaves
      its bytes intact exactly when the pairs before the first bad one spell what is already there. */
  lemma PayloadRefused(c: Filling, hex: string)
    requires FillingOk(c) && Unhex(hex, CIPHERTEXT_MAX).None?
    ensures var d := BallotKv(c, "payload", hex);
            var w := HexWritten(hex, CIPHERTEXT_MAX);
            && FillingOk(d) && d.got == c.got && d.nonce == c.nonce && d.len == c.len
            && (d.buf[..d.len] == c.buf[..c.len] <==> forall i :: 0 <= i < |w| && i < c.len ==> w[i] == c.buf[i])
  {
    hide Unhex, HexWritten;
    var d := BallotKv(c, "payload", hex);
    var w := HexWritten(hex, CIPHERTEXT_MAX);
    forall i | 0 <= i < c.len ensures d.buf[..d.len][i] == if i < |w| then w[i] else c.buf[i] {
    }
    if d.buf[..d.len] == c.buf[..c.len] {
      forall i | 0 <= i < |w| && i < c.len ensures w[i] == c.buf[i] {
        assert d.buf[..d.len][i] == c.buf[..c.len][i];
      }
    }
  }

  /** For one: "00" and then "01zz" is accepted as the one byte 1. */
  lemma RefusedLineShowsThrough()
    ensures var c := BallotKv(BallotKv(EMPTY_FILLING, "payload", "00"), "payload", "01zz");
            c.got && Filled(c, "").payload == [1]
  {
    hide Zeros, Unhex, GoodPairs, HexWritten;
    TwoDigits();
    var c := BallotKv(EMPTY_FILLING, "payload", "00");
    PayloadTaken(EMPTY_FILLING, "00", [0]);
    PayloadRefused(c, "01zz");
  }

  lemma TwoDigits()
    ensures Unhex("00", CIPHERTEXT_MAX) == Some([0])
    ensures Unhex("01zz", CIPHERTEXT_MAX) == None && HexWritten("01zz", CIPHERTEXT_MAX) == [1]
  {
    assert "00"[2..] == "" && "01zz"[2..] == "zz";
    assert Unhex("", CIPHERTEXT_MAX - 1) == Some([]) && [0] + [] == [0];
    assert GoodPairs("zz") == [];
  }

  lemma HashFold(hash: string)
    requires Text(hash, HASH_LEN)
    ensures Fold(HashKv, "", [("hash", hash)]) == hash
  {
    FoldOne(HashKv, "", "hash", hash);
  }

  // --- The message ------------------------------------------------------------------------------

  lemma NamesDiffer(a: Op, b: Op)
    requires MethodName(a) == MethodName(b)
    ensures a == b
  {
  }

  lemma {:induction false} OpFound(ops: seq<Op>, op: Op)
    requires op in ops
    ensures OpAmong(ops, MethodName(op)) == Some(op)
  {
    hide MethodName;
    if MethodName(ops[0]) == MethodName(op) {
      NamesDiffer(ops[0], op);
    } else {
      OpFound(ops[1..], op);
    }
  }

  lemma OpNameRead(op: Op)
    ensures OpNamed(MethodName(op)) == Some(op)
  {
    hide OpAmong, MethodName;
    assert op in Ops();
    OpFound(Ops(), op);
  }

  lemma PathRead(call: Call)
    requires Text(call.election, ID_LEN) && CarriesPathId(call.op)
    ensures PathId(PathOf(call)) == if IdSeen(call.election) == [] then None else Some(IdSeen(call.election))
  {
    hide IndexOf, PathSuffix;
    var path := PathOf(call);
    var rest := call.election + PathSuffix(call.op);
    assert path[|PathPrefix()|..] == rest;
    assert PathPrefix() <= path;
    var k := IndexOf(call.election, '/');
    assert forall i :: 0 <= i < |call.election| ==> rest[i] == call.election[i];
    IndexIs(rest, '/', k);
    assert rest[..k] == call.election[..k];
  }

  lemma CertEmitted(cert: string)
    ensures Emitted(CertHeader(cert), false) == CertHeader(cert)
    ensures NoColon(CertHeader(cert))
  {
    assert !SameName(CertName(), LengthName());
    assert CertHeader(cert) != [] ==> CertHeader(cert)[1..] == [];
  }

  lemma CertRead(cert: string, body: string)
    requires |cert| < CERT_LEN
    ensures var found := Lookup(CertHeader(cert) + LengthHeader(body), CertName());
            if cert == [] then found == None else found == Some(cert)
  {
    hide Print;
    assert !SameName(LengthName(), CertName());
    assert cert == [] ==> CertHeader(cert) + LengthHeader(body) == LengthHeader(body);
    assert body != [] ==> LengthHeader(body)[1..] == [];
    assert SameName(CertName(), CertName());
  }

  /** An encoded call's HTTTP request always survives the HTTTP layer. */
  lemma HttpArrives(call: Call, http: Request)
    requires CallHeld(call) && HttpOf(call) == Some(http) && Printable(http)
    ensures Sent(http) == CertHeader(call.cert) + LengthHeader(http.body)
    ensures ParseRequest(RequestText(http)) == Good(http.(headers := Sent(http)))
  {
    hide BodyText, CallPairs, ConfigHeld, BallotHeld, Emitted, ParseRequest, RequestText, LengthHeader, ValidField;
    CertEmitted(call.cert);
    assert |LengthHeader(http.body)| <= 1 by { AtMostOne(http.body); }
    assert |http.verb| < MAX_METHOD by { NameLength(call.op); }
    RequestRoundTrip(http);
  }

  lemma AtMostOne(body: string)
    ensures |LengthHeader(body)| <= 1
  {
  }

  lemma NameLength(op: Op)
    ensures |MethodName(op)| < MAX_METHOD
  {
  }

  /** Keys are ours and values were checked, so every line is plain. */
  lemma CallPairsPlain(call: Call)
    requires CallHeld(call) && BodyFits(CallPairs(call))
    ensures PlainPairs(CallPairs(call))
  {
    hide BodyText, Clean, Hex;
    forall i | 0 <= i < |CallPairs(call)|
      ensures PlainKey(CallPairs(call)[i].0) && '\0' !in CallPairs(call)[i].1
    {
      if call.op.Create? {
        CreatePairPlain(call, i);
      } else if CarriesBallot(call.op) {
        HexIsClean(call.ballot.payload);
        KeysPlain();
      } else {
        KeysPlain();
      }
    }
  }

  lemma KeysPlain()
    ensures PlainKey("nonce") && PlainKey("payload") && PlainKey("hash")
    ensures PlainKey("election_id") && PlainKey("title") && PlainKey("open_time") && PlainKey("close_time")
    ensures PlainKey("option") && PlainKey("eligible")
  {
  }

  lemma CreatePairPlain(call: Call, i: nat)
    requires CallHeld(call) && i < |CreatePairs(call)|
    ensures PlainKey(CreatePairs(call)[i].0) && '\0' !in CreatePairs(call)[i].1 && |CreatePairs(call)[i].1| < VALUE_CAP
  {
    hide PlainKey;
    KeysPlain();
    var c := call.config;
    var k := if call.election == [] then i else i - 1;
    if k >= 0 {
      assert CreatePairs(call)[i] == ConfigPairs(c)[k];
      if 3 <= k < 3 + |c.options| {
        assert ConfigPairs(c)[k] == Keyed("option", c.options)[k - 3];
        assert Text(c.options[k - 3], OPTION_LEN);
      } else if k >= 3 + |c.options| {
        assert ConfigPairs(c)[k] == Keyed("eligible", c.eligible)[k - 3 - |c.options|];
        assert Text(c.eligible[k - 3 - |c.options|], CERT_LEN);
      }
    }
  }

  /** Encoding, printing, parsing and decoding a call, for every call that encodes. */
  lemma CallDecodes(call: Call, http: Request)
    requires CallHeld(call) && HttpOf(call) == Some(http) && Printable(http)
    ensures Decode(http.(headers := Sent(http))) == Decoded(call)
  {
    hide OpNamed, Fold, ReadPairs, PathOf, PathId, IdSeen, BodyText, ConfigHeld, Lookup, PlainPairs, Shortened;
    hide BodyFits, Hex, CreatePairs, BallotPairs, MethodName, Emitted, LengthHeader, ValidField;
    HttpArrives(call, http);
    CertRead(call.cert, http.body);
    OpNameRead(call.op);
    CallPairsPlain(call);
    PairsRead(CallPairs(call));
    if call.op.Create? {
      CreateUnshortened(call);
      CreateFold(call);
    } else if !call.op.AdminNextId? {
      PathRead(call);
      if CarriesBallot(call.op) {
        BallotFold(call.ballot, call.cert);
      } else if CarriesHash(call.op) {
        HashFold(call.hash);
        NothingShortened([("hash", call.hash)]);
      }
    }
  }

  lemma CreateUnshortened(call: Call)
    requires CallHeld(call)
    ensures Shortened(CreatePairs(call)) == CreatePairs(call)
  {
    hide CallHeld, CreatePairs, PlainKey;
    forall i | 0 <= i < |CreatePairs(call)| ensures |CreatePairs(call)[i].1| < VALUE_CAP {
      CreatePairPlain(call, i);
    }
    NothingShortened(CreatePairs(call));
  }

  /** What the daemon gets from the bytes of a request. */
  ghost function Received(http: Request): Option<Call> {
    match ParseRequest(RequestText(http))
    case Refused(_) => None
    case Good(arrived) => Decode(arrived)
  }

  /** A call that encodes comes back whole exactly when its id is non-empty and holds no '/' where the
      path carries it, a check names a hash, and a ballot is the caller's own and of at most 159
      bytes. */
  lemma CallComesBack(call: Call, http: Request)
    requires CallHeld(call) && HttpOf(call) == Some(http) && Printable(http)
    ensures Received(http) == Decoded(call)
    ensures Received(http) == Some(Relevant(call)) <==> Intact(call)
  {
    hide Decode, HttpOf, CallHeld, ParseRequest, RequestText, Sent, Printable, IndexOf;
    HttpArrives(call, http);
    CallDecodes(call, http);
    var id := call.election;
    var k := IndexOf(id, '/');
    assert '/' !in id ==> k == |id| && id[..k] == id;
    assert '/' in id ==> k < |id| && IdSeen(id) != id;
  }

  predicate Encodes(call: Call)
    requires IsBytes(call.ballot.payload)
  {
    HttpOf(call).Some? && Printable(HttpOf(call).value)
  }

  /** When a ballot can be sent at all: its payload may be as long as 256 bytes. */
  lemma BallotEncodes(call: Call)
    requires CallHeld(call) && CarriesBallot(call.op)
    ensures Encodes(call) <==>
              && Clean(call.ballot.nonce) && |call.ballot.payload| <= CIPHERTEXT_MAX
              && ValidField(call.cert, true) && ValidField(call.election, false)
  {
    hide Hex, ConfigHeld, MethodName, Emitted, CertHeader, SameName;
    var b := call.ballot;
    HexIsClean(b.payload);
    var pairs := CallPairs(call);
    assert pairs[0].1 == b.nonce && pairs[1].1 == Hex(b.payload);
    assert pairs[1..][1..] == [];
    assert |BodyText(pairs[1..])| == 9 + 2 * |b.payload|;
    assert |BodyText(pairs)| == 7 + |b.nonce| + 9 + 2 * |b.payload|;
    CertEmitted(call.cert);
    if ValidField(call.cert, true) {
      CertGood(call.cert);
    }
    PathValid(call);
    NameValid(call.op);
  }

  lemma CertGood(cert: string)
    requires ValidField(cert, true)
    ensures GoodHeaders(CertHeader(cert)) && |CertHeader(cert)| <= 1
  {
  }

  lemma NameValid(op: Op)
    ensures MethodName(op) != [] && ValidField(MethodName(op), false)
  {
  }

  lemma PathValid(call: Call)
    requires CarriesPathId(call.op)
    ensures PathOf(call) != []
    ensures ValidField(PathOf(call), false) <==> ValidField(call.election, false)
  {
    var path := PathOf(call);
    assert ValidField(PathPrefix(), false) && ValidField(PathSuffix(call.op), false);
    var n := |PathPrefix()|;
    forall i | 0 <= i < |call.election| ensures call.election[i] == path[n + i] {
    }
    forall i | 0 <= i < |path|
      ensures path[i] == if i < n then PathPrefix()[i]
                         else if i < n + |call.election| then call.election[i - n]
                         else PathSuffix(call.op)[i - n - |call.election|]
    {
    }
  }

  /** A ballot of 160 to 256 bytes is sent and then refused, whatever else it holds. */
  lemma LongBallotRefused(call: Call)
    requires CallHeld(call) && CarriesBallot(call.op)
    requires PAYLOAD_CARRIED < |call.ballot.payload| <= CIPHERTEXT_MAX
    requires Clean(call.ballot.nonce) && ValidField(call.cert, true) && ValidField(call.election, false)
    ensures Encodes(call) && Received(HttpOf(call).value) == None
  {
    hide Decode, HttpOf, Received, Printable, ConfigHeld;
    BallotEncodes(call);
    CallComesBack(call, HttpOf(call).value);
  }
}
