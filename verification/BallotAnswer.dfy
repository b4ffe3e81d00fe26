/**
 * The daemon's answers on the wire (ballotbox/src/libballotclient/codec.c:89-107, 412-676): the lines an
 * answer is written as, how a client reads them, and exactly what survives the trip.
 */
module BallotAnswer {
  import opened Basics
  import opened Decimal
  import opened Htttp
  import opened HtttpLaws
  import opened BallotCodec
  import opened BallotTrip
  import opened BallotReply
  import opened BallotIds
  import BallotStore

  type Code = BallotStore.Code
  type State = BallotStore.State

  /** bb_ballot_hash_t */
  datatype Row = Row(hash: string, option: int, version: int, superseded: int)

  /** bcl_response_t; a list holds the entries written so far, the rest of its array being zero. */
  datatype Answer = Answer(
    status: Code, id: string, title: string, state: State, openTime: string, closeTime: string,
    options: seq<string>, hasBallot: int, version: int, receipt: string, issuedAt: string,
    tallyCount: int, tally: seq<int>, names: seq<string>, rowCount: int, rows: seq<Row>,
    found: int, foundOption: int, foundName: string)

  function NoAnswer(): Answer {
    Answer(BallotStore.Ok, "", "", BallotStore.Draft, "", "", [], 0, 0, "", "", 0, [], [], 0, [], 0, 0, "")
  }

  // --- Numbers ----------------------------------------------------------------------------------

  predicate IsInt(n: int) {
    INT_MIN <= n <= INT_MAX
  }

  function Atoi(s: string): int {
    ToInt32(Strtol(s).0)
  }

  lemma {:induction false} DigitRunIs(digits: string, rest: string)
    requires AllDigits(digits) && (rest == [] || !IsDigit(rest[0]))
    ensures DigitRun(digits + rest) == |digits|
  {
    if digits == [] {
      assert digits + rest == rest;
    } else {
      assert (digits + rest)[1..] == digits[1..] + rest;
      DigitRunIs(digits[1..], rest);
    }
  }

  lemma PrintIntShape(n: int)
    requires IsInt(n)
    ensures var s := PrintInt(n);
            |s| <= 11 && (IsDigit(s[0]) || s[0] == '-') && forall i :: 1 <= i < |s| ==> IsDigit(s[i])
  {
    assert Pow10(10) == 10_000_000_000 by { assert Pow10(5) == 100_000; }
    PrintLength(if n < 0 then -n else n, 10);
  }

  /** Reading a printed int stops right behind it, with the int. */
  lemma ScanPrinted(n: int, rest: string)
    requires IsInt(n) && (rest == [] || !IsDigit(rest[0]))
    ensures Strtol(PrintInt(n) + rest) == (n, |PrintInt(n)|) && ToInt32(n) == n
  {
    hide Strtol, Print, Value, ToInt32;
    var m := if n < 0 then -n else n;
    ValuePrint(m);
    if n < 0 {
      assert PrintInt(n) + rest == "-" + (Print(m) + rest);
      StrtolMinus(Print(m), rest);
    } else {
      StrtolPlain(Print(m), rest);
    }
    FitsInt(n);
  }

  lemma FitsInt(n: int)
    requires IsInt(n)
    ensures ToInt32(n) == n
  {
    if n < 0 {
      assert (n + 0x1_0000_0000) % 0x1_0000_0000 == n + 0x1_0000_0000;
    }
  }

  lemma StrtolPlain(digits: string, rest: string)
    requires digits != [] && AllDigits(digits) && (rest == [] || !IsDigit(rest[0]))
    requires Value(digits) <= LONG_MAX
    ensures Strtol(digits + rest) == (Value(digits), |digits|)
  {
    hide Value, DigitRun;
    var s := digits + rest;
    DigitRunIs(digits, rest);
    assert IsDigit(s[0]) && s[0..] == s && s[..|digits|] == digits;
  }

  lemma StrtolMinus(digits: string, rest: string)
    requires digits != [] && AllDigits(digits) && (rest == [] || !IsDigit(rest[0]))
    requires Value(digits) <= LONG_MAX
    ensures Strtol("-" + (digits + rest)) == (0 - Value(digits), 1 + |digits|)
  {
    hide Value, DigitRun;
    var s := "-" + (digits + rest);
    DigitRunIs(digits, rest);
    assert s[0] == '-' && s[1..] == digits + rest && (digits + rest)[..|digits|] == digits;
  }

  lemma AtoiPrinted(n: int)
    requires IsInt(n)
    ensures Atoi(PrintInt(n)) == n
  {
    assert PrintInt(n) + [] == PrintInt(n);
    ScanPrinted(n, []);
  }

  /** "1,2,3": an int before each comma, while the array has room. */
  function ReadTally(s: string, room: nat): seq<int> {
    if s == [] || room == 0 then []
    else
      var k := IndexOf(s, ',');
      [Atoi(s)] + (if k == |s| then [] else ReadTally(s[k + 1..], room - 1))
  }

  function TallyText(tally: seq<int>): string {
    if tally == [] then []
    else if |tally| == 1 then PrintInt(tally[0])
    else PrintInt(tally[0]) + ("," + TallyText(tally[1..]))
  }

  predicate Ints(ns: seq<int>) {
    forall i :: 0 <= i < |ns| ==> IsInt(ns[i])
  }

  lemma NumberThenComma(n: int, rest: string)
    requires IsInt(n)
    ensures var s := PrintInt(n) + ("," + rest);
            IndexOf(s, ',') == |PrintInt(n)| && s[..|PrintInt(n)|] == PrintInt(n)
            && s[|PrintInt(n)| + 1..] == rest && Atoi(s) == n
    ensures ',' !in PrintInt(n)
  {
    var s := PrintInt(n) + ("," + rest);
    PrintIntShape(n);
    IndexIs(s, ',', |PrintInt(n)|);
    ScanPrinted(n, "," + rest);
  }

  lemma {:induction false} TallyRead(tally: seq<int>, room: nat)
    requires Ints(tally) && |tally| <= room
    ensures ReadTally(TallyText(tally), room) == tally
    decreases |tally|
  {
    hide Atoi, PrintInt, IndexOf, ReadTally;
    if tally == [] {
      NoTally(room);
    } else if |tally| == 1 {
      LastCount(tally[0], room);
      assert tally == [tally[0]];
    } else {
      NextCount(tally[0], TallyText(tally[1..]), room);
      TallyRead(tally[1..], room - 1);
      assert tally == [tally[0]] + tally[1..];
    }
  }

  lemma NoTally(room: nat)
    ensures ReadTally([], room) == []
  {
  }

  lemma LastCount(n: int, room: nat)
    requires IsInt(n) && room > 0
    ensures ReadTally(PrintInt(n), room) == [n]
  {
    hide Atoi, PrintInt, IndexOf;
    NumberThenComma(n, []);
    IndexIs(PrintInt(n), ',', |PrintInt(n)|);
    AtoiPrinted(n);
  }

  lemma NextCount(n: int, rest: string, room: nat)
    requires IsInt(n) && room > 0
    ensures ReadTally(PrintInt(n) + ("," + rest), room) == [n] + ReadTally(rest, room - 1)
  {
    hide Atoi, PrintInt, IndexOf;
    NumberThenComma(n, rest);
  }

  // --- Rows -------------------------------------------------------------------------------------

  function RowText(r: Row): string {
    r.hash + ("," + (PrintInt(r.option) + ("," + (PrintInt(r.version) + ("," + PrintInt(r.superseded))))))
  }

  /** A number and the comma behind it. */
  function ReadField(s: string): Option<(int, string)> {
    var (n, end) := Strtol(s);
    if end == 0 || end >= |s| || s[end] != ',' then None else Some((ToInt32(n), s[end + 1..]))
  }

  /** A non-empty hash of at most 64 characters, then three numbers. */
  function ReadRow(s: string): (r: Option<Row>)
    ensures r.Some? ==> r.value.hash != [] && ',' !in r.value.hash
  {
    var k := IndexOf(s, ',');
    if k == 0 || k >= HASH_LEN || k == |s| then None
    else
      match ReadField(s[k + 1..])
      case None => None
      case Some((option, rest)) =>
        match ReadField(rest)
        case None => None
        case Some((version, rest)) =>
          if Strtol(rest).1 == 0 then None else Some(Row(s[..k], option, version, Atoi(rest)))
  }

  lemma FieldRead(n: int, rest: string)
    requires IsInt(n)
    ensures ReadField(PrintInt(n) + ("," + rest)) == Some((n, rest))
  {
    ScanPrinted(n, "," + rest);
    NumberThenComma(n, rest);
  }

  predicate RowHeld(r: Row) {
    Text(r.hash, HASH_LEN) && IsInt(r.option) && IsInt(r.version) && IsInt(r.superseded)
  }

  lemma RowRead(r: Row)
    requires RowHeld(r) && r.hash != [] && ',' !in r.hash
    ensures ReadRow(RowText(r)) == Some(r)
  {
    hide PrintInt, Strtol, ReadField;
    var last := PrintInt(r.superseded);
    var mid := PrintInt(r.version) + ("," + last);
    var rest := PrintInt(r.option) + ("," + mid);
    var s := r.hash + ("," + rest);
    assert s == RowText(r);
    IndexIs(s, ',', |r.hash|);
    assert s[..|r.hash|] == r.hash && s[|r.hash| + 1..] == rest;
    FieldRead(r.option, mid);
    FieldRead(r.version, last);
    ScanPrinted(r.superseded, []);
    assert last + [] == last;
  }

  // --- Encoding ---------------------------------------------------------------------------------

  function StateName(state: State): string {
    match state
    case Draft => "DRAFT"
    case Open => "OPEN"
    case Closed => "CLOSED"
    case Published => "PUBLISHED"
  }

  function StateNamed(name: string): Option<State> {
    if name == "DRAFT" then Some(BallotStore.Draft)
    else if name == "OPEN" then Some(BallotStore.Open)
    else if name == "CLOSED" then Some(BallotStore.Closed)
    else if name == "PUBLISHED" then Some(BallotStore.Published)
    else None
  }

  function RowTexts(rows: seq<Row>): (texts: seq<string>)
    ensures |texts| == |rows| && forall i :: 0 <= i < |rows| ==> texts[i] == RowText(rows[i])
  {
    if rows == [] then [] else [RowText(rows[0])] + RowTexts(rows[1..])
  }

  function JoinPairs(a: Answer): seq<(string, string)> {
    [("election_id", a.id)] + ([("title", a.title)] + ([("state", StateName(a.state))]
    + ([("open_time", a.openTime)] + ([("close_time", a.closeTime)]
    + ([("has_prior_ballot", PrintInt(a.hasBallot))]
    + ([("prior_ballot_version", PrintInt(a.version))] + Keyed("option", a.options)))))))
  }

  function TallyPairs(a: Answer): seq<(string, string)> {
    if a.tallyCount <= 0 then [] else [("tally", TallyText(a.tally))] + Keyed("result_option", a.names)
  }

  function ResultsPairs(a: Answer): seq<(string, string)> {
    [("election_id", a.id)] + ([("title", a.title)] + ([("tally_count", PrintInt(a.tallyCount))]
    + (TallyPairs(a) + ([("hash_count", PrintInt(a.rowCount))] + Keyed("row", RowTexts(a.rows))))))
  }

  function CheckPairs(a: Answer): seq<(string, string)> {
    [("found", PrintInt(a.found))]
    + (if a.found == 0 then []
       else [("found_option", PrintInt(a.foundOption))] + [("found_option_name", a.foundName)])
  }

  /** What an answer carries behind its status line. */
  function DetailPairs(op: Op, a: Answer): seq<(string, string)> {
    match op
    case Create => if a.id == [] then [] else [("election_id", a.id)]
    case AdminNextId => if a.id == [] then [] else [("election_id", a.id)]
    case Join => if a.id == [] then [] else JoinPairs(a)
    case Cast => if a.receipt == [] then [] else [("hash", a.receipt)] + [("issued_at", a.issuedAt)]
    case Update => if a.receipt == [] then [] else [("hash", a.receipt)] + [("issued_at", a.issuedAt)]
    case Results => ResultsPairs(a)
    case AdminResults => ResultsPairs(a)
    case Check => CheckPairs(a)
    case AdminCheck => CheckPairs(a)
    case _ => []
  }

  function AnswerPairs(op: Op, a: Answer): seq<(string, string)>
    requires ResultName(a.status).Some?
  {
    [("status", ResultName(a.status).value)] + DetailPairs(op, a)
  }

  /** bcl_http_status */
  function HttpStatus(code: Code): (status: int)
    ensures Reason(status).Some?
    ensures status == 200 <==> code.Ok?
    ensures status == 500 <==> code.DbError? || code.NotImplemented? || code.Retry?
    ensures status == 403 <==> code.NotEligible? || code.CertInvalid? || code.CertExpired?
    ensures status == 404 <==> code.NotFound?
  {
    match code
    case Ok => 200
    case ConfigTitle => 400
    case ConfigOptions => 400
    case ConfigTime => 400
    case BadOption => 400
    case Decrypt => 400
    case NotEligible => 403
    case CertInvalid => 403
    case CertExpired => 403
    case NotFound => 404
    case IllegalTransition => 409
    case NotOpen => 409
    case ElectionClosed => 409
    case NotPublished => 409
    case Replay => 409
    case NotJoined => 409
    case ConfigIdTaken => 409
    case DbError => 500
    case NotImplemented => 500
    case Retry => 500
  }

  /** The HTTTP response for an answer; None if it cannot be written. */
  function HttpAnswer(op: Op, a: Answer): Option<Response> {
    if ResultName(a.status).None? then None
    else if !BodyFits(AnswerPairs(op, a)) then None
    else Some(Response(HttpStatus(a.status), [], BodyText(AnswerPairs(op, a))))
  }

  // --- Decoding ---------------------------------------------------------------------------------

  /** Numbers written over the front of an array. */
  function Overwrite(before: seq<int>, written: seq<int>): seq<int> {
    if |written| < |before| then written + before[|written|..] else written
  }

  /** response_kv; the flag is whether a status line named a real result. */
  function AnswerKv(c: (Answer, bool), key: string, value: string): (Answer, bool) {
    var a := c.0;
    if key == "status" then
      match ResultNamed(value)
      case Some(code) => (a.(status := code), true)
      case None => c
    else (Detail(a, key, value), c.1)
  }

  function Detail(a: Answer, key: string, value: string): Answer {
    if key == "election_id" then a.(id := Cut(value, ID_LEN - 1))
    else if key == "title" then a.(title := Cut(value, TITLE_LEN - 1))
    else if key == "state" then
      match StateNamed(value)
      case Some(state) => a.(state := state)
      case None => a
    else if key == "open_time" then a.(openTime := Cut(value, TIME_LEN - 1))
    else if key == "close_time" then a.(closeTime := Cut(value, TIME_LEN - 1))
    else if key == "has_prior_ballot" then a.(hasBallot := Atoi(value))
    else if key == "prior_ballot_version" then a.(version := Atoi(value))
    else if key == "option" then
      if |a.options| < MAX_OPTIONS then a.(options := a.options + [Cut(value, OPTION_LEN - 1)]) else a
    else if key == "hash" then a.(receipt := Cut(value, HASH_LEN - 1))
    else if key == "issued_at" then a.(issuedAt := Cut(value, TIME_LEN - 1))
    else if key == "found" then a.(found := Atoi(value))
    else if key == "found_option" then a.(foundOption := Atoi(value))
    else if key == "found_option_name" then a.(foundName := Cut(value, OPTION_LEN - 1))
    else Table(a, key, value)
  }

  function Table(a: Answer, key: string, value: string): Answer {
    if key == "tally_count" then a.(tallyCount := Atoi(value))
    else if key == "result_option" then
      if |a.names| < MAX_OPTIONS then a.(names := a.names + [Cut(value, OPTION_LEN - 1)]) else a
    else if key == "tally" then a.(tally := Overwrite(a.tally, ReadTally(value, MAX_OPTIONS)))
    else if key == "hash_count" then a.(rowCount := Atoi(value))
    else if key == "row" && |a.rows| < MAX_VOTERS then
      match ReadRow(value)
      case Some(row) => a.(rows := a.rows + [row])
      case None => a
    else a
  }

  /** The counts the sender claims, held to what arrived. */
  function Clamped(a: Answer): Answer {
    a.(rowCount := if a.rowCount < 0 || a.rowCount > |a.rows| then |a.rows| else a.rowCount,
       tallyCount := if a.tallyCount < 0 || a.tallyCount > MAX_OPTIONS then |a.names| else a.tallyCount)
  }

  /** bcl_decode_response */
  function DecodeAnswer(http: Response): Option<Answer> {
    var (a, valid) := Fold(AnswerKv, (NoAnswer(), false), ReadPairs(http.body));
    if valid then Some(Clamped(a)) else None
  }
}
