/**
 * The ballot clients' requests on the wire (ballotbox/src/libballotclient/codec.c:16-44, 111-410): how
 * a call becomes an HTTTP request, how the daemon reads one, and exactly what survives the trip.
 */
module BallotCodec {
  import opened Basics
  import opened Htttp
  import opened Receipts
  import BallotStore

  type Config = BallotStore.Config
  type Ballot = BallotStore.Ballot

  const MAX_OPTIONS := BallotStore.MAX_OPTIONS
  const MAX_VOTERS := BallotStore.MAX_VOTERS
  const ID_LEN := 16
  const TITLE_LEN := 64
  const OPTION_LEN := 32
  const CERT_LEN := 32
  const TIME_LEN := 32
  const HASH_LEN := 65
  const NONCE_LEN := 33
  const CIPHERTEXT_MAX := 256
  const BODY_MAX := 8192
  const KEY_CAP := 64
  const VALUE_CAP := 320

  datatype Op =
    | Join | Cast | Update | Results | Check | Create | Open | Close | Publish
    | AdminResults | AdminCheck | AdminNextId

  /** bcl_request_t */
  datatype Call = Call(
    op: Op, cert: string, election: string, ballot: Ballot, hash: string, config: Config)

  function NoBallot(): Ballot {
    BallotStore.Ballot("", "", [])
  }

  function NoConfig(): Config {
    BallotStore.Config("", [], [], "", "")
  }

  function Blank(op: Op, cert: string): Call {
    Call(op, cert, "", NoBallot(), "", NoConfig())
  }

  function MethodName(op: Op): string {
    match op
    case Join => "JOIN"
    case Cast => "CAST"
    case Update => "UPDATE"
    case Results => "RESULTS"
    case Check => "CHECK"
    case Create => "CREATE"
    case Open => "OPEN"
    case Close => "CLOSE"
    case Publish => "PUBLISH"
    case AdminResults => "ADMIN_RESULTS"
    case AdminCheck => "ADMIN_CHECK"
    case AdminNextId => "ADMIN_NEXT_ID"
  }

  /** The operations in the order the name table is searched. */
  function Ops(): seq<Op> {
    [Join, Cast, Update, Results, Check, Create, Open, Close, Publish, AdminResults, AdminCheck, AdminNextId]
  }

  function OpAmong(ops: seq<Op>, name: string): Option<Op> {
    if ops == [] then None
    else if MethodName(ops[0]) == name then Some(ops[0])
    else OpAmong(ops[1..], name)
  }

  function OpNamed(name: string): Option<Op> {
    OpAmong(Ops(), name)
  }

  // --- Hex --------------------------------------------------------------------------------------

  function Nibble(c: char): (n: Option<int>)
    ensures n.Some? ==> 0 <= n.value < 16
  {
    if '0' <= c <= '9' then Some(c as int - '0' as int)
    else if 'a' <= c <= 'f' then Some(c as int - 'a' as int + 10)
    else if 'A' <= c <= 'F' then Some(c as int - 'A' as int + 10)
    else None
  }

  lemma DigitIsNibble(n: int)
    requires 0 <= n < 16
    ensures var c := HexDigit(n); Nibble(c) == Some(n) && c != '\r' && c != '\n' && c != '\0'
  {
  }

  predicate IsBytes(p: seq<int>) {
    forall i :: 0 <= i < |p| ==> 0 <= p[i] < 256
  }

  function Hex(p: seq<int>): (s: string)
    requires IsBytes(p)
    ensures |s| == 2 * |p|
  {
    if p == [] then [] else [HexDigit(p[0] / 16), HexDigit(p[0] % 16)] + Hex(p[1..])
  }

  /** Two digits per byte; odd or too long text, or any other character, is refused. */
  function Unhex(s: string, cap: nat): (p: Option<seq<int>>)
    ensures p.Some? ==> IsBytes(p.value) && |s| == 2 * |p.value| && |p.value| <= cap
  {
    if s == [] then Some([])
    else if |s| == 1 || cap == 0 then None
    else
      match (Nibble(s[0]), Nibble(s[1]), Unhex(s[2..], cap - 1))
      case (Some(hi), Some(lo), Some(rest)) => Some([16 * hi + lo] + rest)
      case _ => None
  }

  /** The bytes of the digit pairs before the first pair that is none. */
  function GoodPairs(s: string): (p: seq<int>)
    ensures IsBytes(p) && 2 * |p| <= |s|
  {
    if |s| < 2 then []
    else
      match (Nibble(s[0]), Nibble(s[1]))
      case (Some(hi), Some(lo)) => [16 * hi + lo] + GoodPairs(s[2..])
      case _ => []
  }

  /** What hex_decode leaves in its output, whether or not it then refuses. */
  function HexWritten(s: string, cap: nat): (p: seq<int>)
    ensures IsBytes(p) && |p| <= cap
  {
    if |s| % 2 != 0 || |s| / 2 > cap then [] else GoodPairs(s)
  }

  /** Text is refused exactly when it is odd, too long, or stops short of its last pair. */
  lemma {:induction false} UnhexWritten(s: string, cap: nat)
    ensures Unhex(s, cap) == if |s| % 2 != 0 || |s| / 2 > cap || |GoodPairs(s)| < |s| / 2 then None else Some(GoodPairs(s))
    decreases |s|
  {
    hide Nibble;
    if |s| >= 2 && cap > 0 {
      UnhexWritten(s[2..], cap - 1);
    }
  }

  lemma {:induction false} PairsOfHex(p: seq<int>)
    requires IsBytes(p)
    ensures GoodPairs(Hex(p)) == p
  {
    hide HexDigit, Nibble;
    if p != [] {
      DigitIsNibble(p[0] / 16);
      DigitIsNibble(p[0] % 16);
      assert Hex(p)[2..] == Hex(p[1..]);
      PairsOfHex(p[1..]);
      assert p == [p[0]] + p[1..];
    }
  }

  lemma UnhexHex(p: seq<int>, cap: nat)
    requires IsBytes(p) && |p| <= cap
    ensures Unhex(Hex(p), cap) == Some(p)
  {
    hide Unhex, Hex, GoodPairs;
    PairsOfHex(p);
    UnhexWritten(Hex(p), cap);
  }

  lemma {:induction false} HexIsClean(p: seq<int>)
    requires IsBytes(p)
    ensures Clean(Hex(p)) && '\0' !in Hex(p)
  {
    hide HexDigit;
    if p != [] {
      DigitIsNibble(p[0] / 16);
      DigitIsNibble(p[0] % 16);
      HexIsClean(p[1..]);
    }
  }

  // --- Bodies: "key=value" lines ----------------------------------------------------------------

  /** Carries no line break of its own. */
  predicate Clean(s: string) {
    '\r' !in s && '\n' !in s
  }

  function LineText(key: string, value: string): string {
    key + ("=" + (value + "\n"))
  }

  function BodyText(pairs: seq<(string, string)>): string {
    if pairs == [] then [] else LineText(pairs[0].0, pairs[0].1) + BodyText(pairs[1..])
  }

  /** Every value may be written, and the lines fit the body buffer with its terminator. */
  predicate BodyFits(pairs: seq<(string, string)>) {
    (forall i :: 0 <= i < |pairs| ==> Clean(pairs[i].1)) && |BodyText(pairs)| < BODY_MAX
  }

  function WithoutCr(line: string): string {
    if line != [] && line[|line| - 1] == '\r' then line[..|line| - 1] else line
  }

  /** What one line hands to the callback, as C strings in its two buffers. */
  function PairsOfLine(line: string): seq<(string, string)> {
    var text := WithoutCr(line);
    var eq := IndexOf(text, '=');
    if eq == 0 || eq >= |text| then []
    else [(CStr(Cut(text[..eq], KEY_CAP - 1)), CStr(Cut(text[eq + 1..], VALUE_CAP - 1)))]
  }

  function ReadPairs(s: string): seq<(string, string)> {
    if s == [] then []
    else
      var nl := IndexOf(s, '\n');
      PairsOfLine(s[..nl]) + (if nl < |s| then ReadPairs(s[nl + 1..]) else [])
  }

  function Fold<C>(f: (C, string, string) -> C, c: C, pairs: seq<(string, string)>): C
    decreases |pairs|
  {
    if pairs == [] then c else Fold(f, f(c, pairs[0].0, pairs[0].1), pairs[1..])
  }

  // --- Encoding ---------------------------------------------------------------------------------

  predicate CarriesBallot(op: Op) {
    op.Cast? || op.Update?
  }

  predicate CarriesHash(op: Op) {
    op.Check? || op.AdminCheck?
  }

  predicate CarriesPathId(op: Op) {
    !op.Create? && !op.AdminNextId?
  }

  function Keyed(key: string, values: seq<string>): (pairs: seq<(string, string)>)
    ensures |pairs| == |values|
    ensures forall i :: 0 <= i < |pairs| ==> pairs[i] == (key, values[i])
  {
    if values == [] then [] else [(key, values[0])] + Keyed(key, values[1..])
  }

  function ConfigPairs(c: Config): seq<(string, string)> {
    [("title", c.title), ("open_time", c.openTime), ("close_time", c.closeTime)]
    + Keyed("option", c.options) + Keyed("eligible", c.eligible)
  }

  function CreatePairs(call: Call): seq<(string, string)> {
    (if call.election == [] then [] else [("election_id", call.election)]) + ConfigPairs(call.config)
  }

  function BallotPairs(b: Ballot): seq<(string, string)>
    requires IsBytes(b.payload)
  {
    [("nonce", b.nonce), ("payload", Hex(b.payload))]
  }

  function CallPairs(call: Call): seq<(string, string)>
    requires IsBytes(call.ballot.payload)
  {
    if call.op.Create? then CreatePairs(call)
    else if CarriesBallot(call.op) then BallotPairs(call.ballot)
    else if CarriesHash(call.op) then [("hash", call.hash)]
    else []
  }

  function PathPrefix(): string {
    "/election/"
  }

  function PathSuffix(op: Op): (s: string)
    ensures s == [] || s[0] == '/'
  {
    if CarriesBallot(op) then "/ballot" else if CarriesHash(op) then "/check" else ""
  }

  function PathOf(call: Call): string {
    if call.op.Create? then "/election"
    else if call.op.AdminNextId? then "/election/next-id"
    else PathPrefix() + (call.election + PathSuffix(call.op))
  }

  function CertName(): string {
    "Cert-Name"
  }

  function CertHeader(cert: string): seq<Header> {
    if cert == [] then [] else [Header(CertName(), cert)]
  }

  /** The HTTTP request for a call; None if a field cannot be put into it. */
  function HttpOf(call: Call): Option<Request>
    requires IsBytes(call.ballot.payload)
  {
    if CarriesBallot(call.op) && |call.ballot.payload| > CIPHERTEXT_MAX then None
    else if !BodyFits(CallPairs(call)) then None
    else if !ValidField(call.cert, true) then None
    else Some(Request(MethodName(call.op), PathOf(call), CertHeader(call.cert), BodyText(CallPairs(call))))
  }

  // --- Decoding ---------------------------------------------------------------------------------

  /** The id in the path: up to 15 characters before the next '/'. */
  function PathId(path: string): Option<string> {
    if !(PathPrefix() <= path) then None
    else
      var rest := path[|PathPrefix()|..];
      var id := Cut(rest[..IndexOf(rest, '/')], ID_LEN - 1);
      if id == [] then None else Some(id)
  }

  function CreateKv(c: (string, Config), key: string, value: string): (string, Config) {
    if key == "election_id" then (Cut(value, ID_LEN - 1), c.1)
    else if key == "title" then (c.0, c.1.(title := Cut(value, TITLE_LEN - 1)))
    else if key == "open_time" then (c.0, c.1.(openTime := Cut(value, TIME_LEN - 1)))
    else if key == "close_time" then (c.0, c.1.(closeTime := Cut(value, TIME_LEN - 1)))
    else if key == "option" && |c.1.options| < MAX_OPTIONS then
      (c.0, c.1.(options := c.1.options + [Cut(value, OPTION_LEN - 1)]))
    else if key == "eligible" && |c.1.eligible| < MAX_VOTERS then
      (c.0, c.1.(eligible := c.1.eligible + [Cut(value, CERT_LEN - 1)]))
    else c
  }

  /** The ballot being filled in: its payload array, how much of it counts, and whether a payload line
      has been accepted. */
  datatype Filling = Filling(nonce: string, buf: seq<int>, len: nat, got: bool)

  function Zeros(n: nat): (z: seq<int>)
    ensures |z| == n && IsBytes(z)
  {
    if n == 0 then [] else [0] + Zeros(n - 1)
  }

  const EMPTY_FILLING := Filling("", Zeros(CIPHERTEXT_MAX), 0, false)

  predicate FillingOk(c: Filling) {
    |c.buf| == CIPHERTEXT_MAX && c.len <= CIPHERTEXT_MAX && IsBytes(c.buf)
  }

  /** These bytes over the front of the array. */
  function Over(buf: seq<int>, bytes: seq<int>): seq<int> {
    if |bytes| <= |buf| then bytes + buf[|bytes|..] else buf
  }

  /** ballot_kv: a payload line that is refused has still written its leading bytes. */
  function BallotKv(c: Filling, key: string, value: string): Filling {
    if key == "nonce" then c.(nonce := Cut(value, NONCE_LEN - 1))
    else if key == "payload" then
      var written := c.(buf := Over(c.buf, HexWritten(value, CIPHERTEXT_MAX)));
      match Unhex(value, CIPHERTEXT_MAX)
      case Some(payload) => written.(len := |payload|, got := true)
      case None => written
    else c
  }

  function Filled(c: Filling, cert: string): Ballot {
    BallotStore.Ballot(cert, c.nonce, if c.len <= |c.buf| then c.buf[..c.len] else c.buf)
  }

  function HashKv(hash: string, key: string, value: string): string {
    if key == "hash" then Cut(value, HASH_LEN - 1) else hash
  }

  function CertOf(http: Request): string {
    match Lookup(http.headers, CertName())
    case None => ""
    case Some(cert) => Cut(cert, CERT_LEN - 1)
  }

  /** bcl_decode_request */
  function Decode(http: Request): Option<Call> {
    match OpNamed(http.verb)
    case None => None
    case Some(op) =>
      var call := Blank(op, CertOf(http));
      if op.Create? then
        var (election, config) := Fold(CreateKv, ("", NoConfig()), ReadPairs(http.body));
        Some(call.(election := election, config := config))
      else if op.AdminNextId? then Some(call)
      else
        match PathId(http.path)
        case None => None
        case Some(id) =>
          var named := call.(election := id);
          if CarriesBallot(op) then
            var filling := Fold(BallotKv, EMPTY_FILLING, ReadPairs(http.body));
            if filling.got then Some(named.(ballot := Filled(filling, call.cert))) else None
          else if CarriesHash(op) then
            var hash := Fold(HashKv, "", ReadPairs(http.body));
            if hash == [] then None else Some(named.(hash := hash))
          else Some(named)
  }
}
