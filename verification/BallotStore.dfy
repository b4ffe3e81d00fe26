/**
 * The ballot store as six tables, what each storage command does to them when no statement fails,
 * and the decision bb_record_ballot takes from a store
 * (ballotbox/src/libballotbrain/db.c, handlers.c, lifecycle.c, config.c).
 */
module BallotStore {
  import opened Basics
  import opened Tables
  import Receipts

  const MAX_OPTIONS := 16
  const MAX_VOTERS := 64

  type Id = string

  datatype State = Draft | Open | Closed | Published

  /** bb_result_t */
  datatype Code =
    | Ok
    | ConfigTitle | ConfigOptions | ConfigTime | ConfigIdTaken
    | IllegalTransition | NotOpen | ElectionClosed | NotPublished
    | NotEligible | CertInvalid | CertExpired
    | BadOption | Replay | Decrypt
    | NotFound | NotJoined
    | DbError | NotImplemented | Retry

  datatype Config = Config(
    title: string, options: seq<string>, eligible: seq<string>, openTime: string, closeTime: string)

  // ---- rows ----

  datatype ElectionRow = ElectionRow(
    seqNo: int, id: Id, title: string, state: State, openTime: string, closeTime: string)
  datatype OptionRow = OptionRow(election: Id, idx: int, name: string)
  datatype EligibleRow = EligibleRow(election: Id, cert: string)
  datatype BallotRow = BallotRow(election: Id, hash: string, option: int, version: int, superseded: bool)
  datatype OwnerRow = OwnerRow(election: Id, cert: string, hash: string, version: int)
  datatype NonceRow = NonceRow(election: Id, nonce: string)

  datatype Store = Store(
    elections: seq<ElectionRow>,
    options: seq<OptionRow>,
    eligible: seq<EligibleRow>,
    ballots: seq<BallotRow>,
    owners: seq<OwnerRow>,
    nonces: seq<NonceRow>)

  // ---- where-clauses ----

  function IsElection(e: Id): ElectionRow -> bool { (r: ElectionRow) => r.id == e }
  function OptionsIn(e: Id): OptionRow -> bool { (r: OptionRow) => r.election == e }
  function EligibleIn(e: Id): EligibleRow -> bool { (r: EligibleRow) => r.election == e }
  function BallotsIn(e: Id): BallotRow -> bool { (r: BallotRow) => r.election == e }
  function HashIs(e: Id, h: string): BallotRow -> bool { (r: BallotRow) => r.election == e && r.hash == h }
  function LiveIn(e: Id): BallotRow -> bool { (r: BallotRow) => r.election == e && !r.superseded }
  function LiveHash(e: Id, h: string): BallotRow -> bool {
    (r: BallotRow) => r.election == e && r.hash == h && !r.superseded
  }
  function LiveFor(e: Id, i: int): BallotRow -> bool {
    (r: BallotRow) => r.election == e && !r.superseded && r.option == i
  }
  function OwnersIn(e: Id): OwnerRow -> bool { (r: OwnerRow) => r.election == e }
  function OwnedBy(e: Id, c: string): OwnerRow -> bool { (r: OwnerRow) => r.election == e && r.cert == c }
  function NoncesIn(e: Id): NonceRow -> bool { (r: NonceRow) => r.election == e }
  function NonceIs(e: Id, n: string): NonceRow -> bool { (r: NonceRow) => r.election == e && r.nonce == n }

  // ---- reading an election ----

  /** An election as run_get_election assembles it from three tables. */
  datatype Election = Election(
    id: Id, title: string, state: State, options: seq<string>, eligible: seq<string>,
    openTime: string, closeTime: string)

  function Take<T>(s: seq<T>, n: nat): (t: seq<T>)
    ensures |t| <= n && |t| <= |s| && t == s[..|t|]
    ensures |s| <= n ==> t == s
  {
    if |s| <= n then s else s[..n]
  }

  /** The name the last row with this index leaves in the options array. */
  function OptionAt(rows: seq<OptionRow>, i: int): string {
    if rows == [] then ""
    else if rows[|rows| - 1].idx == i then rows[|rows| - 1].name
    else OptionAt(rows[..|rows| - 1], i)
  }

  function OptionNames(rows: seq<OptionRow>): (names: seq<string>)
    ensures |names| == if |rows| < MAX_OPTIONS then |rows| else MAX_OPTIONS
    ensures forall i :: 0 <= i < |names| ==> names[i] == OptionAt(rows, i)
  {
    seq(if |rows| < MAX_OPTIONS then |rows| else MAX_OPTIONS, i requires i >= 0 => OptionAt(rows, i))
  }

  function CertNames(rows: seq<EligibleRow>): (names: seq<string>)
    ensures |names| == |rows|
    ensures forall i :: 0 <= i < |names| ==> names[i] == rows[i].cert
  {
    seq(|rows|, i requires 0 <= i < |rows| => rows[i].cert)
  }

  function Eligible(s: Store, e: Id): (names: seq<string>)
    ensures |names| <= MAX_VOTERS
  {
    Take(CertNames(Where(s.eligible, EligibleIn(e))), MAX_VOTERS)
  }

  function Load(s: Store, e: Id): (r: Option<Election>) {
    var rows := Where(s.elections, IsElection(e));
    if rows == [] then None
    else Some(Election(rows[0].id, rows[0].title, rows[0].state, OptionNames(Where(s.options, OptionsIn(e))),
                       Eligible(s, e), rows[0].openTime, rows[0].closeTime))
  }

  // ---- commands ----

  datatype Cmd =
    | InsertElection(config: Config)
    | UpdateState(to: State)
    | AppendBallot(row: BallotRow)
    | MarkSuperseded(hash: string)
    | NonceMark(nonce: string)
    | SetOwner(cert: string, hash: string, version: int)
    | GetElection
    | GetTally
    | GetHashes
    | FindHash(hash: string)
    | NonceSeen(nonce: string)
    | GetPriorBallot(cert: string)

  predicate IsWrite(c: Cmd) {
    c.InsertElection? || c.UpdateState? || c.AppendBallot? || c.MarkSuperseded? || c.NonceMark? || c.SetOwner?
  }

  /** What a read hands back; writes hand back Nothing. */
  datatype Reply =
    | Nothing
    | Found(election: Option<Election>)
    | Tally(counts: seq<int>)
    | Hashes(rows: seq<BallotRow>)
    | FoundRow(row: Option<BallotRow>)
    | Seen(seen: bool)
    | Prior(owner: Option<OwnerRow>)

  /** A command either completes on a new store or reports BB_ERR_DB of its own accord. */
  datatype Done = Done(store: Store, reply: Reply) | Broken

  /** The seam-level backstop against separators in stored text. */
  predicate Unsafe(s: string) {
    '\t' in s || '\n' in s || '\r' in s
  }

  predicate AllSafe(s: seq<string>) {
    forall i :: 0 <= i < |s| ==> !Unsafe(s[i])
  }

  predicate StorableConfig(e: Id, c: Config) {
    && !Unsafe(e) && !Unsafe(c.title) && !Unsafe(c.openTime) && !Unsafe(c.closeTime)
    && AllSafe(Take(c.options, MAX_OPTIONS)) && AllSafe(Take(c.eligible, MAX_VOTERS))
  }

  function OptionRowsOf(e: Id, names: seq<string>): (rows: seq<OptionRow>)
    ensures |rows| == |names|
    ensures forall i :: 0 <= i < |rows| ==> rows[i] == OptionRow(e, i, names[i])
  {
    seq(|names|, i requires 0 <= i < |names| => OptionRow(e, i, names[i]))
  }

  function EligibleRowsOf(e: Id, names: seq<string>): (rows: seq<EligibleRow>)
    ensures |rows| == |names|
    ensures forall i :: 0 <= i < |rows| ==> rows[i] == EligibleRow(e, names[i])
  {
    seq(|names|, i requires 0 <= i < |names| => EligibleRow(e, names[i]))
  }

  function Inserted(s: Store, e: Id, seqNo: int, c: Config): Store {
    s.(elections := s.elections + [ElectionRow(seqNo, e, c.title, Draft, c.openTime, c.closeTime)],
       options := s.options + OptionRowsOf(e, Take(c.options, MAX_OPTIONS)),
       eligible := s.eligible + EligibleRowsOf(e, Take(c.eligible, MAX_VOTERS)))
  }

  /** Delete the election's row and reinsert it with the new state, every other column carried over. */
  function StateChanged(s: Store, e: Id, to: State): Option<Store> {
    var rows := Where(s.elections, IsElection(e));
    if rows == [] then None
    else Some(s.(elections := Where(s.elections, Not(IsElection(e))) + [rows[0].(id := e, state := to)]))
  }

  /** Delete by hash, reinsert one row marked superseded. */
  function Superseded(s: Store, e: Id, h: string): Option<Store> {
    var rows := Where(s.ballots, HashIs(e, h));
    if rows == [] then None
    else Some(s.(ballots := Where(s.ballots, Not(HashIs(e, h)))
                            + [BallotRow(e, h, rows[0].option, rows[0].version, true)]))
  }

  function OwnerSet(s: Store, e: Id, c: string, h: string, version: int): Store {
    s.(owners := Where(s.owners, Not(OwnedBy(e, c))) + [OwnerRow(e, c, h, version)])
  }

  function TallyOf(rows: seq<BallotRow>, e: Id): (t: seq<int>)
    ensures |t| == MAX_OPTIONS
    ensures forall i :: 0 <= i < MAX_OPTIONS ==> t[i] == |Where(rows, LiveFor(e, i))|
  {
    seq(MAX_OPTIONS, i requires 0 <= i < MAX_OPTIONS => |Where(rows, LiveFor(e, i))|)
  }

  function FirstRow<T>(rows: seq<T>): Option<T> {
    if rows == [] then None else Some(rows[0])
  }

  /** The fault-free effect of a command on election e. `seqNo` is what id_seq makes of the id. */
  function Apply(s: Store, e: Id, seqNo: int, c: Cmd): Done {
    match c
    case InsertElection(cfg) =>
      if StorableConfig(e, cfg) then Done(Inserted(s, e, seqNo, cfg), Nothing) else Broken
    case UpdateState(to) =>
      (match StateChanged(s, e, to)
       case None => Broken
       case Some(t) => Done(t, Nothing))
    case AppendBallot(row) => Done(s.(ballots := s.ballots + [row]), Nothing)
    case MarkSuperseded(h) =>
      (match Superseded(s, e, h)
       case None => Broken
       case Some(t) => Done(t, Nothing))
    case NonceMark(n) => Done(s.(nonces := s.nonces + [NonceRow(e, n)]), Nothing)
    case SetOwner(cert, h, v) => Done(OwnerSet(s, e, cert, h, v), Nothing)
    case GetElection => Done(s, Found(Load(s, e)))
    case GetTally => Done(s, Tally(TallyOf(s.ballots, e)))
    case GetHashes => Done(s, Hashes(Take(Where(s.ballots, LiveIn(e)), MAX_VOTERS)))
    case FindHash(h) => Done(s, FoundRow(FirstRow(Where(s.ballots, LiveHash(e, h)))))
    case NonceSeen(n) => Done(s, Seen(Where(s.nonces, NonceIs(e, n)) != []))
    case GetPriorBallot(cert) => Done(s, Prior(FirstRow(Where(s.owners, OwnedBy(e, cert)))))
  }

  // ---- recording a ballot ----

  datatype Ballot = Ballot(cert: string, nonce: string, payload: seq<int>)

  /** bb_decrypt_ballot's placeholder: the option index is the first payload byte. */
  function OptionOf(payload: seq<int>): int {
    if |payload| > 0 then payload[0] else 0
  }

  /** The outcome of one whole read-check-write pass over a store when no statement fails, with the
      number of statements it takes to get there. */
  datatype Decision =
    | Refuse(code: Code, statements: nat)
    | Accept(store: Store, hash: string, statements: nat)

  /** The owner row and nonce that close a recording. */
  function Finished(s: Store, e: Id, b: Ballot, h: string, version: int): Store {
    var t := OwnerSet(s, e, b.cert, h, version);
    t.(nonces := t.nonces + [NonceRow(e, b.nonce)])
  }

  /** Version the next ballot of this voter gets. */
  function NextVersion(s: Store, e: Id, cert: string): int {
    var mine := Where(s.owners, OwnedBy(e, cert));
    if mine == [] then 1 else mine[0].version + 1
  }

  /** record_ballot_locked's writes, once every check has passed. */
  function Recorded(s: Store, e: Id, b: Ballot): Decision {
    var mine := Where(s.owners, OwnedBy(e, b.cert));
    var version := NextVersion(s, e, b.cert);
    var h := Receipts.HashOf(b.nonce, version);
    var appended := s.(ballots := s.ballots + [BallotRow(e, h, OptionOf(b.payload), version, false)]);
    if mine == [] then Accept(Finished(appended, e, b, h, version), h, 9)
    else
      match Superseded(appended, e, mine[0].hash)
      case None => Refuse(DbError, 7)
      case Some(marked) => Accept(Finished(marked, e, b, h, version), h, 12)
  }

  /** record_ballot_locked: the checks in order, then the writes. */
  function Decide(s: Store, e: Id, b: Ballot): Decision {
    match Load(s, e)
    case None => Refuse(NotFound, 1)
    case Some(el) =>
      if el.state == Closed || el.state == Published then Refuse(ElectionClosed, 3)
      else if el.state != Open then Refuse(NotOpen, 3)
      else if b.cert !in el.eligible then Refuse(NotEligible, 3)
      else if !(0 <= OptionOf(b.payload) < |el.options|) then Refuse(BadOption, 3)
      else if Where(s.nonces, NonceIs(e, b.nonce)) != [] then Refuse(Replay, 4)
      else Recorded(s, e, b)
  }

  // ---- lifecycle ----

  /** bb_is_legal_transition */
  predicate Legal(from: State, to: State) {
    match from
    case Draft => to == Open
    case Open => to == Closed
    case Closed => to == Published
    case Published => false
  }

  /** bb_transition_state's fault-free result. */
  function Transition(s: Store, e: Id, to: State): (Code, Store) {
    match Load(s, e)
    case None => (NotFound, s)
    case Some(el) =>
      if !Legal(el.state, to) then (IllegalTransition, s)
      else
        match StateChanged(s, e, to)
        case None => (DbError, s)
        case Some(t) => (Ok, t)
  }
}
