/**
 * Whole runs of the ballot daemon. The admin thread serialises requests
 * (ballotbox/src/ballotd/main.c:368-395), so a run is a sequence of completed store changes.
 */
module BallotRuns {
  import opened Basics
  import opened Tables
  import opened BallotStore
  import opened BallotBox
  import opened BallotIds
  import Receipts

  // ---- creating an election ----

  /** strcmp(a, b) <= 0, comparing bytes. */
  predicate NotAfter(a: string, b: string) {
    if a == [] then true
    else if b == [] then false
    else if a[0] != b[0] then a[0] < b[0]
    else NotAfter(a[1..], b[1..])
  }

  /** bb_validate_config */
  function Validate(c: Config): Code {
    if c.title == "" then ConfigTitle
    else if |c.options| < 2 then ConfigOptions
    else if NotAfter(c.closeTime, c.openTime) then ConfigTime
    else Ok
  }

  /** The id bb_create_election settles on, or the code it refuses with. */
  function ChosenId(s: Store, desired: Id, readOk: bool): Option<Id> {
    if desired == "" then Some(AllocId(s.elections, readOk))
    else if Load(s, desired).Some? then None
    else Some(desired)
  }

  /** bb_create_election's fault-free result. */
  function Created(s: Store, c: Config, desired: Id, readOk: bool): (Code, Store) {
    if Validate(c) != Ok then (Validate(c), s)
    else
      match ChosenId(s, desired, readOk)
      case None => (ConfigIdTaken, s)
      case Some(id) =>
        match Apply(s, id, IdSeq(id), InsertElection(c))
        case Broken => (DbError, s)
        case Done(t, _) => (Ok, t)
  }

  // ---- events ----

  datatype Event =
    | Create(config: Config, desired: Id, readOk: bool)
    | Move(election: Id, to: State)
    | Record(election: Id, ballot: Ballot)

  /** A completed request's effect. Requests that fail or only read leave the store alone and need no event. */
  function Next(s: Store, ev: Event): Store {
    match ev
    case Create(c, d, ok) => Created(s, c, d, ok).1
    case Move(e, to) => Transition(s, e, to).1
    case Record(e, b) => if Decide(s, e, b).Accept? then Decide(s, e, b).store else s
  }

  /** The two things the design takes on trust: receipt hashes do not repeat within an election, and
      an automatic id is not in one of the two cases where it is already taken. */
  ghost predicate Trusted(s: Store, ev: Event) {
    && (ev.Record? && Decide(s, ev.election, ev.ballot).Accept? ==>
          FreshHash(ev.election, BoxOf(s, ev.election), Decide(s, ev.election, ev.ballot).hash))
    && (ev.Create? && ev.desired == "" ==> !IdClash(s.elections, ev.readOk))
  }

  function Run(s: Store, evs: seq<Event>): Store
    decreases |evs|
  {
    if evs == [] then s else Run(Next(s, evs[0]), evs[1..])
  }

  ghost predicate TrustedRun(s: Store, evs: seq<Event>)
    decreases |evs|
  {
    evs == [] || (Trusted(s, evs[0]) && TrustedRun(Next(s, evs[0]), evs[1..]))
  }

  const EMPTY: Store := Store([], [], [], [], [], [])

  // ---- the invariant of every run ----

  ghost predicate Exists(s: Store, e: Id) {
    Where(s.elections, IsElection(e)) != []
  }

  function OptionRows(s: Store, e: Id): seq<OptionRow> {
    Where(s.options, OptionsIn(e))
  }

  function OptionCount(s: Store, e: Id): int {
    |OptionNames(OptionRows(s, e))|
  }

  ghost predicate UniqueIds(s: Store) {
    forall e :: |Where(s.elections, IsElection(e))| <= 1
  }

  /** No row of any table mentions an election that was never created. */
  ghost predicate NoTrace(s: Store, e: Id) {
    BoxOf(s, e) == Box([], [], []) && OptionRows(s, e) == [] && Where(s.eligible, EligibleIn(e)) == []
  }

  ghost predicate Sound(s: Store, e: Id) {
    && BoxInv(e, Eligible(s, e), OptionCount(s, e), BoxOf(s, e))
    && (!Exists(s, e) ==> NoTrace(s, e))
  }

  ghost predicate Inv(s: Store) {
    && UniqueIds(s)
    && SeqsFromIds(s.elections)
    && (forall e :: Sound(s, e))
  }

  /** What an event on another election leaves alone. */
  ghost predicate SameElection(s: Store, t: Store, e: Id) {
    && Where(t.elections, IsElection(e)) == Where(s.elections, IsElection(e))
    && SameContents(s, t, e)
  }

  ghost predicate SameContents(s: Store, t: Store, e: Id) {
    && BoxOf(t, e) == BoxOf(s, e)
    && OptionRows(t, e) == OptionRows(s, e)
    && Where(t.eligible, EligibleIn(e)) == Where(s.eligible, EligibleIn(e))
  }

  // ---- recording ----

  /** The row a recording adds. */
  function AddedRow(s: Store, e: Id, b: Ballot): BallotRow {
    var v := NextVersion(s, e, b.cert);
    BallotRow(e, Receipts.HashOf(b.nonce, v), OptionOf(b.payload), v, false)
  }

  /** A recording as one update of three tables. */
  lemma RecordedTables(s: Store, e: Id, b: Ballot)
    requires Recorded(s, e, b).Accept?
    ensures var d, added := Recorded(s, e, b), AddedRow(s, e, b);
            var mine := Where(s.owners, OwnedBy(e, b.cert));
            && d.hash == added.hash
            && d.store == s.(ballots := NewBallots(e, s.ballots, added, if mine == [] then None else Some(mine[0].hash)),
                             owners := NewOwners(e, s.owners, OwnerRow(e, b.cert, added.hash, added.version)),
                             nonces := s.nonces + [NonceRow(e, b.nonce)])
  {
    hide Receipts.HashOf, Where;
  }

  /** A recording changes one election's box, exactly as Cast says, and nothing else. */
  lemma RecordedBox(s: Store, e: Id, b: Ballot)
    requires Recorded(s, e, b).Accept?
    ensures var d := Recorded(s, e, b);
            && BoxOf(d.store, e) == Cast(e, BoxOf(s, e), b.cert, b.nonce, OptionOf(b.payload), d.hash)
            && d.hash == Receipts.HashOf(b.nonce, VersionFor(e, BoxOf(s, e), b.cert))
            && d.store.elections == s.elections && d.store.options == s.options && d.store.eligible == s.eligible
  {
    hide Receipts.HashOf, Where, Recorded, NewBallots, NewOwners;
    RecordedTables(s, e, b);
    WhereAbsorb(s.owners, OwnedBy(e, b.cert), OwnersIn(e));
    var added := AddedRow(s, e, b);
    BallotsSlice(s.ballots, e, added, PriorHash(e, BoxOf(s, e), b.cert));
    OwnersSlice(s.owners, e, OwnerRow(e, b.cert, added.hash, added.version));
    WhereAppend(s.nonces, NonceRow(e, b.nonce), NoncesIn(e));
  }

  lemma BallotsSlice(ballots: seq<BallotRow>, e: Id, added: BallotRow, prior: Option<string>)
    requires added.election == e
    ensures Where(NewBallots(e, ballots, added, prior), BallotsIn(e))
            == NewBallots(e, Where(ballots, BallotsIn(e)), added, prior)
  {
    WhereAppend(ballots, added, BallotsIn(e));
    if prior.Some? {
      var p := prior.value;
      var all := ballots + [added];
      WhereAbsorb(all, HashIs(e, p), BallotsIn(e));
      WhereCommute(all, Not(HashIs(e, p)), BallotsIn(e));
      var rows := Where(all, HashIs(e, p));
      if rows != [] {
        WhereAppend(Where(all, Not(HashIs(e, p))), BallotRow(e, p, rows[0].option, rows[0].version, true), BallotsIn(e));
      }
    }
  }

  lemma OwnersSlice(owners: seq<OwnerRow>, e: Id, o: OwnerRow)
    requires o.election == e
    ensures Where(NewOwners(e, owners, o), OwnersIn(e)) == NewOwners(e, Where(owners, OwnersIn(e)), o)
  {
    WhereCommute(owners, Not(OwnedBy(e, o.cert)), OwnersIn(e));
    WhereAppend(Where(owners, Not(OwnedBy(e, o.cert))), o, OwnersIn(e));
  }

  lemma RecordedElsewhere(s: Store, e: Id, b: Ballot, f: Id)
    requires Recorded(s, e, b).Accept? && f != e
    ensures SameElection(s, Recorded(s, e, b).store, f)
  {
    hide Receipts.HashOf, Where, Recorded, NewBallots;
    RecordedTables(s, e, b);
    var mine, added := Where(s.owners, OwnedBy(e, b.cert)), AddedRow(s, e, b);
    BallotsElsewhere(s.ballots, e, added, if mine == [] then None else Some(mine[0].hash), f);
    WhereAbsorb(s.owners, OwnersIn(f), Not(OwnedBy(e, b.cert)));
    WhereAppend(Where(s.owners, Not(OwnedBy(e, b.cert))), OwnerRow(e, b.cert, added.hash, added.version), OwnersIn(f));
    WhereAppend(s.nonces, NonceRow(e, b.nonce), NoncesIn(f));
  }

  lemma BallotsElsewhere(ballots: seq<BallotRow>, e: Id, added: BallotRow, prior: Option<string>, f: Id)
    requires added.election == e && f != e
    ensures Where(NewBallots(e, ballots, added, prior), BallotsIn(f)) == Where(ballots, BallotsIn(f))
  {
    WhereAppend(ballots, added, BallotsIn(f));
    if prior.Some? {
      var p := prior.value;
      var all := ballots + [added];
      WhereAbsorb(all, BallotsIn(f), Not(HashIs(e, p)));
      var rows := Where(all, HashIs(e, p));
      if rows != [] {
        WhereAppend(Where(all, Not(HashIs(e, p))), BallotRow(e, p, rows[0].option, rows[0].version, true), BallotsIn(f));
      }
    }
  }

  lemma SoundElsewhere(s: Store, t: Store, e: Id)
    requires Sound(s, e) && SameElection(s, t, e)
    ensures Sound(t, e)
  {
    hide BoxInv, BoxOf;
  }

  /** What an accepted ballot has been checked for. */
  lemma AcceptFacts(s: Store, e: Id, b: Ballot)
    requires Decide(s, e, b).Accept?
    ensures Decide(s, e, b) == Recorded(s, e, b)
    ensures Exists(s, e) && Where(s.elections, IsElection(e))[0].state == Open
    ensures b.cert in Eligible(s, e) && 0 <= OptionOf(b.payload) < OptionCount(s, e)
    ensures Where(BoxOf(s, e).nonces, NonceIs(e, b.nonce)) == []
  {
    hide Recorded, OptionNames, Eligible, Where;
    WhereAbsorb(s.nonces, NonceIs(e, b.nonce), NoncesIn(e));
  }

  lemma RecordSound(s: Store, e: Id, b: Ballot)
    requires Sound(s, e) && Decide(s, e, b).Accept? && FreshHash(e, BoxOf(s, e), Decide(s, e, b).hash)
    ensures Sound(Decide(s, e, b).store, e)
  {
    hide BoxInv, Recorded, Decide, Cast, OptionNames, FreshHash, Where, BoxOf, Receipts.HashOf;
    AcceptFacts(s, e, b);
    RecordedBox(s, e, b);
    CastKeeps(e, Eligible(s, e), OptionCount(s, e), BoxOf(s, e), b.cert, b.nonce, OptionOf(b.payload),
              Decide(s, e, b).hash);
  }

  /** Accepting a ballot with a fresh hash keeps the invariant of the whole store. */
  lemma RecordKeeps(s: Store, e: Id, b: Ballot)
    requires Inv(s) && Decide(s, e, b).Accept? && FreshHash(e, BoxOf(s, e), Decide(s, e, b).hash)
    ensures Inv(Decide(s, e, b).store)
  {
    hide Recorded, Decide, Where, Sound, BoxOf, SameElection, Receipts.HashOf, FreshHash, IdSeq;
    AcceptFacts(s, e, b);
    var d := Decide(s, e, b);
    forall f
      ensures Sound(d.store, f)
    {
      if f == e {
        RecordSound(s, e, b);
      } else {
        RecordedElsewhere(s, e, b, f);
        SoundElsewhere(s, d.store, f);
      }
    }
    RecordedBox(s, e, b);
  }

  // ---- lifecycle moves ----

  lemma MovedElections(s: Store, e: Id, to: State, f: Id)
    requires UniqueIds(s) && Exists(s, e)
    ensures StateChanged(s, e, to).Some?
    ensures var t := StateChanged(s, e, to).value;
            Where(t.elections, IsElection(f))
            == if f == e then [Where(s.elections, IsElection(e))[0].(state := to)] else Where(s.elections, IsElection(f))
  {
    var row := Where(s.elections, IsElection(e))[0];
    WhereIn(s.elections, IsElection(e), row);
    var rest := Where(s.elections, Not(IsElection(e)));
    WhereAppend(rest, row.(state := to), IsElection(f));
    if f == e {
      WhereCommute(s.elections, Not(IsElection(e)), IsElection(e));
      forall r | r in Where(s.elections, IsElection(e))
        ensures !Not(IsElection(e))(r)
      {
        WhereIn(s.elections, IsElection(e), r);
      }
      WhereNone(Where(s.elections, IsElection(e)), Not(IsElection(e)));
    } else {
      WhereAbsorb(s.elections, IsElection(f), Not(IsElection(e)));
    }
  }

  lemma MoveKeeps(s: Store, e: Id, to: State)
    requires Inv(s) && Transition(s, e, to).0 == Ok
    ensures Inv(Transition(s, e, to).1)
  {
    hide Where, BoxInv, IdSeq, OptionNames;
    var t := Transition(s, e, to).1;
    forall f
      ensures Sound(t, f) && |Where(t.elections, IsElection(f))| <= 1
    {
      MovedElections(s, e, to, f);
      assert Sound(s, f);
    }
    forall r | r in t.elections
      ensures r.seqNo == IdSeq(r.id)
    {
      WhereIn(s.elections, Not(IsElection(e)), r);
      WhereIn(s.elections, IsElection(e), Where(s.elections, IsElection(e))[0]);
    }
  }

  // ---- creation ----

  lemma {:induction false} WhereElsewhere<T>(rows: seq<T>, more: seq<T>, p: T -> bool)
    requires forall r :: r in more ==> !p(r)
    ensures Where(rows + more, p) == Where(rows, p)
  {
    WhereConcat(rows, more, p);
    WhereNone(more, p);
  }

  /** A new id leaves every other election as it was, and starts with an empty box. */
  lemma InsertKeeps(s: Store, id: Id, c: Config)
    requires Inv(s) && !Exists(s, id)
    ensures Inv(Inserted(s, id, IdSeq(id), c))
  {
    hide Where, BoxInv, IdSeq, Sound;
    var t := Inserted(s, id, IdSeq(id), c);
    forall f
      ensures Sound(t, f) && |Where(t.elections, IsElection(f))| <= 1
    {
      WhereAppend(s.elections, ElectionRow(IdSeq(id), id, c.title, Draft, c.openTime, c.closeTime), IsElection(f));
      if f == id {
        InsertedSound(s, id, c);
      } else {
        WhereElsewhere(s.options, OptionRowsOf(id, Take(c.options, MAX_OPTIONS)), OptionsIn(f));
        WhereElsewhere(s.eligible, EligibleRowsOf(id, Take(c.eligible, MAX_VOTERS)), EligibleIn(f));
        SoundElsewhere(s, t, f);
      }
    }
  }

  lemma InsertedSound(s: Store, id: Id, c: Config)
    requires Sound(s, id) && !Exists(s, id)
    ensures Sound(Inserted(s, id, IdSeq(id), c), id)
  {
    hide IdSeq;
    var t := Inserted(s, id, IdSeq(id), c);
    WhereAppend(s.elections, ElectionRow(IdSeq(id), id, c.title, Draft, c.openTime, c.closeTime), IsElection(id));
    assert BoxOf(t, id) == Box([], [], []);
    EmptyBox(id, Eligible(t, id), OptionCount(t, id));
  }

  lemma EmptyBox(e: Id, eligible: seq<string>, options: int)
    ensures BoxInv(e, eligible, options, Box([], [], []))
  {
  }

  lemma ExistsIsTaken(s: Store, e: Id)
    ensures Exists(s, e) <==> Taken(s.elections, e)
  {
    if Taken(s.elections, e) {
      var r :| r in s.elections && r.id == e;
      WhereIn(s.elections, IsElection(e), r);
    } else {
      WhereNone(s.elections, IsElection(e));
    }
  }

  /** The id a creation settles on is in use exactly when it is automatic and in one of the two cases
      where an automatic id is. */
  lemma ChosenIdTakenIff(s: Store, desired: Id, readOk: bool)
    requires SeqsFromIds(s.elections) && ChosenId(s, desired, readOk).Some?
    ensures Exists(s, ChosenId(s, desired, readOk).value) <==> desired == "" && IdClash(s.elections, readOk)
  {
    hide IdSeq, AllocId, IdClash, Taken;
    if desired == "" {
      ExistsIsTaken(s, AllocId(s.elections, readOk));
      AllocatedIdTakenIff(s.elections, readOk);
    }
  }

  lemma CreateKeeps(s: Store, c: Config, desired: Id, readOk: bool)
    requires Inv(s) && Trusted(s, Create(c, desired, readOk))
    ensures Inv(Created(s, c, desired, readOk).1)
  {
    hide Where, Sound, UniqueIds, IdSeq, AllocId, Inserted, StorableConfig, Load, Decide, Validate, MaxSeq, IdClash;
    if Created(s, c, desired, readOk).0 == Ok {
      ChosenIdTakenIff(s, desired, readOk);
      InsertKeeps(s, ChosenId(s, desired, readOk).value, c);
    }
  }

  // ---- whole runs ----

  lemma NextKeeps(s: Store, ev: Event)
    requires Inv(s) && Trusted(s, ev)
    ensures Inv(Next(s, ev))
  {
    hide Inv, Created, Transition, Decide;
    match ev
    case Create(c, d, ok) => CreateKeeps(s, c, d, ok);
    case Move(e, to) =>
      MoveRefusedKeeps(s, e, to);
      if Transition(s, e, to).0 == Ok {
        MoveKeeps(s, e, to);
      }
    case Record(e, b) =>
      if Decide(s, e, b).Accept? {
        RecordKeeps(s, e, b);
      }
  }

  lemma MoveRefusedKeeps(s: Store, e: Id, to: State)
    ensures Transition(s, e, to).0 != Ok ==> Transition(s, e, to).1 == s
  {
  }

  lemma InitialInv()
    ensures Inv(EMPTY)
  {
    forall e
      ensures Sound(EMPTY, e)
    {
      EmptyBox(e, Eligible(EMPTY, e), OptionCount(EMPTY, e));
    }
  }

  /** Every trusted run keeps the invariant: one counted ballot a voter, every table in balance. */
  lemma {:induction false} RunKeeps(s: Store, evs: seq<Event>)
    requires Inv(s) && TrustedRun(s, evs)
    ensures Inv(Run(s, evs))
    decreases |evs|
  {
    hide Inv, Next, Trusted;
    if evs != [] {
      NextKeeps(s, evs[0]);
      RunKeeps(Next(s, evs[0]), evs[1..]);
    }
  }
}
