/**
 * What the invariant of BallotRuns means for voters and observers: counts, tallies, frozen
 * elections, the life of a receipt, and what a repeated receipt hash would cost.
 */
module BallotLaws {
  import opened Basics
  import opened Tables
  import opened BallotStore
  import opened BallotBox
  import opened BallotIds
  import opened Decimal
  import opened BallotRuns

  // ---- counts ----

  /** Total of the first n tally entries. */
  ghost function TallySum(rows: seq<BallotRow>, e: Id, n: nat): nat {
    if n == 0 then 0 else TallySum(rows, e, n - 1) + |Where(rows, LiveFor(e, n - 1))|
  }

  ghost function LiveBelow(e: Id, n: int): BallotRow -> bool {
    (r: BallotRow) => r.election == e && !r.superseded && 0 <= r.option < n
  }

  lemma {:induction false} TallySumCounts(rows: seq<BallotRow>, e: Id, n: nat)
    ensures TallySum(rows, e, n) == |Where(rows, LiveBelow(e, n))|
  {
    if n == 0 {
      WhereNone(rows, LiveBelow(e, 0));
    } else {
      TallySumCounts(rows, e, n - 1);
      TallyStep(rows, e, n - 1);
    }
  }

  lemma {:induction false} TallyStep(rows: seq<BallotRow>, e: Id, n: nat)
    ensures |Where(rows, LiveBelow(e, n + 1))| == |Where(rows, LiveBelow(e, n))| + |Where(rows, LiveFor(e, n))|
  {
    if rows != [] {
      TallyStep(rows[..|rows| - 1], e, n);
    }
  }

  /** The published tally adds up to the live rows, hence to the voters who hold a ballot. */
  lemma TallyIsVoters(s: Store, e: Id)
    requires Inv(s)
    ensures TallySum(s.ballots, e, MAX_OPTIONS) == |Where(s.ballots, LiveIn(e))| == |Where(s.owners, OwnersIn(e))|
  {
    hide Where, Backed, UniqueHashes, UniqueOwners, UniqueNonces, LiveOwned, UniqueIds, IdSeq;
    assert Sound(s, e);
    TallySumCounts(s.ballots, e, MAX_OPTIONS);
    var mine := BoxOf(s, e).ballots;
    WhereAbsorb(s.ballots, LiveBelow(e, MAX_OPTIONS), BallotsIn(e));
    WhereAbsorb(s.ballots, LiveIn(e), BallotsIn(e));
    LiveBelowIsLive(mine, e);
  }

  lemma {:induction false} LiveBelowIsLive(rows: seq<BallotRow>, e: Id)
    requires forall b :: b in rows ==> 0 <= b.option < MAX_OPTIONS
    ensures Where(rows, LiveBelow(e, MAX_OPTIONS)) == Where(rows, LiveIn(e))
  {
    if rows != [] {
      assert rows[|rows| - 1] in rows;
      LiveBelowIsLive(rows[..|rows| - 1], e);
    }
  }

  ghost function Certs(owners: seq<OwnerRow>): set<string> {
    set o | o in owners :: o.cert
  }

  /** Distinct voters: as many certificates as owner rows. */
  lemma {:induction false} CertsDistinct(e: Id, owners: seq<OwnerRow>)
    requires forall o :: o in owners ==> o.election == e
    requires forall c :: |Where(owners, OwnedBy(e, c))| <= 1
    ensures |Certs(owners)| == |owners|
  {
    if owners != [] {
      var front, last := owners[..|owners| - 1], owners[|owners| - 1];
      forall c
        ensures |Where(front, OwnedBy(e, c))| <= 1
      {
        assert |Where(owners, OwnedBy(e, c))| <= 1;
      }
      CertsDistinct(e, front);
      assert |Where(owners, OwnedBy(e, last.cert))| <= 1;
      assert last.cert !in Certs(front) by {
        if last.cert in Certs(front) {
          var o :| o in front && o.cert == last.cert;
          WhereIn(front, OwnedBy(e, last.cert), o);
        }
      }
      assert Certs(owners) == Certs(front) + {last.cert};
    }
  }

  lemma {:induction false} SetAtMostSeq(names: seq<string>, s: set<string>)
    requires forall c :: c in s ==> c in names
    ensures |s| <= |names|
  {
    if names == [] {
      assert s == {};
    } else {
      var last := names[|names| - 1];
      SetAtMostSeq(names[..|names| - 1], s - {last});
    }
  }

  /** Live ballots never outnumber the eligible list, so the 64-row cap never truncates. */
  lemma LiveAtMostEligible(s: Store, e: Id)
    requires Inv(s)
    ensures |Where(s.ballots, LiveIn(e))| <= |Eligible(s, e)| <= MAX_VOTERS
  {
    hide Where, Backed, UniqueHashes, UniqueNonces, LiveOwned, UniqueIds, IdSeq, Eligible;
    assert Sound(s, e);
    TallyIsVoters(s, e);
    var owners := BoxOf(s, e).owners;
    CertsDistinct(e, owners);
    SetAtMostSeq(Eligible(s, e), Certs(owners));
  }

  // ---- results ----

  datatype Results = Results(title: string, options: seq<string>, tally: seq<int>, hashes: seq<BallotRow>)

  /** fetch_results once the election is loaded. */
  function ResultsOf(s: Store, e: Id, el: Election): Results {
    Results(el.title, el.options, Take(TallyOf(s.ballots, e), |el.options|), Take(Where(s.ballots, LiveIn(e)), MAX_VOTERS))
  }

  /** The listed hashes are all the live rows, and for each option their number is its tally. */
  lemma HashesMatchTally(s: Store, e: Id, i: int)
    requires Inv(s) && Load(s, e).Some? && 0 <= i < |Load(s, e).value.options|
    ensures |Load(s, e).value.options| <= MAX_OPTIONS
    ensures var r := ResultsOf(s, e, Load(s, e).value);
            r.hashes == Where(s.ballots, LiveIn(e)) && |Where(r.hashes, LiveFor(e, i))| == r.tally[i]
  {
    hide Inv, Where, OptionNames;
    LiveAtMostEligible(s, e);
    WhereAbsorb(s.ballots, LiveFor(e, i), LiveIn(e));
  }

  // ---- the state machine and frozen elections ----

  ghost function StateOf(s: Store, e: Id): State
    requires Exists(s, e)
  {
    Where(s.elections, IsElection(e))[0].state
  }

  /** The election's own columns other than its state. */
  ghost predicate SameColumns(s: Store, t: Store, e: Id)
    requires Exists(s, e) && Exists(t, e)
  {
    Where(t.elections, IsElection(e))[0] == Where(s.elections, IsElection(e))[0].(state := StateOf(t, e))
  }

  /** One event: an election never disappears and its state stays or takes one legal step; once it
      is closed, its ballots, owners, nonces, options and voters are fixed. */
  lemma EventOnElection(s: Store, ev: Event, e: Id)
    requires Inv(s) && Trusted(s, ev) && Exists(s, e)
    ensures var t := Next(s, ev);
            && Exists(t, e) && SameColumns(s, t, e)
            && (StateOf(t, e) == StateOf(s, e) || Legal(StateOf(s, e), StateOf(t, e)))
            && (StateOf(s, e) != Open ==> SameContents(s, t, e))
  {
    hide Sound, Decide, Recorded, Created, Transition, Where, IdSeq, BoxOf, OptionRows, MaxSeq;
    match ev
    case Create(c, d, ok) => CreateOnElection(s, c, d, ok, e);
    case Move(f, to) => MoveOnElection(s, f, to, e);
    case Record(f, b) => RecordOnElection(s, f, b, e);
  }

  lemma CreateOnElection(s: Store, c: Config, desired: Id, readOk: bool, e: Id)
    requires SeqsFromIds(s.elections) && Trusted(s, Create(c, desired, readOk)) && Exists(s, e)
    ensures SameElection(s, Created(s, c, desired, readOk).1, e)
  {
    hide Where, IdSeq, AllocId, StorableConfig, Load, Decide, Validate, MaxSeq, IdClash;
    if Created(s, c, desired, readOk).0 == Ok {
      ChosenIdTakenIff(s, desired, readOk);
      var id := ChosenId(s, desired, readOk).value;
      WhereAppend(s.elections, ElectionRow(IdSeq(id), id, c.title, Draft, c.openTime, c.closeTime), IsElection(e));
      WhereElsewhere(s.options, OptionRowsOf(id, Take(c.options, MAX_OPTIONS)), OptionsIn(e));
      WhereElsewhere(s.eligible, EligibleRowsOf(id, Take(c.eligible, MAX_VOTERS)), EligibleIn(e));
    }
  }

  lemma MoveOnElection(s: Store, f: Id, to: State, e: Id)
    requires UniqueIds(s) && Exists(s, e)
    ensures var t := Transition(s, f, to).1;
            && Exists(t, e) && SameColumns(s, t, e) && SameContents(s, t, e)
            && (StateOf(t, e) == StateOf(s, e) || Legal(StateOf(s, e), StateOf(t, e)))
  {
    hide Where;
    if Transition(s, f, to).0 == Ok {
      MovedElections(s, f, to, e);
    }
  }

  lemma RecordOnElection(s: Store, f: Id, b: Ballot, e: Id)
    requires Exists(s, e)
    ensures var t := Next(s, Record(f, b));
            && t.elections == s.elections
            && (StateOf(s, e) != Open ==> SameContents(s, t, e))
  {
    hide Decide, Recorded, Where, BoxOf;
    if Decide(s, f, b).Accept? {
      AcceptFacts(s, f, b);
      RecordedBox(s, f, b);
      if f != e {
        RecordedElsewhere(s, f, b, e);
      }
    }
  }

  function Rank(st: State): nat {
    match st
    case Draft => 0
    case Open => 1
    case Closed => 2
    case Published => 3
  }

  /** From the moment an election is closed, no run changes a row of it, and its state only advances. */
  lemma {:induction false} ClosedIsFrozen(s: Store, evs: seq<Event>, e: Id)
    requires Inv(s) && TrustedRun(s, evs) && Exists(s, e) && Rank(StateOf(s, e)) >= 2
    ensures var t := Run(s, evs);
            && Exists(t, e) && SameColumns(s, t, e) && SameContents(s, t, e)
            && Rank(StateOf(t, e)) >= Rank(StateOf(s, e))
    decreases |evs|
  {
    hide Inv, Next, Trusted, Where, BoxOf, OptionRows;
    if evs != [] {
      NextKeeps(s, evs[0]);
      EventOnElection(s, evs[0], e);
      ClosedIsFrozen(Next(s, evs[0]), evs[1..], e);
    }
  }

  /** In any run the state never goes backwards. */
  lemma {:induction false} StateAdvances(s: Store, evs: seq<Event>, e: Id)
    requires Inv(s) && TrustedRun(s, evs) && Exists(s, e)
    ensures Exists(Run(s, evs), e) && Rank(StateOf(Run(s, evs), e)) >= Rank(StateOf(s, e))
    decreases |evs|
  {
    hide Inv, Next, Trusted, Where, BoxOf, OptionRows;
    if evs != [] {
      NextKeeps(s, evs[0]);
      EventOnElection(s, evs[0], e);
      StateAdvances(Next(s, evs[0]), evs[1..], e);
    }
  }

  /** Every results read after publication returns the same title, options, tally and hashes. */
  lemma PublishedResultsFixed(s: Store, evs: seq<Event>, e: Id)
    requires Inv(s) && TrustedRun(s, evs) && Exists(s, e) && StateOf(s, e) == Published
    ensures Load(Run(s, evs), e) == Load(s, e) && Load(s, e).Some?
    ensures ResultsOf(Run(s, evs), e, Load(s, e).value) == ResultsOf(s, e, Load(s, e).value)
  {
    hide Inv, TrustedRun, Where, OptionNames, CertNames;
    ClosedIsFrozen(s, evs, e);
    var t := Run(s, evs);
    WhereAbsorb(s.ballots, LiveIn(e), BallotsIn(e));
    WhereAbsorb(t.ballots, LiveIn(e), BallotsIn(e));
    forall i | 0 <= i < MAX_OPTIONS
      ensures TallyOf(t.ballots, e)[i] == TallyOf(s.ballots, e)[i]
    {
      WhereAbsorb(s.ballots, LiveFor(e, i), BallotsIn(e));
      WhereAbsorb(t.ballots, LiveFor(e, i), BallotsIn(e));
    }
    assert TallyOf(t.ballots, e) == TallyOf(s.ballots, e);
  }

  // ---- the life of a receipt ----

  /** What FIND_HASH answers for a receipt. */
  function Lookup(s: Store, e: Id, h: string): Option<BallotRow> {
    FirstRow(Where(s.ballots, LiveHash(e, h)))
  }

  /** Voter c's current ballot in e is the row `row`, live and alone under its hash. */
  ghost predicate Holds(e: Id, x: Box, c: string, row: BallotRow) {
    && row.election == e && !row.superseded
    && PriorHash(e, x, c) == Some(row.hash)
    && Where(x.ballots, HashIs(e, row.hash)) == [row]
  }

  /** The hash belongs to a ballot that has been replaced. */
  ghost predicate Retired(e: Id, x: Box, h: string) {
    var rows := Where(x.ballots, HashIs(e, h));
    |rows| == 1 && rows[0].superseded
  }

  lemma LookupByHash(s: Store, e: Id, h: string)
    ensures Where(s.ballots, LiveHash(e, h)) == Where(Where(BoxOf(s, e).ballots, HashIs(e, h)), LiveHash(e, h))
  {
    WhereAbsorb(s.ballots, HashIs(e, h), BallotsIn(e));
    WhereAbsorb(s.ballots, LiveHash(e, h), HashIs(e, h));
  }

  lemma LookupHolds(s: Store, e: Id, c: string, row: BallotRow)
    requires Holds(e, BoxOf(s, e), c, row)
    ensures Lookup(s, e, row.hash) == Some(row)
  {
    LookupByHash(s, e, row.hash);
    WhereOne(row, LiveHash(e, row.hash));
  }

  lemma LookupRetired(s: Store, e: Id, h: string)
    requires Retired(e, BoxOf(s, e), h)
    ensures Lookup(s, e, h) == None
  {
    LookupByHash(s, e, h);
    var rows := Where(BoxOf(s, e).ballots, HashIs(e, h));
    assert rows == [rows[0]];
    WhereOne(rows[0], LiveHash(e, h));
  }

  /** A fresh recording by any voter, seen from one election's rows: the voter now holds the new row,
      every other holder keeps theirs, what the voter held is retired, and the retired stay so. */
  lemma CastAndHolders(e: Id, eligible: seq<string>, options: int, x: Box,
                       c: string, nonce: string, option: int, h: string)
    requires BoxInv(e, eligible, options, x) && FreshHash(e, x, h)
    ensures var y := Cast(e, x, c, nonce, option, h);
            && Holds(e, y, c, BallotRow(e, h, option, VersionFor(e, x, c), false))
            && (forall d, row :: Holds(e, x, d, row) && d != c ==> Holds(e, y, d, row))
            && (forall row :: Holds(e, x, c, row) ==> Retired(e, y, row.hash))
            && (forall k :: Retired(e, x, k) ==> Retired(e, y, k))
  {
    hide UniqueHashes, UniqueNonces, Admissible, Balanced, NewBallots, NewOwners;
    var y := Cast(e, x, c, nonce, option, h);
    var v := VersionFor(e, x, c);
    var added := BallotRow(e, h, option, v, false);
    var o := OwnerRow(e, c, h, v);
    if PriorHash(e, x, c).Some? {
      PriorFacts(e, x, c);
    }
    OwnedAfter(e, x.owners, o, c);
    LookupAfter(e, x, c, added, h);
    forall d, row | Holds(e, x, d, row) && d != c
      ensures Holds(e, y, d, row)
    {
      OwnedAfter(e, x.owners, o, d);
      LookupAfter(e, x, c, added, row.hash);
      PriorFacts(e, x, d);
    }
    forall row | Holds(e, x, c, row)
      ensures Retired(e, y, row.hash)
    {
      LookupAfter(e, x, c, added, row.hash);
    }
    forall k | Retired(e, x, k)
      ensures Retired(e, y, k)
    {
      LookupAfter(e, x, c, added, k);
    }
  }

  /** Is this event an accepted ballot of voter c in election e? */
  ghost predicate Replaces(s: Store, ev: Event, e: Id, c: string) {
    ev.Record? && ev.election == e && ev.ballot.cert == c && Decide(s, e, ev.ballot).Accept?
  }

  lemma EventAndHolders(s: Store, ev: Event, e: Id, c: string, row: BallotRow, k: string)
    requires Inv(s) && Trusted(s, ev) && Exists(s, e)
    ensures Holds(e, BoxOf(s, e), c, row) && !Replaces(s, ev, e, c) ==> Holds(e, BoxOf(Next(s, ev), e), c, row)
    ensures Holds(e, BoxOf(s, e), c, row) && Replaces(s, ev, e, c) ==> Retired(e, BoxOf(Next(s, ev), e), row.hash)
    ensures Retired(e, BoxOf(s, e), k) ==> Retired(e, BoxOf(Next(s, ev), e), k)
  {
    hide BoxInv, Decide, Recorded, Created, Transition, Where, IdSeq, Holds, Retired, MaxSeq, Cast, BoxOf, FreshHash;
    match ev
    case Create(cfg, d, ok) => CreateOnElection(s, cfg, d, ok, e);
    case Move(f, to) => MoveOnElection(s, f, to, e);
    case Record(f, b) =>
      if Decide(s, f, b).Accept? {
        AcceptFacts(s, f, b);
        if f == e {
          assert Sound(s, e);
          RecordedBox(s, e, b);
          CastAndHolders(e, Eligible(s, e), OptionCount(s, e), BoxOf(s, e), b.cert, b.nonce, OptionOf(b.payload),
                         Decide(s, e, b).hash);
        } else {
          RecordedElsewhere(s, f, b, e);
        }
      }
  }

  /** No event of the run is an accepted ballot of c in e. */
  ghost predicate Silent(s: Store, evs: seq<Event>, e: Id, c: string)
    decreases |evs|
  {
    evs == [] || (!Replaces(s, evs[0], e, c) && Silent(Next(s, evs[0]), evs[1..], e, c))
  }

  lemma {:induction false} HoldsThroughout(s: Store, evs: seq<Event>, e: Id, c: string, row: BallotRow)
    requires Inv(s) && TrustedRun(s, evs) && Exists(s, e) && Silent(s, evs, e, c) && Holds(e, BoxOf(s, e), c, row)
    ensures Inv(Run(s, evs)) && Exists(Run(s, evs), e) && Holds(e, BoxOf(Run(s, evs), e), c, row)
    decreases |evs|
  {
    hide Inv, Next, Trusted, Holds, BoxOf, Where, Replaces;
    if evs != [] {
      NextKeeps(s, evs[0]);
      EventOnElection(s, evs[0], e);
      EventAndHolders(s, evs[0], e, c, row, row.hash);
      HoldsThroughout(Next(s, evs[0]), evs[1..], e, c, row);
    }
  }

  lemma {:induction false} RetiredForGood(s: Store, evs: seq<Event>, e: Id, k: string)
    requires Inv(s) && TrustedRun(s, evs) && Exists(s, e) && Retired(e, BoxOf(s, e), k)
    ensures Retired(e, BoxOf(Run(s, evs), e), k)
    decreases |evs|
  {
    hide Inv, Next, Trusted, Retired, BoxOf, Where;
    if evs != [] {
      NextKeeps(s, evs[0]);
      EventOnElection(s, evs[0], e);
      EventAndHolders(s, evs[0], e, "", BallotRow(e, k, 0, 0, true), k);
      RetiredForGood(Next(s, evs[0]), evs[1..], e, k);
    }
  }

  /** Right after an accepted ballot the receipt it returned is held by its voter, with their choice. */
  lemma ReceiptIssued(s: Store, e: Id, b: Ballot)
    requires Inv(s) && Decide(s, e, b).Accept? && Trusted(s, Record(e, b))
    ensures var d := Decide(s, e, b);
            Holds(e, BoxOf(d.store, e), b.cert, BallotRow(e, d.hash, OptionOf(b.payload), VersionFor(e, BoxOf(s, e), b.cert), false))
  {
    hide BoxInv, Decide, Recorded, Where, IdSeq, Holds, Retired, Cast, BoxOf, FreshHash;
    AcceptFacts(s, e, b);
    assert Sound(s, e);
    RecordedBox(s, e, b);
    CastAndHolders(e, Eligible(s, e), OptionCount(s, e), BoxOf(s, e), b.cert, b.nonce, OptionOf(b.payload),
                   Decide(s, e, b).hash);
  }

  /** A receipt is found, with the option chosen, at every moment until its voter's next accepted
      ballot in the election, and never again after that. */
  lemma ReceiptLifetime(s: Store, e: Id, b: Ballot, before: seq<Event>, again: Event, after: seq<Event>)
    requires Inv(s) && Decide(s, e, b).Accept? && Trusted(s, Record(e, b))
    requires var t := Decide(s, e, b).store; TrustedRun(t, before) && Silent(t, before, e, b.cert)
    ensures var d := Decide(s, e, b);
            && Lookup(Run(d.store, before), e, d.hash).Some?
            && Lookup(Run(d.store, before), e, d.hash).value.option == OptionOf(b.payload)
    ensures var u := Run(Decide(s, e, b).store, before);
            Replaces(u, again, e, b.cert) && Trusted(u, again) && TrustedRun(Next(u, again), after) ==>
              Lookup(Run(Next(u, again), after), e, Decide(s, e, b).hash) == None
  {
    hide Inv, Decide, Next, Trusted, Holds, Retired, BoxOf, Where, Lookup, Replaces, Silent, TrustedRun, Run;
    var d := Decide(s, e, b);
    var row := BallotRow(e, d.hash, OptionOf(b.payload), VersionFor(e, BoxOf(s, e), b.cert), false);
    RecordExists(s, e, b);
    ReceiptIssued(s, e, b);
    HoldsThroughout(d.store, before, e, b.cert, row);
    var u := Run(d.store, before);
    LookupHolds(u, e, b.cert, row);
    if Replaces(u, again, e, b.cert) && Trusted(u, again) && TrustedRun(Next(u, again), after) {
      NextKeeps(u, again);
      EventOnElection(u, again, e);
      EventAndHolders(u, again, e, b.cert, row, row.hash);
      RetiredForGood(Next(u, again), after, e, row.hash);
      LookupRetired(Run(Next(u, again), after), e, row.hash);
    }
  }

  lemma RecordExists(s: Store, e: Id, b: Ballot)
    requires Inv(s) && Decide(s, e, b).Accept? && Trusted(s, Record(e, b))
    ensures Inv(Decide(s, e, b).store) && Exists(Decide(s, e, b).store, e)
  {
    hide Inv, Decide, Recorded, Where, BoxOf, FreshHash;
    AcceptFacts(s, e, b);
    RecordKeeps(s, e, b);
    RecordedBox(s, e, b);
  }

  // ---- creating elections ----

  /** A creation keeps the invariant exactly when it does not fall into one of the two cases where an
      automatic id is already taken: a failed read while "E-100" exists, or the largest number in use
      and the id it wraps to existing too. */
  lemma CreateKeepsIffNewId(s: Store, c: Config, desired: Id, readOk: bool)
    requires Inv(s) && Created(s, c, desired, readOk).0 == Ok
    ensures Inv(Created(s, c, desired, readOk).1) <==> !(desired == "" && IdClash(s.elections, readOk))
  {
    hide Where, Sound, IdSeq, StorableConfig, Validate, MaxSeq, PrintInt, AllocId, IdClash;
    var id := ChosenId(s, desired, readOk).value;
    ChosenIdTakenIff(s, desired, readOk);
    WhereAppend(s.elections, ElectionRow(IdSeq(id), id, c.title, Draft, c.openTime, c.closeTime), IsElection(id));
    if !Exists(s, id) {
      InsertKeeps(s, id, c);
    } else {
      assert |Where(Created(s, c, desired, readOk).1.elections, IsElection(id))| >= 2;
    }
  }
}
