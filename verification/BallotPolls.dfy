/**
 * The ballot box as its users think of it: polls by id, each with what it was created with, a state, and
 * for every voter the ballot that counts. Six tables kept by deletes and inserts show exactly this, in
 * every run, and every answer of the daemon can be read off it.
 */
module BallotPolls {
  import opened Basics
  import opened Tables
  import opened BallotStore
  import opened BallotBox
  import opened BallotIds
  import opened BallotRuns
  import opened BallotLaws
  import opened BallotRules
  import Brain = BallotBrain
  import Receipts

  datatype Vote = Vote(option: int, version: int, hash: string)

  /** `votes` holds each voter's counted ballot, `spent` the nonces that have been used. */
  datatype Poll = Poll(
    title: string, options: seq<string>, eligible: seq<string>, openTime: string, closeTime: string,
    state: State, votes: map<string, Vote>, spent: set<string>)

  type Polls = map<Id, Poll>

  // ---- what events do to polls ----

  predicate Admits(p: Poll, b: Ballot) {
    && p.state == Open && b.cert in p.eligible
    && 0 <= OptionOf(b.payload) < |p.options| && b.nonce !in p.spent
  }

  /** The voter's first ballot has version 1, each replacement the next. */
  function NewVote(p: Poll, b: Ballot): Vote {
    var version := if b.cert in p.votes then p.votes[b.cert].version + 1 else 1;
    Vote(OptionOf(b.payload), version, Receipts.HashOf(b.nonce, version))
  }

  function Voted(p: Poll, b: Ballot): Poll {
    p.(votes := p.votes[b.cert := NewVote(p, b)], spent := p.spent + {b.nonce})
  }

  function NewPoll(c: Config): Poll {
    Poll(c.title, Take(c.options, MAX_OPTIONS), Take(c.eligible, MAX_VOTERS), c.openTime, c.closeTime, Draft, map[], {})
  }

  /** One event; `id` is the id a creation settles on. */
  ghost function After(ps: Polls, ev: Event, id: Id): Polls {
    match ev
    case Create(c, desired, _) =>
      if c.title != "" && |c.options| >= 2 && Before(c.openTime, c.closeTime) && !(desired != "" && desired in ps)
         && StorableConfig(id, c)
      then ps[id := NewPoll(c)]
      else ps
    case Move(e, to) =>
      if e in ps && Rank(to) == Rank(ps[e].state) + 1 then ps[e := ps[e].(state := to)] else ps
    case Record(e, b) =>
      if e in ps && Admits(ps[e], b) then ps[e := Voted(ps[e], b)] else ps
  }

  // ---- how the tables show them ----

  function RowOf(e: Id, v: Vote): BallotRow {
    BallotRow(e, v.hash, v.option, v.version, false)
  }

  ghost predicate ShowsVotes(e: Id, x: Box, votes: map<string, Vote>) {
    && (forall c :: c in votes ==> Holds(e, x, c, RowOf(e, votes[c])))
    && (forall c :: c !in votes ==> PriorHash(e, x, c) == None)
  }

  ghost predicate ShowsSpent(e: Id, x: Box, spent: set<string>) {
    forall n :: n in spent <==> Where(x.nonces, NonceIs(e, n)) != []
  }

  ghost predicate ShowsHead(s: Store, e: Id, p: Poll) {
    Load(s, e) == Some(Election(e, p.title, p.state, p.options, p.eligible, p.openTime, p.closeTime))
  }

  ghost predicate ShowsPoll(s: Store, e: Id, p: Poll) {
    ShowsHead(s, e, p) && ShowsVotes(e, BoxOf(s, e), p.votes) && ShowsSpent(e, BoxOf(s, e), p.spent)
  }

  ghost predicate Shows(s: Store, ps: Polls) {
    && (forall e :: e in ps <==> Exists(s, e))
    && (forall e :: e in ps ==> ShowsPoll(s, e, ps[e]))
  }

  lemma NoPolls()
    ensures Shows(EMPTY, map[])
  {
  }

  lemma SameElectionShows(s: Store, t: Store, e: Id, p: Poll)
    requires SameElection(s, t, e) && ShowsPoll(s, e, p)
    ensures ShowsPoll(t, e, p)
  {
    hide Where, ShowsVotes, ShowsSpent, OptionNames, CertNames;
  }

  // ---- recording ----

  lemma VersionShown(e: Id, x: Box, p: Poll, c: string)
    requires ShowsVotes(e, x, p.votes) && OwnersBacked(e, x) && OneElection(e, x)
    ensures VersionFor(e, x, c) == if c in p.votes then p.votes[c].version + 1 else 1
  {
    hide Where;
    if c in p.votes {
      var mine := Where(x.owners, OwnedBy(e, c));
      assert Holds(e, x, c, RowOf(e, p.votes[c]));
      WhereIn(x.owners, OwnedBy(e, c), mine[0]);
      assert Backed(e, x, mine[0]);
    }
  }

  lemma VotesAfter(e: Id, eligible: seq<string>, options: int, x: Box, p: Poll, b: Ballot)
    requires BoxInv(e, eligible, options, x) && ShowsVotes(e, x, p.votes) && ShowsSpent(e, x, p.spent)
    requires FreshHash(e, x, NewVote(p, b).hash)
    ensures var v := NewVote(p, b);
            var y := Cast(e, x, b.cert, b.nonce, v.option, v.hash);
            ShowsVotes(e, y, Voted(p, b).votes) && ShowsSpent(e, y, Voted(p, b).spent)
  {
    hide Where, Receipts.HashOf, Holds, Cast, UniqueHashes, UniqueNonces, LiveOwned, Admissible, Balanced, UniqueOwners, FreshHash;
    var v := NewVote(p, b);
    var y := Cast(e, x, b.cert, b.nonce, v.option, v.hash);
    VersionShown(e, x, p, b.cert);
    CastAndHolders(e, eligible, options, x, b.cert, b.nonce, v.option, v.hash);
    forall c | c !in Voted(p, b).votes ensures PriorHash(e, y, c) == None {
      OtherOwner(e, x, b.cert, b.nonce, v.option, v.hash, c);
    }
    forall n ensures n in Voted(p, b).spent <==> Where(y.nonces, NonceIs(e, n)) != [] {
      NonceAfter(e, x, b.cert, b.nonce, v.option, v.hash, n);
    }
  }

  lemma OtherOwner(e: Id, x: Box, c: string, nonce: string, option: int, h: string, d: string)
    requires d != c
    ensures PriorHash(e, Cast(e, x, c, nonce, option, h), d) == PriorHash(e, x, d)
  {
    hide NewBallots;
    OwnedAfter(e, x.owners, OwnerRow(e, c, h, VersionFor(e, x, c)), d);
  }

  lemma NonceAfter(e: Id, x: Box, c: string, nonce: string, option: int, h: string, n: string)
    ensures Where(Cast(e, x, c, nonce, option, h).nonces, NonceIs(e, n)) != [] <==>
              n == nonce || Where(x.nonces, NonceIs(e, n)) != []
  {
    hide NewBallots, NewOwners;
    WhereAppend(x.nonces, NonceRow(e, nonce), NonceIs(e, n));
  }

  /** A ballot is accepted by the tables exactly when the poll admits it, with the poll's version and
      receipt. */
  lemma DecideShown(s: Store, ps: Polls, e: Id, b: Ballot)
    requires Inv(s) && Shows(s, ps)
    ensures Decide(s, e, b).Accept? <==> e in ps && Admits(ps[e], b)
    ensures Decide(s, e, b).Accept? ==> Decide(s, e, b).hash == NewVote(ps[e], b).hash
  {
    hide Where, Decide, Recorded, Receipts.HashOf, BoxInv, UniqueIds, IdSeq, Eligible;
    DecideRule(s, e, b);
    LoadedIs(s, e);
    if e in ps {
      assert ShowsPoll(s, e, ps[e]);
      WhereAbsorb(s.nonces, NonceIs(e, b.nonce), NoncesIn(e));
      if Decide(s, e, b).Accept? {
        AcceptFacts(s, e, b);
        RecordedBox(s, e, b);
        assert Sound(s, e);
        SoundBacked(s, e);
        VersionShown(e, BoxOf(s, e), ps[e], b.cert);
      }
    }
  }

  lemma SoundBacked(s: Store, e: Id)
    requires Sound(s, e)
    ensures OwnersBacked(e, BoxOf(s, e)) && OneElection(e, BoxOf(s, e))
  {
    hide UniqueHashes, UniqueOwners, UniqueNonces, LiveOwned, Admissible, Balanced, Backed, Where;
  }

  lemma RecordShown(s: Store, ps: Polls, e: Id, b: Ballot)
    requires Inv(s) && Shows(s, ps) && Trusted(s, Record(e, b))
    ensures Shows(Next(s, Record(e, b)), After(ps, Record(e, b), ""))
  {
    hide Where, Decide, Recorded, Receipts.HashOf, BoxInv, UniqueIds, IdSeq, ShowsPoll, BoxOf, Admits, FreshHash, Load;
    DecideShown(s, ps, e, b);
    if Decide(s, e, b).Accept? {
      var t := Decide(s, e, b).store;
      AcceptFacts(s, e, b);
      RecordedBox(s, e, b);
      RecordedPoll(s, ps[e], e, b);
      forall f | f in ps && f != e ensures ShowsPoll(t, f, ps[f]) {
        RecordedElsewhere(s, e, b, f);
        SameElectionShows(s, t, f, ps[f]);
      }
    }
  }

  lemma RecordedPoll(s: Store, p: Poll, e: Id, b: Ballot)
    requires Inv(s) && ShowsPoll(s, e, p) && Trusted(s, Record(e, b)) && Decide(s, e, b).Accept?
    requires Decide(s, e, b).hash == NewVote(p, b).hash
    ensures ShowsPoll(Decide(s, e, b).store, e, Voted(p, b))
  {
    hide Where, Decide, Recorded, Receipts.HashOf, BoxInv, UniqueIds, IdSeq, BoxOf, FreshHash, ShowsVotes, ShowsSpent;
    hide OptionNames, CertNames, Eligible, Cast, NewVote;
    AcceptFacts(s, e, b);
    RecordedBox(s, e, b);
    assert Sound(s, e);
    assert NewVote(p, b).option == OptionOf(b.payload) by { NewVoteOption(p, b); }
    VotesAfter(e, Eligible(s, e), OptionCount(s, e), BoxOf(s, e), p, b);
    var t := Decide(s, e, b).store;
    assert Load(t, e) == Load(s, e) by { SameLoad(s, t, e); }
  }

  lemma NewVoteOption(p: Poll, b: Ballot)
    ensures NewVote(p, b).option == OptionOf(b.payload)
  {
  }

  lemma SameLoad(s: Store, t: Store, e: Id)
    requires t.elections == s.elections && t.options == s.options && t.eligible == s.eligible
    ensures Load(t, e) == Load(s, e)
  {
  }

  // ---- moving ----

  lemma MoveShown(s: Store, ps: Polls, e: Id, to: State)
    requires Inv(s) && Shows(s, ps)
    ensures Shows(Next(s, Move(e, to)), After(ps, Move(e, to), ""))
  {
    hide Where, BoxInv, UniqueIds, IdSeq, ShowsPoll, BoxOf, Load, Transition, OptionRows;
    TransitionRule(s, e, to);
    LoadedIs(s, e);
    assert e in ps ==> ps[e].state == StateOf(s, e) by {
      if e in ps {
        StateShown(s, e, ps[e]);
      }
    }
    var t := Transition(s, e, to).1;
    if Transition(s, e, to).0 == Ok {
      forall f | f in ps ensures ShowsPoll(t, f, After(ps, Move(e, to), "")[f]) {
        MovedPoll(s, t, f, ps[f], e, to);
      }
    }
  }

  lemma StateShown(s: Store, e: Id, p: Poll)
    requires Exists(s, e) && ShowsPoll(s, e, p)
    ensures p.state == StateOf(s, e)
  {
    hide Where, ShowsVotes, ShowsSpent;
  }

  lemma MovedPoll(s: Store, t: Store, f: Id, p: Poll, e: Id, to: State)
    requires t == s.(elections := t.elections) && Exists(s, f) && ShowsPoll(s, f, p)
    requires Exists(s, e) && Exists(t, e) && StateOf(t, e) == to && SameColumns(s, t, e)
    requires f != e ==> Where(t.elections, IsElection(f)) == Where(s.elections, IsElection(f))
    ensures ShowsPoll(t, f, if f == e then p.(state := to) else p)
  {
    hide Where, ShowsVotes, ShowsSpent, OptionNames, CertNames;
  }

  // ---- creating ----

  lemma CreateShown(s: Store, ps: Polls, c: Config, desired: Id, readOk: bool)
    requires Inv(s) && Shows(s, ps) && Trusted(s, Create(c, desired, readOk))
    ensures var ev := Create(c, desired, readOk);
            Shows(Next(s, ev), After(ps, ev, if desired != "" then desired else AllocId(s.elections, readOk)))
  {
    hide Where, BoxInv, UniqueIds, IdSeq, ShowsPoll, Load, AllocId, StorableConfig, Before, Trusted, Created, Decide;
    CreatedRule(s, c, desired, readOk);
    var t := Created(s, c, desired, readOk).1;
    ChosenShape(s, desired, readOk);
    if Created(s, c, desired, readOk).0 == Ok {
      var id := ChosenId(s, desired, readOk).value;
      CreatedExists(s, c, desired, readOk);
      CreatedPoll(s, c, desired, readOk);
      forall e | e in ps && e != id ensures ShowsPoll(t, e, ps[e]) {
        CreateOnElection(s, c, desired, readOk, e);
        SameElectionShows(s, t, e, ps[e]);
      }
    }
  }

  lemma ChosenShape(s: Store, desired: Id, readOk: bool)
    ensures ChosenId(s, desired, readOk).Some? ==>
              ChosenId(s, desired, readOk).value == if desired != "" then desired else AllocId(s.elections, readOk)
  {
    hide Load, AllocId;
  }

  lemma CreatedExists(s: Store, c: Config, desired: Id, readOk: bool)
    requires Created(s, c, desired, readOk).0 == Ok && ChosenId(s, desired, readOk).Some?
    ensures forall e :: Exists(Created(s, c, desired, readOk).1, e) <==> Exists(s, e) || e == ChosenId(s, desired, readOk).value
  {
    hide Where, Load, AllocId, StorableConfig, Validate, IdSeq;
    var id := ChosenId(s, desired, readOk).value;
    forall e ensures Exists(Created(s, c, desired, readOk).1, e) <==> Exists(s, e) || e == id {
      WhereAppend(s.elections, ElectionRow(IdSeq(id), id, c.title, Draft, c.openTime, c.closeTime), IsElection(e));
    }
  }

  lemma CreatedPoll(s: Store, c: Config, desired: Id, readOk: bool)
    requires Inv(s) && Trusted(s, Create(c, desired, readOk)) && Created(s, c, desired, readOk).0 == Ok
    requires ChosenId(s, desired, readOk).Some?
    ensures ShowsPoll(Created(s, c, desired, readOk).1, ChosenId(s, desired, readOk).value, NewPoll(c))
  {
    hide Where, Load, AllocId, StorableConfig, Validate, IdSeq, Trusted, BoxInv, IdClash, Holds, UniqueIds;
    var id := ChosenId(s, desired, readOk).value;
    CreatedLoads(s, c, desired, readOk);
    TrustedCreate(s, c, desired, readOk);
    ChosenIdTakenIff(s, desired, readOk);
    assert Sound(s, id);
    var t := Created(s, c, desired, readOk).1;
    assert BoxOf(t, id) == Box([], [], []);
    EmptyBoxShows(id);
  }

  lemma EmptyBoxShows(e: Id)
    ensures ShowsVotes(e, Box([], [], []), map[]) && ShowsSpent(e, Box([], [], []), {})
  {
  }

  // ---- runs ----

  /** The id a creation settles on, if the event is one. */
  function IdFor(s: Store, ev: Event): Id {
    match ev
    case Create(_, desired, readOk) => if desired != "" then desired else AllocId(s.elections, readOk)
    case _ => ""
  }

  /** Every event does to the tables what it does to the polls they show. */
  lemma NextShown(s: Store, ps: Polls, ev: Event)
    requires Inv(s) && Shows(s, ps) && Trusted(s, ev)
    ensures Shows(Next(s, ev), After(ps, ev, IdFor(s, ev)))
  {
    hide Inv, Shows, Next, Trusted, AllocId;
    match ev
    case Create(c, desired, readOk) => CreateShown(s, ps, c, desired, readOk);
    case Move(e, to) => MoveShown(s, ps, e, to);
    case Record(e, b) => RecordShown(s, ps, e, b);
  }

  ghost function PollsAfter(s: Store, ps: Polls, evs: seq<Event>): Polls
    decreases |evs|
  {
    if evs == [] then ps else PollsAfter(Next(s, evs[0]), After(ps, evs[0], IdFor(s, evs[0])), evs[1..])
  }

  /** So in every run the tables show the polls, and stay sound. */
  lemma {:induction false} RunShown(s: Store, ps: Polls, evs: seq<Event>)
    requires Inv(s) && Shows(s, ps) && TrustedRun(s, evs)
    ensures Inv(Run(s, evs)) && Shows(Run(s, evs), PollsAfter(s, ps, evs))
    decreases |evs|
  {
    hide Inv, Shows, Next, Trusted, After;
    if evs != [] {
      NextKeeps(s, evs[0]);
      NextShown(s, ps, evs[0]);
      RunShown(Next(s, evs[0]), After(ps, evs[0], IdFor(s, evs[0])), evs[1..]);
    }
  }

  // ---- counting voters ----

  /** The voters whose counted ballot is for option i. */
  ghost function Choosers(p: Poll, i: int): set<string> {
    set c | c in p.votes && p.votes[c].option == i
  }

  ghost function Hashes(rows: seq<BallotRow>): set<string> {
    set r | r in rows :: r.hash
  }

  lemma {:induction false} DistinctHashes(e: Id, rows: seq<BallotRow>)
    requires forall h :: |Where(rows, HashIs(e, h))| <= 1
    requires forall r :: r in rows ==> r.election == e
    ensures |Hashes(rows)| == |rows|
  {
    if rows != [] {
      var front, last := rows[..|rows| - 1], rows[|rows| - 1];
      assert rows == front + [last];
      forall h ensures |Where(front, HashIs(e, h))| <= 1 {
        WhereAppend(front, last, HashIs(e, h));
      }
      DistinctHashes(e, front);
      assert Hashes(rows) == Hashes(front) + {last.hash};
      if last.hash in Hashes(front) {
        var r :| r in front && r.hash == last.hash;
        WhereIn(front, HashIs(e, last.hash), r);
        WhereAppend(front, last, HashIs(e, last.hash));
        assert false;
      }
    }
  }

  lemma {:induction false} ImageSize(cs: set<string>, votes: map<string, Vote>)
    requires forall c :: c in cs ==> c in votes
    requires forall c, d :: c in cs && d in cs && votes[c].hash == votes[d].hash ==> c == d
    ensures |set c | c in cs :: votes[c].hash| == |cs|
    decreases |cs|
  {
    if cs != {} {
      var c :| c in cs;
      var rest := cs - {c};
      ImageSize(rest, votes);
      var image := set d | d in rest :: votes[d].hash;
      assert (set d | d in cs :: votes[d].hash) == image + {votes[c].hash};
    }
  }

  /** The owner row behind a counted ballot. */
  lemma OwnerShown(e: Id, x: Box, votes: map<string, Vote>, c: string) returns (o: OwnerRow)
    requires ShowsVotes(e, x, votes) && c in votes
    ensures o in x.owners && o.election == e && o.cert == c && o.hash == votes[c].hash
  {
    hide Where;
    assert Holds(e, x, c, RowOf(e, votes[c]));
    var mine := Where(x.owners, OwnedBy(e, c));
    o := mine[0];
    WhereIn(x.owners, OwnedBy(e, c), o);
  }

  /** No two voters' counted ballots share a hash. */
  lemma HashesApart(e: Id, x: Box, votes: map<string, Vote>, c: string, d: string)
    requires ShowsVotes(e, x, votes) && LiveOwned(e, x) && c in votes && d in votes && votes[c].hash == votes[d].hash
    ensures c == d
  {
    hide Where;
    var h := votes[c].hash;
    var o := OwnerShown(e, x, votes, c);
    var q := OwnerShown(e, x, votes, d);
    assert Holds(e, x, c, RowOf(e, votes[c]));
    WhereIn(x.ballots, HashIs(e, h), RowOf(e, votes[c]));
    WhereIn(x.owners, OwnersOfHash(e, h), o);
    WhereIn(x.owners, OwnersOfHash(e, h), q);
    assert |Where(x.owners, OwnersOfHash(e, h))| == 1;
  }

  /** A live row is the counted ballot of a voter. */
  lemma LiveIsVote(e: Id, x: Box, votes: map<string, Vote>, r: BallotRow) returns (c: string)
    requires ShowsVotes(e, x, votes) && LiveOwned(e, x) && OneElection(e, x) && UniqueOwners(e, x)
    requires r in x.ballots && !r.superseded
    ensures c in votes && RowOf(e, votes[c]) == r
  {
    hide Where;
    var owners := Where(x.owners, OwnersOfHash(e, r.hash));
    var o := owners[0];
    c := o.cert;
    WhereIn(x.owners, OwnersOfHash(e, r.hash), o);
    OnlyRow(x.owners, OwnedBy(e, c), o);
    assert PriorHash(e, x, c) == Some(r.hash);
    assert Holds(e, x, c, RowOf(e, votes[c]));
    WhereIn(x.ballots, HashIs(e, r.hash), r);
  }

  /** A counted ballot is a live row. */
  lemma VoteIsLive(e: Id, x: Box, votes: map<string, Vote>, c: string)
    requires ShowsVotes(e, x, votes) && c in votes
    ensures RowOf(e, votes[c]) in x.ballots
  {
    hide Where;
    assert Holds(e, x, c, RowOf(e, votes[c]));
    WhereIn(x.ballots, HashIs(e, votes[c].hash), RowOf(e, votes[c]));
  }

  /** The number of live rows for an option is the number of voters who chose it. */
  lemma TallyShown(s: Store, e: Id, p: Poll, i: int)
    requires Inv(s) && ShowsPoll(s, e, p)
    ensures |Where(s.ballots, LiveFor(e, i))| == |Choosers(p, i)|
  {
    hide Where, UniqueIds, IdSeq, ShowsHead, ShowsSpent, ShowsVotes, BoxInv, BoxOf, LiveOwned;
    var x := BoxOf(s, e);
    assert Sound(s, e);
    SoundCount(s, e);
    var rows := Where(x.ballots, LiveFor(e, i));
    BoxBallots(s, e, i);
    RowsApart(e, x, i);
    DistinctHashes(e, rows);
    var cs := Choosers(p, i);
    var image := set c | c in cs :: p.votes[c].hash;
    forall c, d | c in cs && d in cs && p.votes[c].hash == p.votes[d].hash ensures c == d {
      HashesApart(e, x, p.votes, c, d);
    }
    ImageSize(cs, p.votes);
    forall h | h in image ensures h in Hashes(rows) {
      var c :| c in cs && p.votes[c].hash == h;
      VoteIsLive(e, x, p.votes, c);
      WhereIn(x.ballots, LiveFor(e, i), RowOf(e, p.votes[c]));
      assert RowOf(e, p.votes[c]) in rows;
    }
    forall h | h in Hashes(rows) ensures h in image {
      var r :| r in rows && r.hash == h;
      WhereIn(x.ballots, LiveFor(e, i), r);
      var c := LiveIsVote(e, x, p.votes, r);
      assert c in cs;
    }
    assert image == Hashes(rows);
  }

  lemma SoundCount(s: Store, e: Id)
    requires Sound(s, e)
    ensures var x := BoxOf(s, e); UniqueHashes(e, x) && UniqueOwners(e, x) && LiveOwned(e, x) && OneElection(e, x)
  {
    hide UniqueNonces, Admissible, Balanced, Backed, Where, OwnersBacked, UniqueHashes, UniqueOwners, LiveOwned, OneElection;
  }

  lemma BoxBallots(s: Store, e: Id, i: int)
    ensures Where(BoxOf(s, e).ballots, LiveFor(e, i)) == Where(s.ballots, LiveFor(e, i))
    ensures Where(BoxOf(s, e).ballots, LiveIn(e)) == Where(s.ballots, LiveIn(e))
  {
    hide Where;
    WhereAbsorb(s.ballots, LiveFor(e, i), BallotsIn(e));
    WhereAbsorb(s.ballots, LiveIn(e), BallotsIn(e));
  }

  lemma RowsApart(e: Id, x: Box, i: int)
    requires UniqueHashes(e, x)
    ensures var rows := Where(x.ballots, LiveFor(e, i));
            && (forall h :: |Where(rows, HashIs(e, h))| <= 1)
            && (forall r :: r in rows ==> r.election == e)
  {
    hide Where;
    var rows := Where(x.ballots, LiveFor(e, i));
    forall h ensures |Where(rows, HashIs(e, h))| <= 1 {
      WhereCommute(x.ballots, LiveFor(e, i), HashIs(e, h));
    }
    forall r | r in rows ensures r.election == e {
      WhereIn(x.ballots, LiveFor(e, i), r);
    }
  }

  // ---- the daemon's answers, read off the polls ----

  /** Published results: for every option its name and the number of voters whose counted ballot chose it,
      and exactly the counted ballots; nobody gets them sooner, and no unlisted voter at all. */
  lemma ResultsShown(s: Store, ps: Polls, e: Id, voter: Option<string>)
    requires Inv(s) && Shows(s, ps)
    ensures var (r, out) := Brain.Answered(s, e, voter);
            && (out.Some? <==> e in ps && ps[e].state == Published && (voter.None? || voter.value in ps[e].eligible))
            && (out.Some? ==>
                  && out.value.title == ps[e].title && out.value.options == ps[e].options
                  && |out.value.tally| == |ps[e].options|
                  && (forall i :: 0 <= i < |ps[e].options| ==> out.value.tally[i] == |Choosers(ps[e], i)|)
                  && (forall row :: row in out.value.hashes <==> exists c :: c in ps[e].votes && row == RowOf(e, ps[e].votes[c])))
  {
    hide Inv, Where, Eligible, ShowsVotes, ShowsSpent, BoxOf, Choosers, TallyOf, ResultsOf;
    AnsweredRule(s, e, voter);
    LoadedIs(s, e);
    if e in ps {
      var p := ps[e];
      assert ShowsPoll(s, e, p);
      if Brain.Answered(s, e, voter).1.Some? {
        AnsweredHolds(s, e, voter);
        var out := Brain.Answered(s, e, voter).1.value;
        ResultsHead(s, e, voter, p);
        forall i | 0 <= i < |p.options| ensures out.tally[i] == |Choosers(p, i)| {
          TallyShown(s, e, p, i);
        }
        forall row ensures row in out.hashes <==> exists c :: c in p.votes && row == RowOf(e, p.votes[c]) {
          ListedShown(s, e, p, row);
        }
      }
    }
  }

  lemma ResultsHead(s: Store, e: Id, voter: Option<string>, p: Poll)
    requires ShowsHead(s, e, p) && Brain.Answered(s, e, voter).1.Some?
    ensures var out := Brain.Answered(s, e, voter).1.value; out.title == p.title && out.options == p.options
  {
    hide Load, Where, TallyOf;
  }

  lemma ListedShown(s: Store, e: Id, p: Poll, row: BallotRow)
    requires Inv(s) && ShowsPoll(s, e, p)
    ensures row in Where(s.ballots, LiveIn(e)) <==> exists c :: c in p.votes && row == RowOf(e, p.votes[c])
  {
    hide Where, UniqueIds, IdSeq, ShowsHead, ShowsSpent, ShowsVotes, BoxInv, BoxOf;
    var x := BoxOf(s, e);
    assert Sound(s, e);
    SoundCount(s, e);
    BoxBallots(s, e, 0);
    WhereIn(x.ballots, LiveIn(e), row);
    if row in Where(s.ballots, LiveIn(e)) {
      var c := LiveIsVote(e, x, p.votes, row);
    }
    if exists c :: c in p.votes && row == RowOf(e, p.votes[c]) {
      var c :| c in p.votes && row == RowOf(e, p.votes[c]);
      VoteIsLive(e, x, p.votes, c);
    }
  }

  /** A check finds a receipt exactly when it is that of a voter's counted ballot, and names that ballot's
      option. */
  lemma CheckShown(s: Store, ps: Polls, e: Id, h: string)
    requires Inv(s) && Shows(s, ps)
    ensures Brain.Checked(s, e, h).0 == Ok <==> e in ps && exists c :: c in ps[e].votes && ps[e].votes[c].hash == h
    ensures e in ps ==> forall c :: c in ps[e].votes && ps[e].votes[c].hash == h ==>
              && 0 <= ps[e].votes[c].option < |ps[e].options|
              && Brain.Checked(s, e, h) == (Ok, Some(RowOf(e, ps[e].votes[c])), ps[e].options[ps[e].votes[c].option])
  {
    hide Where, Load, ShowsVotes, ShowsSpent, BoxOf, Inv, Lookup, OptionRows;
    CheckedRule(s, e, h);
    LoadedIs(s, e);
    if e in ps {
      var p := ps[e];
      assert ShowsPoll(s, e, p);
      forall c | c in p.votes && p.votes[c].hash == h
        ensures 0 <= p.votes[c].option < |p.options| && Lookup(s, e, h) == Some(RowOf(e, p.votes[c]))
      {
        VoteFound(s, e, p, c);
      }
      if Lookup(s, e, h).Some? {
        FoundIsVote(s, e, p, h);
      }
    }
  }

  lemma VoteFound(s: Store, e: Id, p: Poll, c: string)
    requires Inv(s) && Exists(s, e) && ShowsPoll(s, e, p) && c in p.votes
    ensures 0 <= p.votes[c].option < |p.options| && Lookup(s, e, p.votes[c].hash) == Some(RowOf(e, p.votes[c]))
  {
    hide Where, UniqueIds, IdSeq, ShowsSpent, BoxInv, BoxOf, Lookup, Load, OptionCount, Eligible;
    assert Holds(e, BoxOf(s, e), c, RowOf(e, p.votes[c]));
    LookupHolds(s, e, c, RowOf(e, p.votes[c]));
    VoteIsLive(e, BoxOf(s, e), p.votes, c);
    assert Sound(s, e);
    SoundOptions(s, e, RowOf(e, p.votes[c]));
    LoadedIs(s, e);
  }

  lemma SoundOptions(s: Store, e: Id, r: BallotRow)
    requires Sound(s, e) && r in BoxOf(s, e).ballots
    ensures 0 <= r.option < OptionCount(s, e)
  {
    hide UniqueHashes, UniqueOwners, UniqueNonces, LiveOwned, OwnersBacked, Balanced, OneElection, OptionCount, Eligible, Where;
  }

  lemma FoundIsVote(s: Store, e: Id, p: Poll, h: string)
    requires Inv(s) && ShowsPoll(s, e, p) && Lookup(s, e, h).Some?
    ensures exists c :: c in p.votes && p.votes[c].hash == h
  {
    hide Where, UniqueIds, IdSeq, ShowsHead, ShowsSpent, ShowsVotes, BoxInv;
    assert Sound(s, e);
    SoundCount(s, e);
    var row := Lookup(s, e, h).value;
    WhereIn(s.ballots, LiveHash(e, h), row);
    WhereIn(s.ballots, BallotsIn(e), row);
    var c := LiveIsVote(e, BoxOf(s, e), p.votes, row);
  }

  /** A join is admitted exactly when the poll is open and lists the voter, and reports the voter's counted
      ballot. */
  lemma JoinShown(s: Store, ps: Polls, e: Id, cert: string)
    requires Inv(s) && Shows(s, ps)
    ensures var (r, el, has, version) := Brain.Joined(s, e, cert);
            && (r == Ok <==> e in ps && ps[e].state == Open && cert != "" && cert in ps[e].eligible)
            && (r == Ok ==>
                  && el == Some(Election(e, ps[e].title, Open, ps[e].options, ps[e].eligible, ps[e].openTime, ps[e].closeTime))
                  && (has <==> cert in ps[e].votes)
                  && version == (if has then ps[e].votes[cert].version else 0))
  {
    hide Where, Load, ShowsVotes, ShowsSpent, BoxOf, UniqueIds, IdSeq, BoxInv, Eligible;
    JoinedRule(s, e, cert);
    LoadedIs(s, e);
    if e in ps {
      assert ShowsPoll(s, e, ps[e]);
      OwnedShown(s, e, ps[e], cert);
    }
  }

  lemma OwnedShown(s: Store, e: Id, p: Poll, c: string)
    requires Inv(s) && ShowsPoll(s, e, p)
    ensures var mine := Where(s.owners, OwnedBy(e, c));
            (mine != [] <==> c in p.votes) && (mine != [] ==> mine[0].version == p.votes[c].version)
  {
    hide Where, UniqueIds, IdSeq, ShowsHead, ShowsSpent, BoxInv;
    assert Sound(s, e);
    SoundBacked(s, e);
    WhereAbsorb(s.owners, OwnedBy(e, c), OwnersIn(e));
    VersionShown(e, BoxOf(s, e), p, c);
    if c in p.votes {
      assert Holds(e, BoxOf(s, e), c, RowOf(e, p.votes[c]));
    }
  }

  // ---- a whole history ----

  /** Starting from nothing, whatever is created, moved and cast: the results given out at the end count, for
      every option, the voters whose last accepted ballot chose it. */
  lemma HistoryCounts(evs: seq<Event>, e: Id, voter: Option<string>)
    requires TrustedRun(EMPTY, evs)
    ensures var ps := PollsAfter(EMPTY, map[], evs);
            var out := Brain.Answered(Run(EMPTY, evs), e, voter).1;
            && (out.Some? <==> e in ps && ps[e].state == Published && (voter.None? || voter.value in ps[e].eligible))
            && (out.Some? ==>
                  && |out.value.tally| == |out.value.options| == |ps[e].options|
                  && forall i :: 0 <= i < |ps[e].options| ==>
                       out.value.options[i] == ps[e].options[i] && out.value.tally[i] == |Choosers(ps[e], i)|)
  {
    hide Inv, Shows, PollsAfter, Run, TrustedRun, Choosers, Brain.Answered;
    InitialInv();
    NoPolls();
    RunShown(EMPTY, map[], evs);
    ResultsShown(Run(EMPTY, evs), PollsAfter(EMPTY, map[], evs), e, voter);
  }
}
