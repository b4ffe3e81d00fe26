/**
 * The daemon's JOIN and RESULTS answers as a client receives them: what the store can hold makes every
 * one of them writable, and it comes back whole.
 */
module BallotServed {
  import opened Basics
  import opened Tables
  import opened BallotStore
  import opened BallotBox
  import opened BallotIds
  import opened BallotRuns
  import opened BallotLaws
  import Brain = BallotBrain
  import Codec = BallotCodec
  import Trip = BallotTrip
  import Laws = HtttpLaws
  import A = BallotAnswer
  import T = BallotAnswerTrip
  import opened Word32
  import Receipts

  // ---- what the store's texts look like in every run ----

  /** A receipt's 64 digits. */
  predicate HashText(h: string) {
    |h| == Receipts.HASH_DIGITS && forall i :: 0 <= i < |h| ==> '0' <= h[i] <= 'f'
  }

  ghost predicate ElectionClean(r: ElectionRow) {
    Codec.Clean(r.id) && Codec.Clean(r.title) && Codec.Clean(r.openTime) && Codec.Clean(r.closeTime)
  }

  /** No stored text breaks a line, and every ballot's hash is one the daemon made. */
  ghost predicate TextsOk(s: Store) {
    && (forall r :: r in s.elections ==> ElectionClean(r))
    && (forall o :: o in s.options ==> Codec.Clean(o.name))
    && (forall b :: b in s.ballots ==> HashText(b.hash))
  }

  lemma {:induction false} DigitsAreHex(state: U32, n: nat)
    ensures forall i :: 0 <= i < n ==> '0' <= Receipts.Digits(state, n)[i] <= 'f'
    decreases n
  {
    hide Wrap;
    if n > 0 {
      DigitsAreHex(Wrap(state * 1103515245 + 12345), n - 1);
    }
  }

  lemma HashIsText(nonce: string, version: int)
    ensures HashText(Receipts.HashOf(nonce, version))
  {
    hide Receipts.Digits, Receipts.Fold, Xor, Wrap;
    var seed: int := Wrap(Xor(Receipts.Fold(nonce), Wrap(version * 2246822519)));
    DigitsAreHex(Wrap(seed * 2654435761 + 1), Receipts.HASH_DIGITS);
  }

  lemma SafeIsClean(s: string)
    requires !Unsafe(s)
    ensures Codec.Clean(s)
  {
  }

  lemma InsertTexts(s: Store, id: Id, c: Config)
    requires TextsOk(s) && StorableConfig(id, c)
    ensures TextsOk(Inserted(s, id, IdSeq(id), c))
  {
    hide Unsafe, IdSeq, Codec.Clean;
    SafeIsClean(id);
    SafeIsClean(c.title);
    SafeIsClean(c.openTime);
    SafeIsClean(c.closeTime);
    var names := Take(c.options, MAX_OPTIONS);
    forall i | 0 <= i < |names| ensures Codec.Clean(names[i]) {
      SafeIsClean(names[i]);
    }
  }

  lemma MoveTexts(s: Store, e: Id, to: State)
    requires TextsOk(s)
    ensures TextsOk(Transition(s, e, to).1)
  {
    hide Where, Codec.Clean, Load;
    if Transition(s, e, to).0 == Ok {
      var rows, rest := Where(s.elections, IsElection(e)), Where(s.elections, Not(IsElection(e)));
      WhereIn(s.elections, IsElection(e), rows[0]);
      forall r | r in rest ensures ElectionClean(r) {
        WhereIn(s.elections, Not(IsElection(e)), r);
      }
    }
  }

  lemma RecordTexts(s: Store, e: Id, b: Ballot)
    requires TextsOk(s) && Decide(s, e, b).Accept?
    ensures TextsOk(Decide(s, e, b).store)
  {
    hide Where, Codec.Clean, Load, Decide, Recorded, HashText, Receipts.HashOf, ElectionClean;
    AcceptFacts(s, e, b);
    RecordedTables(s, e, b);
    var added := AddedRow(s, e, b);
    HashIsText(b.nonce, added.version);
    var all := s.ballots + [added];
    forall r | r in Decide(s, e, b).store.ballots ensures HashText(r.hash) {
      RowsFrom(e, s.ballots, added, r, Decide(s, e, b).store.ballots);
    }
  }

  /** Every row after a recording bears the hash of a row before it, or the new one. */
  lemma RowsFrom(e: Id, ballots: seq<BallotRow>, added: BallotRow, r: BallotRow, after: seq<BallotRow>)
    requires r in after && exists prior :: after == NewBallots(e, ballots, added, prior)
    ensures exists b :: b in ballots + [added] && b.hash == r.hash
  {
    hide Where;
    var prior :| after == NewBallots(e, ballots, added, prior);
    var all := ballots + [added];
    if prior.Some? && Where(all, HashIs(e, prior.value)) != [] {
      var first := Where(all, HashIs(e, prior.value))[0];
      WhereIn(all, HashIs(e, prior.value), first);
      if r in Where(all, Not(HashIs(e, prior.value))) {
        WhereIn(all, Not(HashIs(e, prior.value)), r);
        assert r in all;
      } else {
        assert first in all && first.hash == r.hash;
      }
    } else {
      assert r in all;
    }
  }

  /** Every event, trusted or not, keeps the store's texts so. */
  lemma NextTexts(s: Store, ev: Event)
    requires TextsOk(s)
    ensures TextsOk(Next(s, ev))
  {
    hide TextsOk, Transition, Decide, StorableConfig, Validate, Inserted, ChosenId, IdSeq;
    match ev
    case Create(c, d, ok) =>
      if Created(s, c, d, ok).0 == Ok {
        InsertTexts(s, ChosenId(s, d, ok).value, c);
      }
    case Move(e, to) => MoveTexts(s, e, to);
    case Record(e, b) =>
      if Decide(s, e, b).Accept? {
        RecordTexts(s, e, b);
      }
  }

  lemma {:induction false} RunTexts(s: Store, evs: seq<Event>)
    requires TextsOk(s)
    ensures TextsOk(Run(s, evs))
    decreases |evs|
  {
    hide TextsOk, Next;
    if evs != [] {
      NextTexts(s, evs[0]);
      RunTexts(Next(s, evs[0]), evs[1..]);
    }
  }

  // ---- the answers ----

  /** A C string as an array of this size holds it. */
  function Stored(s: string, size: nat): (t: string)
    requires size > 0
    ensures Trip.Text(t, size)
    ensures Trip.Text(s, size) ==> t == s
  {
    Cut(CStr(s), size - 1)
  }

  function StoredAll(all: seq<string>, size: nat): (ts: seq<string>)
    requires size > 0
    ensures |ts| == |all| && Trip.Texts(ts, size)
    ensures forall i :: 0 <= i < |all| ==> ts[i] == Stored(all[i], size)
  {
    if all == [] then [] else [Stored(all[0], size)] + StoredAll(all[1..], size)
  }

  lemma StoredClean(s: string, size: nat)
    requires size > 0 && Codec.Clean(s)
    ensures Codec.Clean(Stored(s, size))
  {
    hide IndexOf;
  }

  lemma StoredAllClean(all: seq<string>, size: nat)
    requires size > 0 && T.CleanAll(all)
    ensures T.CleanAll(StoredAll(all, size))
  {
    hide Stored, Codec.Clean, StoredAll;
    var ts := StoredAll(all, size);
    forall i | 0 <= i < |ts| ensures Codec.Clean(ts[i]) {
      StoredClean(all[i], size);
    }
  }

  /** dispatch of JOIN, with the election in the response's arrays. */
  function JoinAnswer(s: Store, e: Id, cert: string): A.Answer {
    var (r, el, has, v) := Brain.Joined(s, e, cert);
    var a := A.NoAnswer().(status := r, hasBallot := if has then 1 else 0, version := v);
    match el
    case None => a
    case Some(el) =>
      a.(id := Stored(el.id, Codec.ID_LEN), title := Stored(el.title, Codec.TITLE_LEN), state := el.state,
         openTime := Stored(el.openTime, Codec.TIME_LEN), closeTime := Stored(el.closeTime, Codec.TIME_LEN),
         options := StoredAll(el.options, Codec.OPTION_LEN))
  }

  lemma LoadedClean(s: Store, e: Id)
    requires TextsOk(s) && Load(s, e).Some?
    ensures var el := Load(s, e).value;
            && Codec.Clean(el.id) && Codec.Clean(el.title) && Codec.Clean(el.openTime) && Codec.Clean(el.closeTime)
            && T.CleanAll(el.options) && |el.options| <= MAX_OPTIONS
  {
    hide Where, Codec.Clean;
    var rows := Where(s.elections, IsElection(e));
    WhereIn(s.elections, IsElection(e), rows[0]);
    assert ElectionClean(rows[0]);
    var options := Where(s.options, OptionsIn(e));
    forall o | o in options ensures Codec.Clean(o.name) {
      WhereIn(s.options, OptionsIn(e), o);
    }
    forall i | 0 <= i < |OptionNames(options)| ensures Codec.Clean(OptionNames(options)[i]) {
      OptionAtClean(options, i);
    }
  }

  lemma {:induction false} OptionAtClean(rows: seq<OptionRow>, i: int)
    requires forall o :: o in rows ==> Codec.Clean(o.name)
    ensures Codec.Clean(OptionAt(rows, i))
  {
    hide Codec.Clean;
    if rows == [] {
      T.NothingIsClean();
    } else if rows[|rows| - 1].idx != i {
      OptionAtClean(rows[..|rows| - 1], i);
    }
  }

  /** What a client is told, if the answer can be written. */
  ghost function Told(op: Codec.Op, a: A.Answer, date: string): Option<A.Answer> {
    match A.HttpAnswer(op, a)
    case None => None
    case Some(http) => T.ReceivedAnswer(http, date)
  }

  lemma JoinedNeverRetry(s: Store, e: Id, cert: string)
    ensures Brain.Joined(s, e, cert).0 != Retry
    ensures Brain.Joined(s, e, cert).1.Some? ==> Brain.Joined(s, e, cert).1 == Load(s, e)
  {
    hide Where, Load;
  }

  /** Every JOIN answer the daemon gives can be written and reaches the client whole, as long as the
      voter's version is an int. */
  lemma JoinTold(s: Store, e: Id, cert: string, date: string)
    requires TextsOk(s) && Laws.DateText(date) && A.IsInt(Brain.Joined(s, e, cert).3)
    ensures Told(Codec.Join, JoinAnswer(s, e, cert), date) == Some(T.Carried(Codec.Join, JoinAnswer(s, e, cert)))
  {
    hide TextsOk, Brain.Joined, Load, Stored, StoredAll, A.HttpAnswer, T.ReceivedAnswer, Codec.Clean, T.CleanAll;
    hide Laws.DateText;
    var a := JoinAnswer(s, e, cert);
    JoinedNeverRetry(s, e, cert);
    JoinHeld(s, e, cert);
    if a.id != [] {
      JoinClean(s, e, cert);
    }
    T.AnswerEncodes(Codec.Join, a);
    T.AnswerComesBack(Codec.Join, a, A.HttpAnswer(Codec.Join, a).value, date);
  }

  lemma JoinHeld(s: Store, e: Id, cert: string)
    requires A.IsInt(Brain.Joined(s, e, cert).3)
    ensures T.AnswerHeld(JoinAnswer(s, e, cert))
  {
    hide Brain.Joined, Stored, StoredAll, Where;
    JoinedNeverRetry(s, e, cert);
  }

  lemma JoinClean(s: Store, e: Id, cert: string)
    requires TextsOk(s) && Brain.Joined(s, e, cert).1.Some?
    ensures T.CleanAnswer(Codec.Join, JoinAnswer(s, e, cert))
  {
    hide Brain.Joined, Stored, StoredAll, Where, TextsOk, Codec.Clean, T.CleanAll, Load;
    JoinedNeverRetry(s, e, cert);
    LoadedClean(s, e);
    var el := Load(s, e).value;
    StoredClean(el.id, Codec.ID_LEN);
    StoredClean(el.title, Codec.TITLE_LEN);
    StoredClean(el.openTime, Codec.TIME_LEN);
    StoredClean(el.closeTime, Codec.TIME_LEN);
    StoredAllClean(el.options, Codec.OPTION_LEN);
  }

  // ---- RESULTS ----

  function RowsOf(rows: seq<BallotRow>): (out: seq<A.Row>)
    ensures |out| == |rows|
    ensures forall i :: 0 <= i < |rows| ==>
              out[i] == A.Row(rows[i].hash, rows[i].option, rows[i].version, if rows[i].superseded then 1 else 0)
  {
    if rows == [] then []
    else [A.Row(rows[0].hash, rows[0].option, rows[0].version, if rows[0].superseded then 1 else 0)] + RowsOf(rows[1..])
  }

  /** dispatch of RESULTS (a voter) and ADMIN_RESULTS (none). */
  function ResultsAnswer(s: Store, e: Id, voter: Option<string>): A.Answer {
    var (r, out) := Brain.Answered(s, e, voter);
    var a := A.NoAnswer().(status := r);
    match out
    case None => a
    case Some(results) =>
      a.(id := Stored(e, Codec.ID_LEN), title := Stored(results.title, Codec.TITLE_LEN),
         tallyCount := |results.options|, tally := results.tally, names := StoredAll(results.options, Codec.OPTION_LEN),
         rowCount := |results.hashes|, rows := RowsOf(results.hashes))
  }

  /** Options and versions of the rows a results read lists are ints. */
  ghost predicate RowsInRange(s: Store, e: Id) {
    forall b :: b in s.ballots && LiveIn(e)(b) ==> A.IsInt(b.option) && A.IsInt(b.version)
  }

  lemma HashTextPlain(h: string)
    requires HashText(h)
    ensures Trip.Text(h, Codec.HASH_LEN) && Codec.Clean(h) && h != [] && ',' !in h
  {
  }

  lemma ListedRows(s: Store, e: Id, rows: seq<BallotRow>)
    requires TextsOk(s) && RowsInRange(s, e) && rows == Where(s.ballots, LiveIn(e))
    ensures T.RowsHeld(RowsOf(rows)) && T.PlainRows(RowsOf(rows)) && T.CleanHashes(RowsOf(rows))
  {
    hide Where, HashText, Codec.Clean, Trip.Text, RowsOf;
    var out := RowsOf(rows);
    forall i | 0 <= i < |rows|
      ensures A.RowHeld(out[i]) && out[i].hash != [] && ',' !in out[i].hash && Codec.Clean(out[i].hash)
    {
      WhereIn(s.ballots, LiveIn(e), rows[i]);
      HashTextPlain(rows[i].hash);
    }
  }

  lemma TalliesAreInts(s: Store, e: Id)
    requires Inv(s) && Load(s, e).Some?
    ensures var r := ResultsOf(s, e, Load(s, e).value);
            && |r.tally| == |r.options| <= MAX_OPTIONS && A.Ints(r.tally)
            && r.hashes == Where(s.ballots, LiveIn(e)) && |r.hashes| <= MAX_VOTERS
  {
    hide Where, Inv, TallyOf;
    LiveAtMostEligible(s, e);
    var r := ResultsOf(s, e, Load(s, e).value);
    forall i | 0 <= i < |r.tally| ensures A.IsInt(r.tally[i]) {
      HashesMatchTally(s, e, i);
    }
  }

  lemma ResultsHeld(s: Store, e: Id, voter: Option<string>)
    requires Inv(s) && TextsOk(s) && RowsInRange(s, e)
    ensures var a := ResultsAnswer(s, e, voter);
            T.AnswerHeld(a) && T.PlainRows(a.rows) && T.CleanHashes(a.rows) && a.status != Retry
  {
    hide Inv, TextsOk, RowsInRange, Stored, StoredAll, RowsOf, Load, T.RowsHeld, T.PlainRows, T.CleanHashes, A.Ints;
    T.NoRowsPlain();
    NothingListed();
    if Load(s, e).Some? {
      TalliesAreInts(s, e);
      ListedRows(s, e, Where(s.ballots, LiveIn(e)));
    }
  }

  lemma NothingListed()
    ensures T.RowsHeld([]) && T.CleanHashes([]) && A.Ints([]) && Trip.Texts([], Codec.OPTION_LEN)
  {
  }

  lemma ResultsClean(s: Store, e: Id, voter: Option<string>)
    requires TextsOk(s) && Codec.Clean(e) && T.CleanHashes(ResultsAnswer(s, e, voter).rows)
    ensures T.CleanAnswer(Codec.Results, ResultsAnswer(s, e, voter))
  {
    hide TextsOk, Stored, StoredAll, RowsOf, Load, T.CleanHashes, Codec.Clean, T.CleanAll, Where;
    T.NothingIsClean();
    NoNamesClean();
    if Brain.Answered(s, e, voter).1.Some? {
      LoadedClean(s, e);
      var el := Load(s, e).value;
      StoredClean(e, Codec.ID_LEN);
      StoredClean(el.title, Codec.TITLE_LEN);
      StoredAllClean(el.options, Codec.OPTION_LEN);
    }
  }

  lemma NoNamesClean()
    ensures T.CleanAll([])
  {
  }

  /** Every RESULTS answer the daemon gives can be written and reaches the client whole: tally, names
      and every listed row. The id is the one the request brought, which breaks no line. */
  lemma ResultsTold(s: Store, e: Id, voter: Option<string>, date: string)
    requires Inv(s) && TextsOk(s) && RowsInRange(s, e) && Codec.Clean(e) && Laws.DateText(date)
    ensures var a := ResultsAnswer(s, e, voter);
            Told(Codec.Results, a, date) == Some(T.Carried(Codec.Results, a))
  {
    hide Inv, TextsOk, RowsInRange, ResultsAnswer, A.HttpAnswer, T.ReceivedAnswer, T.AnswerHeld, T.CleanAnswer;
    hide T.PlainRows, T.CleanHashes, Codec.Clean, Laws.DateText;
    var a := ResultsAnswer(s, e, voter);
    ResultsHeld(s, e, voter);
    ResultsClean(s, e, voter);
    T.AnswerEncodes(Codec.Results, a);
    T.AnswerComesBack(Codec.Results, a, A.HttpAnswer(Codec.Results, a).value, date);
  }
}
