/**
 * When the daemon says yes and when no: every result of every operation, with its exact condition on the
 * tables (ballotbox/src/libballotbrain/handlers.c, lifecycle.c, config.c).
 */
module BallotRules {
  import opened Basics
  import opened Tables
  import opened BallotStore
  import opened BallotBox
  import opened BallotIds
  import opened BallotRuns
  import opened BallotLaws
  import Brain = BallotBrain
  import Receipts

  lemma LoadedIs(s: Store, e: Id)
    ensures Load(s, e).Some? <==> Exists(s, e)
    ensures Exists(s, e) ==>
              && Load(s, e).value.state == StateOf(s, e) && Load(s, e).value.eligible == Eligible(s, e)
              && |Load(s, e).value.options| == OptionCount(s, e)
              && forall i :: 0 <= i < OptionCount(s, e) ==> Load(s, e).value.options[i] == OptionAt(OptionRows(s, e), i)
  {
    hide Where;
  }

  // ---- recording ----

  /** In a sound store the writes of a recording never fail of their own accord. */
  lemma RecordingWorks(s: Store, e: Id, b: Ballot)
    requires Inv(s)
    ensures Recorded(s, e, b).Accept?
  {
    hide Where, Receipts.HashOf, UniqueIds, IdSeq, UniqueHashes, UniqueNonces, LiveOwned, Admissible, Balanced, UniqueOwners;
    var mine := Where(s.owners, OwnedBy(e, b.cert));
    if mine != [] {
      var x, o := BoxOf(s, e), mine[0];
      assert Sound(s, e);
      WhereIn(s.owners, OwnedBy(e, b.cert), o);
      WhereIn(s.owners, OwnersIn(e), o);
      assert Backed(e, x, o);
      WhereAbsorb(s.ballots, HashIs(e, o.hash), BallotsIn(e));
      WhereAppend(s.ballots, AddedRow(s, e, b), HashIs(e, o.hash));
    }
  }

  /** A ballot is accepted exactly when its election is open, its voter listed, its option one of the
      election's and its nonce unused there; and each refusal has its own exact case. */
  lemma DecideRule(s: Store, e: Id, b: Ballot)
    requires Inv(s)
    ensures var d, option := Decide(s, e, b), OptionOf(b.payload);
            var open := Exists(s, e) && StateOf(s, e) == Open;
            var admitted := open && b.cert in Eligible(s, e);
            var valid := admitted && 0 <= option < OptionCount(s, e);
            var unused := Where(s.nonces, NonceIs(e, b.nonce)) == [];
            && (d.Accept? <==> valid && unused)
            && (Refuses(d, NotFound) <==> !Exists(s, e))
            && (Refuses(d, ElectionClosed) <==> Exists(s, e) && StateOf(s, e) in {Closed, Published})
            && (Refuses(d, NotOpen) <==> Exists(s, e) && StateOf(s, e) == Draft)
            && (Refuses(d, NotEligible) <==> open && b.cert !in Eligible(s, e))
            && (Refuses(d, BadOption) <==> admitted && !valid)
            && (Refuses(d, Replay) <==> valid && !unused)
  {
    hide Where, Recorded, Load, Inv, Eligible, OptionCount;
    LoadedIs(s, e);
    RecordingWorks(s, e, b);
  }

  predicate Refuses(d: Decision, code: Code) {
    d.Refuse? && d.code == code
  }

  // ---- joining ----

  /** A join is admitted exactly when the election is open and the voter listed; it then reports the
      voter's owner row, and each refusal has its own exact case. */
  lemma JoinedRule(s: Store, e: Id, cert: string)
    ensures var (r, el, has, version) := Brain.Joined(s, e, cert);
            var listed := Exists(s, e) && cert != "" && cert in Eligible(s, e);
            var mine := Where(s.owners, OwnedBy(e, cert));
            && (r == Ok <==> listed && StateOf(s, e) == Open)
            && (r == NotFound <==> !Exists(s, e))
            && (r == CertInvalid <==> Exists(s, e) && cert == "")
            && (r == NotEligible <==> Exists(s, e) && cert != "" && cert !in Eligible(s, e))
            && (r == NotOpen <==> listed && StateOf(s, e) != Open)
            && (r == Ok ==> el == Load(s, e) && (has <==> mine != []) && version == (if has then mine[0].version else 0))
            && (r != Ok ==> el == None && !has && version == 0)
  {
    hide Where, Load, Eligible;
    LoadedIs(s, e);
  }

  // ---- results ----

  /** Results are given out exactly when the election is published and the asking voter, if it is one,
      listed. */
  lemma AnsweredRule(s: Store, e: Id, voter: Option<string>)
    ensures var (r, out) := Brain.Answered(s, e, voter);
            var published := Exists(s, e) && StateOf(s, e) == Published;
            && (r == Ok <==> published && (voter.None? || voter.value in Eligible(s, e)))
            && (r == NotFound <==> !Exists(s, e))
            && (r == NotPublished <==> Exists(s, e) && StateOf(s, e) != Published)
            && (r == NotEligible <==> published && voter.Some? && voter.value !in Eligible(s, e))
            && (out.Some? <==> r == Ok)
  {
    hide Where, Load, Eligible;
    LoadedIs(s, e);
  }

  /** What a results answer holds: the title, every option by name with the number of live ballots for it,
      and every live ballot. */
  lemma AnsweredHolds(s: Store, e: Id, voter: Option<string>)
    requires Inv(s) && Brain.Answered(s, e, voter).0 == Ok
    ensures var out := Brain.Answered(s, e, voter).1.value;
            && out.title == Where(s.elections, IsElection(e))[0].title
            && |out.options| == |out.tally| == OptionCount(s, e)
            && (forall i :: 0 <= i < OptionCount(s, e) ==>
                  && out.options[i] == OptionAt(OptionRows(s, e), i)
                  && out.tally[i] == |Where(s.ballots, LiveFor(e, i))|)
            && out.hashes == Where(s.ballots, LiveIn(e))
  {
    hide Where, Inv, TallyOf;
    AnsweredRule(s, e, voter);
    LoadedIs(s, e);
    LiveAtMostEligible(s, e);
  }

  /** Once published, every asker gets the same answer for ever. */
  lemma AnswersFixed(s: Store, evs: seq<Event>, e: Id, voter: Option<string>)
    requires Inv(s) && TrustedRun(s, evs) && Exists(s, e) && StateOf(s, e) == Published
    ensures Brain.Answered(Run(s, evs), e, voter) == Brain.Answered(s, e, voter)
  {
    hide Inv, TrustedRun, Load, ResultsOf, Run;
    PublishedResultsFixed(s, evs, e);
  }

  /** Until it is published nobody gets any result, in any run. */
  lemma {:induction false} HiddenUntilPublished(s: Store, evs: seq<Event>, e: Id, voter: Option<string>)
    ensures Brain.Answered(Run(s, evs), e, voter).1.Some? ==>
              Exists(Run(s, evs), e) && StateOf(Run(s, evs), e) == Published
  {
    hide Run;
    AnsweredRule(Run(s, evs), e, voter);
  }

  // ---- the lists an election was created with ----

  /** No event changes the options or the voters of an election that exists. */
  lemma EventLists(s: Store, ev: Event, e: Id)
    requires Inv(s) && Trusted(s, ev) && Exists(s, e)
    ensures var t := Next(s, ev);
            OptionRows(t, e) == OptionRows(s, e) && Where(t.eligible, EligibleIn(e)) == Where(s.eligible, EligibleIn(e))
  {
    hide Sound, Decide, Recorded, Created, Transition, Where, IdSeq, BoxOf, MaxSeq, OptionRows;
    match ev
    case Create(c, d, ok) => CreateOnElection(s, c, d, ok, e);
    case Move(f, to) => MoveOnElection(s, f, to, e);
    case Record(f, b) =>
      if Decide(s, f, b).Accept? {
        AcceptFacts(s, f, b);
        RecordedBox(s, f, b);
        SameListRows(s, Next(s, ev), e);
      }
  }

  lemma SameListRows(s: Store, t: Store, e: Id)
    requires t.options == s.options && t.eligible == s.eligible
    ensures OptionRows(t, e) == OptionRows(s, e) && Where(t.eligible, EligibleIn(e)) == Where(s.eligible, EligibleIn(e))
  {
  }

  /** Everything about an election but its state and its ballots is as it was, in every run. */
  lemma {:induction false} ListsFixed(s: Store, evs: seq<Event>, e: Id)
    requires Inv(s) && TrustedRun(s, evs) && Exists(s, e)
    ensures var t := Run(s, evs);
            && Inv(t) && Exists(t, e) && SameColumns(s, t, e) && OptionRows(t, e) == OptionRows(s, e)
            && Where(t.eligible, EligibleIn(e)) == Where(s.eligible, EligibleIn(e))
    decreases |evs|
  {
    hide Inv, Next, Trusted, Where, OptionRows;
    if evs != [] {
      NextKeeps(s, evs[0]);
      EventOnElection(s, evs[0], e);
      EventLists(s, evs[0], e);
      ListsFixed(Next(s, evs[0]), evs[1..], e);
    }
  }

  // ---- checking a receipt ----

  /** A check finds a hash exactly when a live ballot of the election bears it, and then names its option. */
  lemma CheckedRule(s: Store, e: Id, h: string)
    ensures var (r, row, name) := Brain.Checked(s, e, h);
            && (r == Ok <==> Exists(s, e) && Lookup(s, e, h).Some?)
            && (r != Ok ==> r == NotFound && row == None && name == "")
            && (r == Ok ==>
                  && row == Lookup(s, e, h)
                  && name == if 0 <= row.value.option < OptionCount(s, e) then OptionAt(OptionRows(s, e), row.value.option) else "")
  {
    hide Where, Load, Lookup, OptionCount;
    LoadedIs(s, e);
  }

  /** From an accepted ballot until that voter's next, a check of its receipt answers with the ballot and
      the name the election gives the option the voter chose; from then on it finds nothing. */
  lemma CheckLifetime(s: Store, e: Id, b: Ballot, before: seq<Event>, again: Event, after: seq<Event>)
    requires Inv(s) && Decide(s, e, b).Accept? && Trusted(s, Record(e, b))
    requires var t := Decide(s, e, b).store; TrustedRun(t, before) && Silent(t, before, e, b.cert)
    ensures var d := Decide(s, e, b);
            Brain.Checked(Run(d.store, before), e, d.hash)
            == (Ok, Some(BallotRow(e, d.hash, OptionOf(b.payload), VersionFor(e, BoxOf(s, e), b.cert), false)),
                OptionAt(OptionRows(s, e), OptionOf(b.payload)))
    ensures var u := Run(Decide(s, e, b).store, before);
            Replaces(u, again, e, b.cert) && Trusted(u, again) && TrustedRun(Next(u, again), after) ==>
              Brain.Checked(Run(Next(u, again), after), e, Decide(s, e, b).hash) == (NotFound, None, "")
  {
    hide Inv, Decide, Next, Trusted, Holds, Retired, BoxOf, Where, Lookup, Replaces, Silent, TrustedRun, Run, OptionRows;
    hide Brain.Checked, OptionAt;
    var d := Decide(s, e, b);
    var row := BallotRow(e, d.hash, OptionOf(b.payload), VersionFor(e, BoxOf(s, e), b.cert), false);
    RecordExists(s, e, b);
    ReceiptIssued(s, e, b);
    HoldsThroughout(d.store, before, e, b.cert, row);
    var u := Run(d.store, before);
    LookupHolds(u, e, b.cert, row);
    CheckedRule(u, e, d.hash);
    OptionsSince(s, e, b, before);
    ReceiptLifetime(s, e, b, before, again, after);
    if Replaces(u, again, e, b.cert) && Trusted(u, again) && TrustedRun(Next(u, again), after) {
      CheckedRule(Run(Next(u, again), after), e, d.hash);
    }
  }

  lemma OptionsSince(s: Store, e: Id, b: Ballot, before: seq<Event>)
    requires Inv(s) && Decide(s, e, b).Accept? && Trusted(s, Record(e, b)) && TrustedRun(Decide(s, e, b).store, before)
    ensures var u := Run(Decide(s, e, b).store, before);
            && Exists(u, e) && OptionRows(u, e) == OptionRows(s, e) && 0 <= OptionOf(b.payload) < OptionCount(u, e)
  {
    hide Inv, Decide, Recorded, Where, BoxOf, TrustedRun, Run, OptionNames, Trusted;
    var t := Decide(s, e, b).store;
    AcceptFacts(s, e, b);
    RecordExists(s, e, b);
    RecordedBox(s, e, b);
    SameListRows(s, t, e);
    ListsFixed(t, before, e);
  }

  // ---- states ----

  /** A change of state is made exactly when the election exists and the new state is the next one; it
      then is the state, and everything else about every election stays. */
  lemma TransitionRule(s: Store, e: Id, to: State)
    requires Inv(s)
    ensures var (r, t) := Transition(s, e, to);
            && (r == Ok <==> Exists(s, e) && Rank(to) == Rank(StateOf(s, e)) + 1)
            && (r == NotFound <==> !Exists(s, e))
            && (r == IllegalTransition <==> Exists(s, e) && Rank(to) != Rank(StateOf(s, e)) + 1)
            && (r != Ok ==> t == s)
            && (r == Ok ==> Exists(t, e) && StateOf(t, e) == to && SameColumns(s, t, e))
            && t == s.(elections := t.elections)
            && forall f :: f != e ==> Where(t.elections, IsElection(f)) == Where(s.elections, IsElection(f))
  {
    hide Where, Load, BoxInv;
    LoadedIs(s, e);
    if Transition(s, e, to).0 == Ok {
      forall f ensures f != e ==> Where(Transition(s, e, to).1.elections, IsElection(f)) == Where(s.elections, IsElection(f)) {
        MovedElections(s, e, to, f);
      }
      MovedElections(s, e, to, e);
    }
  }

  // ---- creating ----

  /** x comes before y, byte by byte. */
  ghost predicate Before(x: string, y: string) {
    exists k :: 0 <= k <= |x| && FirstDifference(x, y, k)
  }

  ghost predicate FirstDifference(x: string, y: string, k: nat)
    requires k <= |x|
  {
    k < |y| && x[..k] == y[..k] && (k == |x| || x[k] < y[k])
  }

  lemma {:induction false} NotAfterIsBefore(a: string, b: string)
    ensures NotAfter(a, b) <==> !Before(b, a)
  {
    if a != [] && b != [] && a[0] == b[0] {
      NotAfterIsBefore(a[1..], b[1..]);
      if Before(b[1..], a[1..]) {
        var k :| 0 <= k <= |b[1..]| && FirstDifference(b[1..], a[1..], k);
        assert b[..k + 1] == [b[0]] + b[1..][..k] && a[..k + 1] == [a[0]] + a[1..][..k];
        assert FirstDifference(b, a, k + 1);
      }
      if Before(b, a) {
        var k :| 0 <= k <= |b| && FirstDifference(b, a, k);
        assert k > 0;
        assert b[1..][..k - 1] == b[..k][1..] && a[1..][..k - 1] == a[..k][1..];
        assert FirstDifference(b[1..], a[1..], k - 1);
      }
    } else if b == [] && a != [] {
      assert FirstDifference(b, a, 0);
    } else if a != [] && b != [] {
      assert FirstDifference(b, a, 0) <==> b[0] < a[0];
      forall k | 0 < k <= |b| ensures !FirstDifference(b, a, k) {
        if k < |a| {
          assert b[..k][0] == b[0] && a[..k][0] == a[0];
        }
      }
    }
  }

  /** An election is created exactly when it has a title and two options, opens before it closes, does not
      claim an id in use, and holds no text that cannot be stored; each refusal has its own exact case. */
  lemma CreatedRule(s: Store, c: Config, desired: Id, readOk: bool)
    ensures var (r, t) := Created(s, c, desired, readOk);
            var listed := c.title != "" && |c.options| >= 2;
            var valid := listed && Before(c.openTime, c.closeTime);
            var claimed := desired != "" && Exists(s, desired);
            && (r == ConfigTitle <==> c.title == "")
            && (r == ConfigOptions <==> c.title != "" && |c.options| < 2)
            && (r == ConfigTime <==> listed && !valid)
            && (r == ConfigIdTaken <==> valid && claimed)
            && (claimed <==> ChosenId(s, desired, readOk).None?)
            && (r == Ok <==> valid && !claimed && StorableConfig(ChosenId(s, desired, readOk).value, c))
            && (r == DbError <==> valid && !claimed && !StorableConfig(ChosenId(s, desired, readOk).value, c))
            && (r != Ok ==> t == s)
  {
    hide Where, Load, AllocId, StorableConfig, Inserted, IdSeq, NotAfter, Before;
    NotAfterIsBefore(c.closeTime, c.openTime);
    LoadedIs(s, desired);
  }

  lemma {:induction false} OptionAtIndex(e: Id, names: seq<string>, rows: seq<OptionRow>, i: int)
    requires 0 <= i < |rows| <= |names| && forall k :: 0 <= k < |rows| ==> rows[k] == OptionRow(e, k, names[k])
    ensures OptionAt(rows, i) == names[i]
    decreases |rows|
  {
    if i < |rows| - 1 {
      OptionAtIndex(e, names, rows[..|rows| - 1], i);
    }
  }

  /** The election a creation makes: what loading it gives back is the configuration, in draft, its options
      and voters cut to the 16 and 64 that are kept. */
  function Configured(id: Id, c: Config, state: State): Election {
    Election(id, c.title, state, Take(c.options, MAX_OPTIONS), Take(c.eligible, MAX_VOTERS), c.openTime, c.closeTime)
  }

  lemma CreatedLoads(s: Store, c: Config, desired: Id, readOk: bool)
    requires Inv(s) && Trusted(s, Create(c, desired, readOk)) && Created(s, c, desired, readOk).0 == Ok
    ensures var id := ChosenId(s, desired, readOk).value;
            Load(Created(s, c, desired, readOk).1, id) == Some(Configured(id, c, Draft))
  {
    hide Where, AllocId, IdSeq, StorableConfig, Validate, IdClash, BoxInv, Load, Trusted;
    assert Trusted(s, Create(c, desired, readOk)) ==> (desired == "" ==> !IdClash(s.elections, readOk)) by {
      TrustedCreate(s, c, desired, readOk);
    }
    var id := ChosenId(s, desired, readOk).value;
    ChosenIdTakenIff(s, desired, readOk);
    assert Sound(s, id);
    InsertedLoads(s, id, c);
  }

  lemma TrustedCreate(s: Store, c: Config, desired: Id, readOk: bool)
    requires Trusted(s, Create(c, desired, readOk))
    ensures desired == "" ==> !IdClash(s.elections, readOk)
  {
    hide Decide, IdClash;
  }

  lemma InsertedLoads(s: Store, id: Id, c: Config)
    requires !Exists(s, id) && NoTrace(s, id)
    ensures Load(Inserted(s, id, IdSeq(id), c), id) == Some(Configured(id, c, Draft))
  {
    hide Where, IdSeq;
    var t := Inserted(s, id, IdSeq(id), c);
    var names, voters := Take(c.options, MAX_OPTIONS), Take(c.eligible, MAX_VOTERS);
    var rows, listed := OptionRowsOf(id, names), EligibleRowsOf(id, voters);
    WhereAppend(s.elections, ElectionRow(IdSeq(id), id, c.title, Draft, c.openTime, c.closeTime), IsElection(id));
    WhereConcat(s.options, rows, OptionsIn(id));
    WhereAll(rows, OptionsIn(id));
    WhereConcat(s.eligible, listed, EligibleIn(id));
    WhereAll(listed, EligibleIn(id));
    assert Where(t.options, OptionsIn(id)) == rows && Where(t.eligible, EligibleIn(id)) == listed;
    forall i | 0 <= i < |names| ensures OptionNames(rows)[i] == names[i] {
      OptionAtIndex(id, names, rows, i);
    }
    assert OptionNames(rows) == names;
    assert CertNames(listed) == voters;
  }

  /** And in every later state of every run loading it gives that back, in whatever state it is by then. */
  lemma CreatedStays(s: Store, c: Config, desired: Id, readOk: bool, evs: seq<Event>)
    requires Inv(s) && Trusted(s, Create(c, desired, readOk)) && Created(s, c, desired, readOk).0 == Ok
    requires TrustedRun(Created(s, c, desired, readOk).1, evs)
    ensures var id, t := ChosenId(s, desired, readOk).value, Run(Created(s, c, desired, readOk).1, evs);
            Exists(t, id) && Load(t, id) == Some(Configured(id, c, StateOf(t, id)))
  {
    hide Inv, Trusted, TrustedRun, AllocId, Validate, Inserted, StorableConfig, Run, Where, OptionNames, CertNames;
    var id, u := ChosenId(s, desired, readOk).value, Created(s, c, desired, readOk).1;
    CreatedLoads(s, c, desired, readOk);
    CreateKeeps(s, c, desired, readOk);
    ListsFixed(u, evs, id);
  }
}
