/** A concrete sound store: one open election under any id, and the first ballot cast in it. */
module BallotSample {
  import opened Basics
  import opened Decimal
  import opened Tables
  import opened BallotStore
  import opened BallotBox
  import opened BallotIds
  import opened BallotRuns
  import opened BallotLaws
  import Receipts

  const ANN := Ballot("ann", "Az", [0])

  /** One open election, options yes and no, voters ann and bob, no ballots yet. */
  function OpenElection(id: Id): Store {
    Store([ElectionRow(IdSeq(id), id, "t", Open, "1", "2")],
          [OptionRow(id, 0, "yes"), OptionRow(id, 1, "no")],
          [EligibleRow(id, "ann"), EligibleRow(id, "bob")], [], [], [])
  }

  lemma WhereTwo<T>(a: T, b: T, p: T -> bool)
    ensures Where([a, b], p) == (if p(a) then [a] else []) + (if p(b) then [b] else [])
  {
    assert [a, b] == [a] + [b];
    WhereConcat([a], [b], p);
    WhereOne(a, p);
    WhereOne(b, p);
  }

  lemma OpenElectionViews(id: Id, e: Id)
    ensures var s := OpenElection(id);
            && Where(s.elections, IsElection(e)) == (if e == id then s.elections else [])
            && Where(s.options, OptionsIn(e)) == (if e == id then s.options else [])
            && Where(s.eligible, EligibleIn(e)) == (if e == id then s.eligible else [])
            && BoxOf(s, e) == Box([], [], [])
  {
    hide IdSeq;
    var s := OpenElection(id);
    WhereOne(s.elections[0], IsElection(e));
    WhereTwo(s.options[0], s.options[1], OptionsIn(e));
    WhereTwo(s.eligible[0], s.eligible[1], EligibleIn(e));
  }

  lemma OpenElectionInv(id: Id)
    ensures Inv(OpenElection(id))
  {
    hide BoxInv, Where, IdSeq;
    var s := OpenElection(id);
    forall e
      ensures Sound(s, e) && |Where(s.elections, IsElection(e))| <= 1
    {
      OpenElectionViews(id, e);
      EmptyBox(e, Eligible(s, e), OptionCount(s, e));
    }
  }

  /** A store with these three tables, whatever ballots it holds. */
  ghost predicate SameElection(s: Store, id: Id) {
    var o := OpenElection(id);
    s.elections == o.elections && s.options == o.options && s.eligible == o.eligible
  }

  lemma OpenElectionAccepts(id: Id, s: Store, b: Ballot)
    requires SameElection(s, id) && (b.cert == "ann" || b.cert == "bob") && 0 <= OptionOf(b.payload) < 2
    requires Where(s.nonces, NonceIs(id, b.nonce)) == []
    requires Recorded(s, id, b).Accept?
    ensures Decide(s, id, b) == Recorded(s, id, b)
  {
    hide Where, Receipts.HashOf, Recorded, IdSeq;
    OpenElectionViews(id, id);
    assert CertNames(s.eligible)[0] == "ann" && CertNames(s.eligible)[1] == "bob";
  }

  /** A voter without a ballot is always recorded, at version 1. */
  lemma FirstAccepted(s: Store, e: Id, b: Ballot)
    requires Where(s.owners, OwnedBy(e, b.cert)) == []
    ensures Recorded(s, e, b).Accept? && Recorded(s, e, b).hash == Receipts.HashOf(b.nonce, 1)
  {
    hide Receipts.HashOf, Where;
  }

  lemma EmptyTables(s: Store, e: Id, b: Ballot)
    requires s.nonces == [] && s.owners == []
    ensures Where(s.nonces, NonceIs(e, b.nonce)) == [] && Where(s.owners, OwnedBy(e, b.cert)) == []
  {
  }

  lemma EmptyBoxIsFresh(e: Id, h: string)
    ensures FreshHash(e, Box([], [], []), h)
  {
  }

  lemma FirstInEmpty(id: Id, row: BallotRow, owner: OwnerRow)
    ensures NewBallots(id, [], row, None) == [row] && NewOwners(id, [], owner) == [owner]
  {
  }

  /** The same store once ann has voted. */
  function AnnVoted(id: Id): Store {
    var h := Receipts.HashOf("Az", 1);
    OpenElection(id).(ballots := [BallotRow(id, h, 0, 1, false)], owners := [OwnerRow(id, "ann", h, 1)],
                      nonces := [NonceRow(id, "Az")])
  }

  /** Ann's ballot is accepted, leaves the store sound, and is the only one in it. */
  lemma AnnVotes(id: Id)
    ensures var s := OpenElection(id);
            var h := Receipts.HashOf("Az", 1);
            && Inv(s) && Decide(s, id, ANN).Accept? && Decide(s, id, ANN).hash == h
            && Trusted(s, Record(id, ANN)) && Inv(Decide(s, id, ANN).store)
            && Decide(s, id, ANN).store == AnnVoted(id)
  {
    hide Where, Receipts.HashOf, BoxInv, IdSeq, Inv, Recorded, NewBallots, NewOwners, FreshHash;
    var s := OpenElection(id);
    var h := Receipts.HashOf("Az", 1);
    OpenElectionInv(id);
    OpenElectionViews(id, id);
    EmptyTables(s, id, ANN);
    FirstAccepted(s, id, ANN);
    OpenElectionAccepts(id, s, ANN);
    EmptyBoxIsFresh(id, h);
    RecordKeeps(s, id, ANN);
    RecordedTables(s, id, ANN);
    FirstInEmpty(id, BallotRow(id, h, 0, 1, false), OwnerRow(id, "ann", h, 1));
  }

  /** A voter with a ballot whose row is there is recorded too, at the next version. */
  lemma NextAccepted(s: Store, e: Id, b: Ballot, o: OwnerRow)
    requires Where(s.owners, OwnedBy(e, b.cert)) == [o] && Where(s.ballots, HashIs(e, o.hash)) != []
    ensures Recorded(s, e, b).Accept? && Recorded(s, e, b).hash == Receipts.HashOf(b.nonce, o.version + 1)
  {
    hide Receipts.HashOf, Where;
    var added := BallotRow(e, Receipts.HashOf(b.nonce, o.version + 1), OptionOf(b.payload), o.version + 1, false);
    WhereAppend(s.ballots, added, HashIs(e, o.hash));
  }

  const CONFIG := Config("t", ["yes", "no"], [], "1", "2")

  /** With "E-100" in use, a creation whose id read fails is accepted and breaks the store: two
      elections then share that id. */
  lemma FallbackClashes()
    ensures var s := OpenElection("E-100");
            && Inv(s) && IdClash(s.elections, false) && Created(s, CONFIG, "", false).0 == Ok
            && !Inv(Created(s, CONFIG, "", false).1)
  {
    hide IdSeq, Inv, Where;
    var s := OpenElection("E-100");
    OpenElectionInv("E-100");
    FirstIdText();
    assert s.elections[0] in s.elections;
    ConfigIsGood();
    CreateKeepsIffNewId(s, CONFIG, "", false);
  }

  lemma FirstIdText()
    ensures AutoId(100) == "E-100"
  {
    assert Print(1) == "1" && Print(10) == "10" && Print(100) == "100";
  }

  lemma ConfigIsGood()
    ensures Validate(CONFIG) == Ok
    ensures StorableConfig("E-100", CONFIG)
  {
    assert CONFIG.closeTime[0] != CONFIG.openTime[0];
  }
}
