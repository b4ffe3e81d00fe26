/**
 * Why fresh receipt hashes are a hypothesis and not a theorem: the placeholder hash repeats, and a
 * repeat makes the store lose a vote (ballotbox/src/libballotbrain/crypto.c:18-34, db.c:445-486).
 */
module BallotCollision {
  import opened Basics
  import opened Tables
  import opened BallotStore
  import opened BallotBox
  import opened BallotIds
  import opened BallotRuns
  import opened BallotLaws
  import opened BallotSample
  import Receipts

  /** Accepting a ballot keeps the store's invariant exactly when its receipt hash is new to the election. */
  lemma RecordKeepsIffFresh(s: Store, e: Id, b: Ballot)
    requires Inv(s) && Decide(s, e, b).Accept?
    ensures Inv(Decide(s, e, b).store) <==> FreshHash(e, BoxOf(s, e), Decide(s, e, b).hash)
  {
    hide BoxInv, Recorded, Decide, Cast, OptionNames, FreshHash, Where, BoxOf, Receipts.HashOf, UniqueIds, IdSeq;
    var d := Decide(s, e, b);
    if FreshHash(e, BoxOf(s, e), d.hash) {
      RecordKeeps(s, e, b);
    } else {
      AcceptFacts(s, e, b);
      RecordedBox(s, e, b);
      assert Sound(s, e);
      StaleHashBreaks(e, Eligible(s, e), OptionCount(s, e), BoxOf(s, e), b.cert, b.nonce, OptionOf(b.payload), d.hash);
      assert !Sound(d.store, e);
    }
  }

  // ---- a repeat costs another voter their ballot ----

  /** The first two casts: two voters, one hash, two live rows. */
  lemma TwoShareAHash(e: Id, x: Box, c1: string, n1: string, o1: int, c2: string, n2: string, o2: int, h: string)
    requires OneElection(e, x) && FreshHash(e, x, h) && c1 != c2
    requires PriorHash(e, x, c1) == None && PriorHash(e, x, c2) == None
    ensures var y := Cast(e, Cast(e, x, c1, n1, o1, h), c2, n2, o2, h);
            && Where(y.ballots, HashIs(e, h)) == [BallotRow(e, h, o1, 1, false), BallotRow(e, h, o2, 1, false)]
            && PriorHash(e, y, c1) == Some(h) && PriorHash(e, y, c2) == Some(h)
  {
    hide Where, NewOwners;
    var r1, r2 := BallotRow(e, h, o1, 1, false), BallotRow(e, h, o2, 1, false);
    var w1, w2 := OwnerRow(e, c1, h, 1), OwnerRow(e, c2, h, 1);
    var y := Cast(e, x, c1, n1, o1, h);
    OwnedAfter(e, x.owners, w1, c1);
    OwnedAfter(e, x.owners, w1, c2);
    assert y.ballots == x.ballots + [r1];
    OwnedAfter(e, y.owners, w2, c1);
    OwnedAfter(e, y.owners, w2, c2);
    WhereAppend(x.ballots, r1, HashIs(e, h));
    WhereAppend(x.ballots + [r1], r2, HashIs(e, h));
  }

  /** A replacement by one of two voters sharing a hash removes both their rows from the count. */
  lemma ReplacementDropsBoth(e: Id, y: Box, c: string, nonce: string, option: int, k: string, h: string)
    requires PriorHash(e, y, c) == Some(h) && k != h && Where(y.ballots, HashIs(e, h)) != []
    ensures var z := Cast(e, y, c, nonce, option, k);
            |Where(z.ballots, HashIs(e, h))| == 1 && Where(z.ballots, HashIs(e, h))[0].superseded
  {
    var added := BallotRow(e, k, option, VersionFor(e, y, c), false);
    var all := y.ballots + [added];
    var p := HashIs(e, h);
    WhereAppend(y.ballots, added, p);
    var first := Where(all, p)[0];
    WhereAppend(Where(all, Not(p)), BallotRow(e, h, first.option, first.version, true), p);
    WhereCommute(all, Not(p), p);
    forall r | r in Where(all, p)
      ensures !Not(p)(r)
    {
      WhereIn(all, p, r);
    }
    WhereNone(Where(all, p), Not(p));
  }

  /** Two eligible voters cast with nonces "Az" and "BY": both are handed the same receipt. When the
      first replaces their ballot, the second voter's ballot stops being counted, though that voter
      did nothing and the owner table still names the receipt as theirs. */
  lemma CollisionDropsVote(s: Store, e: Id, b1: Ballot, b2: Ballot, b3: Ballot)
    requires Inv(s) && b1.nonce == "Az" && b2.nonce == "BY" && b1.cert != b2.cert && b3.cert == b1.cert
    requires PriorHash(e, BoxOf(s, e), b1.cert) == None && PriorHash(e, BoxOf(s, e), b2.cert) == None
    requires FreshHash(e, BoxOf(s, e), Receipts.HashOf("Az", 1))
    requires Decide(s, e, b1).Accept?
    requires Decide(Decide(s, e, b1).store, e, b2).Accept?
    requires var s2 := Decide(Decide(s, e, b1).store, e, b2).store;
             Decide(s2, e, b3).Accept? && Decide(s2, e, b3).hash != Receipts.HashOf("Az", 1)
    ensures var s1 := Decide(s, e, b1).store;
            var s2 := Decide(s1, e, b2).store;
            var s3 := Decide(s2, e, b3).store;
            var h := Decide(s, e, b1).hash;
            && Decide(s1, e, b2).hash == h
            && Lookup(s2, e, h).Some?
            && Lookup(s3, e, h) == None
            && PriorHash(e, BoxOf(s3, e), b2.cert) == Some(h)
  {
    hide Decide, Recorded, Where, BoxOf, Receipts.HashOf, Cast, FreshHash, IdSeq, BoxInv, UniqueIds;
    var s1 := Decide(s, e, b1).store;
    var s2 := Decide(s1, e, b2).store;
    var s3 := Decide(s2, e, b3).store;
    var x, h := BoxOf(s, e), Receipts.HashOf("Az", 1);
    Receipts.NoncesCollide(1);
    StepBox(s, e, b1);
    StepBox(s1, e, b2);
    StepBox(s2, e, b3);
    assert Sound(s, e);
    SoundOneElection(s, e);
    FirstVersion(e, x, b1.cert, b1.nonce, OptionOf(b1.payload), h, b2.cert);
    TwoShareAHash(e, x, b1.cert, b1.nonce, OptionOf(b1.payload), b2.cert, b2.nonce, OptionOf(b2.payload), h);
    var y := BoxOf(s2, e);
    SharedIsLive(s2, e, h);
    ReplacementDropsBoth(e, y, b1.cert, b3.nonce, OptionOf(b3.payload), Decide(s2, e, b3).hash, h);
    OtherKeepsOwner(e, y, b1.cert, b3.nonce, OptionOf(b3.payload), Decide(s2, e, b3).hash, b2.cert);
    RetiredNow(s3, e, h);
  }

  lemma StepBox(s: Store, e: Id, b: Ballot)
    requires Decide(s, e, b).Accept?
    ensures BoxOf(Decide(s, e, b).store, e)
            == Cast(e, BoxOf(s, e), b.cert, b.nonce, OptionOf(b.payload), Decide(s, e, b).hash)
    ensures Decide(s, e, b).hash == Receipts.HashOf(b.nonce, VersionFor(e, BoxOf(s, e), b.cert))
  {
    hide Decide, Recorded, Where, BoxOf, Cast, Receipts.HashOf;
    AcceptFacts(s, e, b);
    RecordedBox(s, e, b);
  }

  lemma SoundOneElection(s: Store, e: Id)
    requires Sound(s, e)
    ensures OneElection(e, BoxOf(s, e))
  {
    hide UniqueHashes, UniqueOwners, UniqueNonces, OwnersBacked, LiveOwned, Admissible, Balanced;
  }

  /** Voters without a ballot cast version 1, before and after someone else's first cast. */
  lemma FirstVersion(e: Id, x: Box, c1: string, n1: string, o1: int, h: string, c2: string)
    requires c1 != c2 && PriorHash(e, x, c1) == None && PriorHash(e, x, c2) == None
    ensures VersionFor(e, x, c1) == 1 && VersionFor(e, Cast(e, x, c1, n1, o1, h), c2) == 1
  {
    OwnedAfter(e, x.owners, OwnerRow(e, c1, h, 1), c2);
  }

  lemma OtherKeepsOwner(e: Id, y: Box, c: string, nonce: string, option: int, k: string, d: string)
    requires c != d
    ensures PriorHash(e, Cast(e, y, c, nonce, option, k), d) == PriorHash(e, y, d)
  {
    OwnedAfter(e, y.owners, OwnerRow(e, c, k, VersionFor(e, y, c)), d);
  }

  lemma SharedIsLive(s: Store, e: Id, h: string)
    requires var rows := Where(BoxOf(s, e).ballots, HashIs(e, h));
             |rows| == 2 && LiveHash(e, h)(rows[0])
    ensures Lookup(s, e, h).Some?
  {
    LookupByHash(s, e, h);
    var rows := Where(BoxOf(s, e).ballots, HashIs(e, h));
    WhereIn(rows, LiveHash(e, h), rows[0]);
  }

  lemma RetiredNow(s: Store, e: Id, h: string)
    requires var rows := Where(BoxOf(s, e).ballots, HashIs(e, h)); |rows| == 1 && rows[0].superseded
    ensures Lookup(s, e, h) == None
  {
    LookupRetired(s, e, h);
  }

  // ---- a concrete run ----

  const BOB := Ballot("bob", "BY", [1])
  const ANN_AGAIN := Ballot("ann", "a", [1])

  /** The store once bob has voted too: two rows, one hash. */
  function BothVoted(): Store {
    var h := Receipts.HashOf("Az", 1);
    AnnVoted("x").(ballots := [BallotRow("x", h, 0, 1, false), BallotRow("x", h, 1, 1, false)],
                   owners := [OwnerRow("x", "ann", h, 1), OwnerRow("x", "bob", h, 1)],
                   nonces := [NonceRow("x", "Az"), NonceRow("x", "BY")])
  }

  /** After ann's ballot bob may still vote, but the receipt they are given is already taken. */
  lemma BobVotes()
    ensures var t := AnnVoted("x");
            && Decide(t, "x", BOB).Accept? && Decide(t, "x", BOB).store == BothVoted()
            && Decide(t, "x", BOB).hash == Receipts.HashOf("Az", 1)
            && !FreshHash("x", BoxOf(t, "x"), Decide(t, "x", BOB).hash)
  {
    hide Receipts.HashOf, Decide, Recorded, Where, IdSeq;
    var t := AnnVoted("x");
    Receipts.NoncesCollide(1);
    var h := Receipts.HashOf("Az", 1);
    var row, owner := BallotRow("x", h, 0, 1, false), OwnerRow("x", "ann", h, 1);
    WhereOne(t.nonces[0], NonceIs("x", "BY"));
    WhereOne(owner, OwnedBy("x", "bob"));
    WhereOne(owner, Not(OwnedBy("x", "bob")));
    WhereOne(row, BallotsIn("x"));
    WhereOne(row, HashIs("x", h));
    FirstAccepted(t, "x", BOB);
    OpenElectionAccepts("x", t, BOB);
    RecordedTables(t, "x", BOB);
  }

  /** Starting from a sound store, two accepted ballots end in one that is not: both voters' live
      rows share a hash. */
  lemma TwoBallotsBreakIt()
    ensures var s := OpenElection("x");
            && Inv(s) && Decide(s, "x", ANN).Accept?
            && Inv(Decide(s, "x", ANN).store) && Decide(Decide(s, "x", ANN).store, "x", BOB).Accept?
            && !Inv(Decide(Decide(s, "x", ANN).store, "x", BOB).store)
  {
    hide Receipts.HashOf, Inv, FreshHash, Decide, AnnVoted;
    AnnVotes("x");
    BobVotes();
    RecordKeepsIffFresh(AnnVoted("x"), "x", BOB);
  }

  /** And a third, ann's replacement, drops bob's vote: bob's receipt was found, and now is not. */
  lemma ThreeBallotsDropOne()
    ensures var s := OpenElection("x");
            var h := Receipts.HashOf("Az", 1);
            && Decide(s, "x", ANN).Accept? && Decide(Decide(s, "x", ANN).store, "x", BOB).Accept?
            && Decide(BothVoted(), "x", ANN_AGAIN).Accept?
            && Lookup(BothVoted(), "x", h).Some? && Lookup(Decide(BothVoted(), "x", ANN_AGAIN).store, "x", h) == None
            && PriorHash("x", BoxOf(Decide(BothVoted(), "x", ANN_AGAIN).store, "x"), "bob") == Some(h)
  {
    hide Receipts.HashOf, Inv, FreshHash, Decide, AnnVoted, BothVoted, Where, PriorHash, BoxOf;
    AnnVotes("x");
    BobVotes();
    AnnVotesAgain();
    Receipts.SampleReceiptsDiffer();
    NobodyVoted();
    CollisionDropsVote(OpenElection("x"), "x", ANN, BOB, ANN_AGAIN);
  }

  lemma NobodyVoted()
    ensures var x := BoxOf(OpenElection("x"), "x");
            && PriorHash("x", x, "ann") == None && PriorHash("x", x, "bob") == None
            && FreshHash("x", x, Receipts.HashOf("Az", 1))
  {
    hide Receipts.HashOf, IdSeq;
    OpenElectionViews("x", "x");
  }

  lemma AnnVotesAgain()
    ensures Decide(BothVoted(), "x", ANN_AGAIN).Accept?
    ensures Decide(BothVoted(), "x", ANN_AGAIN).hash == Receipts.HashOf("a", 2)
  {
    hide Receipts.HashOf, Decide, Recorded, Where, IdSeq;
    var u := BothVoted();
    WhereTwo(u.nonces[0], u.nonces[1], NonceIs("x", "a"));
    WhereTwo(u.owners[0], u.owners[1], OwnedBy("x", "ann"));
    WhereTwo(u.ballots[0], u.ballots[1], HashIs("x", Receipts.HashOf("Az", 1)));
    NextAccepted(u, "x", ANN_AGAIN, u.owners[0]);
    OpenElectionAccepts("x", u, ANN_AGAIN);
  }
}
