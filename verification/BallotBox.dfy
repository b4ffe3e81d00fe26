/**
 * One election's ballots, owners and nonces, and what recording a ballot keeps true of them
 * (ballotbox/src/libballotbrain/handlers.c:219-286 over the tables of db.c).
 */
module BallotBox {
  import opened Basics
  import opened Tables
  import opened BallotStore

  /** The rows of the three tables that belong to one election. */
  datatype Box = Box(ballots: seq<BallotRow>, owners: seq<OwnerRow>, nonces: seq<NonceRow>)

  function BoxOf(s: Store, e: Id): Box {
    Box(Where(s.ballots, BallotsIn(e)), Where(s.owners, OwnersIn(e)), Where(s.nonces, NoncesIn(e)))
  }

  function OwnersOfHash(e: Id, h: string): OwnerRow -> bool { (r: OwnerRow) => r.election == e && r.hash == h }

  function VersionOf(): OwnerRow -> int { (r: OwnerRow) => r.version }

  // ---- the invariant ----

  ghost predicate OneElection(e: Id, x: Box) {
    && (forall b :: b in x.ballots ==> b.election == e)
    && (forall o :: o in x.owners ==> o.election == e)
    && (forall n :: n in x.nonces ==> n.election == e)
  }

  ghost predicate UniqueHashes(e: Id, x: Box) {
    forall h :: |Where(x.ballots, HashIs(e, h))| <= 1
  }

  /** Each voter has at most one owner row. */
  ghost predicate UniqueOwners(e: Id, x: Box) {
    forall c :: |Where(x.owners, OwnedBy(e, c))| <= 1
  }

  ghost predicate UniqueNonces(e: Id, x: Box) {
    forall n :: |Where(x.nonces, NonceIs(e, n))| <= 1
  }

  /** The owner row names exactly one ballot row; that row is live and has the owner's version. */
  ghost predicate Backed(e: Id, x: Box, o: OwnerRow) {
    var named := Where(x.ballots, HashIs(e, o.hash));
    |named| == 1 && !named[0].superseded && named[0].version == o.version >= 1
  }

  ghost predicate OwnersBacked(e: Id, x: Box) {
    forall o :: o in x.owners ==> Backed(e, x, o)
  }

  /** Every live ballot row has exactly one owner. */
  ghost predicate LiveOwned(e: Id, x: Box) {
    forall b :: b in x.ballots && !b.superseded ==> |Where(x.owners, OwnersOfHash(e, b.hash))| == 1
  }

  ghost predicate Admissible(eligible: seq<string>, options: int, x: Box) {
    && (forall o :: o in x.owners ==> o.cert in eligible)
    && (forall b :: b in x.ballots ==> 0 <= b.option < options)
  }

  /** One counted ballot a voter; one row and one nonce a submission. */
  ghost predicate Balanced(e: Id, x: Box) {
    && |Where(x.ballots, LiveIn(e))| == |x.owners|
    && |x.ballots| == |x.nonces| == Sum(x.owners, VersionOf())
  }

  ghost predicate BoxInv(e: Id, eligible: seq<string>, options: int, x: Box) {
    && OneElection(e, x)
    && UniqueHashes(e, x) && UniqueOwners(e, x) && UniqueNonces(e, x)
    && OwnersBacked(e, x) && LiveOwned(e, x)
    && Admissible(eligible, options, x) && Balanced(e, x)
  }

  // ---- recording, on one election's rows ----

  /** The hash of this voter's current ballot, if there is one. */
  function PriorHash(e: Id, x: Box, c: string): Option<string> {
    var mine := Where(x.owners, OwnedBy(e, c));
    if mine == [] then None else Some(mine[0].hash)
  }

  function VersionFor(e: Id, x: Box, c: string): int {
    var mine := Where(x.owners, OwnedBy(e, c));
    if mine == [] then 1 else mine[0].version + 1
  }

  /** Append, and supersede by hash the row the voter's owner record names. */
  function NewBallots(e: Id, ballots: seq<BallotRow>, added: BallotRow, prior: Option<string>): seq<BallotRow> {
    match prior
    case None => ballots + [added]
    case Some(p) =>
      var rows := Where(ballots + [added], HashIs(e, p));
      if rows == [] then ballots + [added]
      else Where(ballots + [added], Not(HashIs(e, p))) + [BallotRow(e, p, rows[0].option, rows[0].version, true)]
  }

  function NewOwners(e: Id, owners: seq<OwnerRow>, o: OwnerRow): seq<OwnerRow> {
    Where(owners, Not(OwnedBy(e, o.cert))) + [o]
  }

  function Cast(e: Id, x: Box, c: string, nonce: string, option: int, h: string): Box {
    var v := VersionFor(e, x, c);
    Box(NewBallots(e, x.ballots, BallotRow(e, h, option, v, false), PriorHash(e, x, c)),
        NewOwners(e, x.owners, OwnerRow(e, c, h, v)),
        x.nonces + [NonceRow(e, nonce)])
  }

  /** Is the receipt hash new to this election? */
  ghost predicate FreshHash(e: Id, x: Box, h: string) {
    Where(x.ballots, HashIs(e, h)) == []
  }

  // ---- how each lookup changes ----

  lemma OwnedAfter(e: Id, owners: seq<OwnerRow>, o: OwnerRow, c: string)
    requires o.election == e
    ensures Where(NewOwners(e, owners, o), OwnedBy(e, c)) == if c == o.cert then [o] else Where(owners, OwnedBy(e, c))
  {
    var rest := Where(owners, Not(OwnedBy(e, o.cert)));
    WhereAppend(rest, o, OwnedBy(e, c));
    if c == o.cert {
      WhereCommute(owners, Not(OwnedBy(e, c)), OwnedBy(e, c));
      forall r | r in Where(owners, OwnedBy(e, c))
        ensures !Not(OwnedBy(e, c))(r)
      {
        WhereIn(owners, OwnedBy(e, c), r);
      }
      WhereNone(Where(owners, OwnedBy(e, c)), Not(OwnedBy(e, c)));
    } else {
      WhereAbsorb(owners, OwnedBy(e, c), Not(OwnedBy(e, o.cert)));
    }
  }

  /** After superseding p: p names one superseded row, the new hash the new row, others are as before. */
  lemma HashAfter(e: Id, x: Box, added: BallotRow, p: string, h: string)
    requires OneElection(e, x) && added.election == e && added.hash != p && |Where(x.ballots, HashIs(e, p))| == 1
    ensures var rows := Where(x.ballots, HashIs(e, p));
            var after := Where(NewBallots(e, x.ballots, added, Some(p)), HashIs(e, h));
            after == if h == p then [rows[0].(superseded := true)]
                     else if h == added.hash then Where(x.ballots, HashIs(e, h)) + [added]
                     else Where(x.ballots, HashIs(e, h))
  {
    PriorRow(e, x, added, p);
    var named := Where(x.ballots, HashIs(e, p));
    var sup := named[0].(superseded := true);
    WhereIn(x.ballots, HashIs(e, p), named[0]);
    var rest := Where(x.ballots, Not(HashIs(e, p)));
    WhereAppend(rest + [added], sup, HashIs(e, h));
    WhereAppend(rest, added, HashIs(e, h));
    if h == p {
      WhereCommute(x.ballots, Not(HashIs(e, h)), HashIs(e, h));
      forall r | r in Where(x.ballots, HashIs(e, h))
        ensures !Not(HashIs(e, h))(r)
      {
        WhereIn(x.ballots, HashIs(e, h), r);
      }
      WhereNone(Where(x.ballots, HashIs(e, h)), Not(HashIs(e, h)));
    } else {
      WhereAbsorb(x.ballots, HashIs(e, h), Not(HashIs(e, p)));
    }
  }

  /** The row superseding finds is the voter's own, and the table splits around it. */
  lemma PriorRow(e: Id, x: Box, added: BallotRow, p: string)
    requires OneElection(e, x) && added.election == e && added.hash != p && |Where(x.ballots, HashIs(e, p))| == 1
    ensures var row := Where(x.ballots, HashIs(e, p))[0];
            && row in x.ballots && row.hash == p && row.election == e
            && NewBallots(e, x.ballots, added, Some(p))
               == Where(x.ballots, Not(HashIs(e, p))) + [added] + [row.(superseded := true)]
  {
    WhereAppend(x.ballots, added, HashIs(e, p));
    WhereAppend(x.ballots, added, Not(HashIs(e, p)));
    WhereIn(x.ballots, HashIs(e, p), Where(x.ballots, HashIs(e, p))[0]);
  }

  /** A single row under a key is the key's only row. */
  lemma OnlyRow<T>(rows: seq<T>, k: T -> bool, x: T)
    requires |Where(rows, k)| <= 1 && x in rows && k(x)
    ensures Where(rows, k) == [x]
  {
    WhereIn(rows, k, x);
  }

  /** No owner names a hash no ballot has. */
  lemma NoOwnerOfFresh(e: Id, x: Box, h: string, o: OwnerRow)
    requires OwnersBacked(e, x) && FreshHash(e, x, h) && o in x.owners
    ensures o.hash != h
  {
    assert Backed(e, x, o);
  }

  /** Everything the proofs need to know about a recording by a voter who already has a ballot. */
  lemma PriorFacts(e: Id, x: Box, c: string)
    requires OneElection(e, x) && UniqueOwners(e, x) && OwnersBacked(e, x) && LiveOwned(e, x)
    requires PriorHash(e, x, c).Some?
    ensures var mine := Where(x.owners, OwnedBy(e, c));
            var p := PriorHash(e, x, c).value;
            && mine == [mine[0]] && mine[0] in x.owners && mine[0].cert == c && mine[0].hash == p
            && Backed(e, x, mine[0])
            && (forall o :: o in x.owners && o.cert != c ==> o.hash != p)
  {
    var mine := Where(x.owners, OwnedBy(e, c));
    var p := mine[0].hash;
    WhereIn(x.owners, OwnedBy(e, c), mine[0]);
    assert Backed(e, x, mine[0]);
    var row := Where(x.ballots, HashIs(e, p))[0];
    WhereIn(x.ballots, HashIs(e, p), row);
    forall o | o in x.owners && o.cert != c
      ensures o.hash != p
    {
      WhereIn(x.owners, OwnersOfHash(e, p), o);
      WhereIn(x.owners, OwnersOfHash(e, p), mine[0]);
    }
  }

  // ---- recording with a fresh hash keeps every part of the invariant ----

  /** What the new ballot table answers to a lookup by hash. */
  lemma LookupAfter(e: Id, x: Box, c: string, added: BallotRow, h: string)
    requires OneElection(e, x) && UniqueOwners(e, x) && OwnersBacked(e, x) && LiveOwned(e, x)
    requires added.election == e && FreshHash(e, x, added.hash)
    ensures PriorHash(e, x, c) == Some(h) ==> |Where(x.ballots, HashIs(e, h))| == 1
    ensures var prior := PriorHash(e, x, c);
            var after := Where(NewBallots(e, x.ballots, added, prior), HashIs(e, h));
            after == if prior == Some(h) then [Where(x.ballots, HashIs(e, h))[0].(superseded := true)]
                     else if h == added.hash then [added]
                     else Where(x.ballots, HashIs(e, h))
  {
    var prior := PriorHash(e, x, c);
    if prior.None? {
      WhereAppend(x.ballots, added, HashIs(e, h));
    } else {
      PriorFacts(e, x, c);
      HashAfter(e, x, added, prior.value, h);
    }
  }

  /** A row of the new ballot table is the new row, the superseded one, or an old row of another hash. */
  lemma RowsAfter(e: Id, x: Box, c: string, added: BallotRow, b: BallotRow)
    requires OneElection(e, x) && UniqueOwners(e, x) && OwnersBacked(e, x) && LiveOwned(e, x)
    requires added.election == e && FreshHash(e, x, added.hash)
    requires b in NewBallots(e, x.ballots, added, PriorHash(e, x, c))
    ensures b == added || (b in x.ballots && PriorHash(e, x, c) != Some(b.hash) && b.hash != added.hash)
            || (b.superseded && exists r :: r in x.ballots && b == r.(superseded := true))
    ensures b.election == e
  {
    var prior := PriorHash(e, x, c);
    WhereIn(x.ballots, HashIs(e, added.hash), b);
    if prior.Some? {
      PriorFacts(e, x, c);
      PriorRow(e, x, added, prior.value);
      WhereIn(x.ballots, Not(HashIs(e, prior.value)), b);
    }
  }

  lemma CastRows(e: Id, eligible: seq<string>, options: int, x: Box, c: string, nonce: string, option: int, h: string)
    requires BoxInv(e, eligible, options, x) && FreshHash(e, x, h)
    requires c in eligible && 0 <= option < options
    ensures OneElection(e, Cast(e, x, c, nonce, option, h)) && Admissible(eligible, options, Cast(e, x, c, nonce, option, h))
  {
    hide UniqueHashes, UniqueNonces, Balanced, NewBallots;
    var y := Cast(e, x, c, nonce, option, h);
    var added := BallotRow(e, h, option, VersionFor(e, x, c), false);
    forall b | b in y.ballots
      ensures b.election == e && 0 <= b.option < options
    {
      RowsAfter(e, x, c, added, b);
    }
    forall o | o in y.owners
      ensures o.election == e && o.cert in eligible
    {
      WhereIn(x.owners, Not(OwnedBy(e, c)), o);
    }
  }

  lemma CastUnique(e: Id, eligible: seq<string>, options: int, x: Box, c: string, nonce: string, option: int, h: string)
    requires BoxInv(e, eligible, options, x) && FreshHash(e, x, h) && Where(x.nonces, NonceIs(e, nonce)) == []
    ensures var y := Cast(e, x, c, nonce, option, h);
            UniqueHashes(e, y) && UniqueOwners(e, y) && UniqueNonces(e, y)
  {
    hide Balanced, NewBallots, NewOwners;
    var y := Cast(e, x, c, nonce, option, h);
    var added := BallotRow(e, h, option, VersionFor(e, x, c), false);
    forall k
      ensures |Where(y.ballots, HashIs(e, k))| <= 1
    {
      LookupAfter(e, x, c, added, k);
    }
    forall d
      ensures |Where(y.owners, OwnedBy(e, d))| <= 1
    {
      OwnedAfter(e, x.owners, OwnerRow(e, c, h, VersionFor(e, x, c)), d);
    }
    forall n
      ensures |Where(y.nonces, NonceIs(e, n))| <= 1
    {
      WhereAppend(x.nonces, NonceRow(e, nonce), NonceIs(e, n));
    }
  }

  lemma CastBacked(e: Id, eligible: seq<string>, options: int, x: Box, c: string, nonce: string, option: int, h: string)
    requires BoxInv(e, eligible, options, x) && FreshHash(e, x, h)
    ensures OwnersBacked(e, Cast(e, x, c, nonce, option, h))
  {
    hide Balanced, NewBallots, UniqueHashes, UniqueNonces, Admissible;
    var y := Cast(e, x, c, nonce, option, h);
    var v := VersionFor(e, x, c);
    var added := BallotRow(e, h, option, v, false);
    assert v >= 1 by {
      if PriorHash(e, x, c).Some? {
        PriorFacts(e, x, c);
      }
    }
    forall o | o in y.owners
      ensures Backed(e, y, o)
    {
      LookupAfter(e, x, c, added, o.hash);
      WhereIn(x.owners, Not(OwnedBy(e, c)), o);
      if PriorHash(e, x, c).Some? {
        PriorFacts(e, x, c);
      }
      if o.hash == h && o in x.owners {
        NoOwnerOfFresh(e, x, h, o);
      }
    }
  }

  lemma CastLiveOwned(e: Id, eligible: seq<string>, options: int, x: Box, c: string, nonce: string, option: int, h: string)
    requires BoxInv(e, eligible, options, x) && FreshHash(e, x, h)
    ensures LiveOwned(e, Cast(e, x, c, nonce, option, h))
  {
    hide Balanced, NewBallots, UniqueHashes, UniqueNonces, Admissible;
    var y := Cast(e, x, c, nonce, option, h);
    var v := VersionFor(e, x, c);
    var added := BallotRow(e, h, option, v, false);
    var o := OwnerRow(e, c, h, v);
    var rest := Where(x.owners, Not(OwnedBy(e, c)));
    forall b | b in y.ballots && !b.superseded
      ensures |Where(y.owners, OwnersOfHash(e, b.hash))| == 1
    {
      RowsAfter(e, x, c, added, b);
      WhereAppend(rest, o, OwnersOfHash(e, b.hash));
      if b == added {
        forall r | r in rest
          ensures !OwnersOfHash(e, h)(r)
        {
          WhereIn(x.owners, Not(OwnedBy(e, c)), r);
          NoOwnerOfFresh(e, x, h, r);
        }
        WhereNone(rest, OwnersOfHash(e, h));
      } else {
        OtherOwnersStay(e, x, c, b.hash);
      }
    }
  }

  /** Owners of a hash that is not the voter's own are untouched by the voter's replacement. */
  lemma OtherOwnersStay(e: Id, x: Box, c: string, k: string)
    requires OneElection(e, x) && UniqueOwners(e, x) && PriorHash(e, x, c) != Some(k)
    ensures Where(Where(x.owners, Not(OwnedBy(e, c))), OwnersOfHash(e, k)) == Where(x.owners, OwnersOfHash(e, k))
  {
    forall r | r in x.owners && OwnersOfHash(e, k)(r)
      ensures Not(OwnedBy(e, c))(r)
    {
      if r.cert == c {
        OnlyRow(x.owners, OwnedBy(e, c), r);
      }
    }
    WhereAbsorb(x.owners, OwnersOfHash(e, k), Not(OwnedBy(e, c)));
  }

  lemma CastBalanced(e: Id, eligible: seq<string>, options: int, x: Box, c: string, nonce: string, option: int, h: string)
    requires BoxInv(e, eligible, options, x) && FreshHash(e, x, h)
    ensures Balanced(e, Cast(e, x, c, nonce, option, h))
  {
    hide UniqueHashes, UniqueNonces, Admissible, NewBallots, NewOwners, OneElection, UniqueOwners, OwnersBacked;
    hide LiveOwned, Where, Sum, VersionFor, PriorHash;
    var v := VersionFor(e, x, c);
    var added := BallotRow(e, h, option, v, false);
    OwnersBalance(e, x, OwnerRow(e, c, h, v));
    if PriorHash(e, x, c).None? {
      FirstBallotBalance(e, x, added);
    } else {
      PriorFacts(e, x, c);
      UpdateBalance(e, x, added, PriorHash(e, x, c).value);
    }
  }

  lemma FirstBallotBalance(e: Id, x: Box, added: BallotRow)
    requires added.election == e && !added.superseded
    ensures var after := NewBallots(e, x.ballots, added, None);
            |after| == |x.ballots| + 1 && |Where(after, LiveIn(e))| == |Where(x.ballots, LiveIn(e))| + 1
  {
    WhereAppend(x.ballots, added, LiveIn(e));
  }

  lemma UpdateBalance(e: Id, x: Box, added: BallotRow, p: string)
    requires OneElection(e, x) && added.election == e && !added.superseded && added.hash != p
    requires |Where(x.ballots, HashIs(e, p))| == 1 && !Where(x.ballots, HashIs(e, p))[0].superseded
    ensures var after := NewBallots(e, x.ballots, added, Some(p));
            |after| == |x.ballots| + 1 && |Where(after, LiveIn(e))| == |Where(x.ballots, LiveIn(e))|
  {
    PriorRow(e, x, added, p);
    var row := Where(x.ballots, HashIs(e, p))[0];
    var rest := Where(x.ballots, Not(HashIs(e, p)));
    forall r | r in x.ballots && HashIs(e, p)(r)
      ensures r == row
    {
      WhereIn(x.ballots, HashIs(e, p), r);
    }
    WhereMinus(x.ballots, HashIs(e, p), LiveIn(e));
    WhereMinus(x.ballots, HashIs(e, p), BallotsIn(e));
    WhereAll(x.ballots, BallotsIn(e));
    WhereAll2(x.ballots, Not(HashIs(e, p)), BallotsIn(e));
    WhereAppend(rest, added, LiveIn(e));
    WhereAppend(rest + [added], row.(superseded := true), LiveIn(e));
  }

  lemma WhereAll2<T>(rows: seq<T>, q: T -> bool, p: T -> bool)
    requires forall r :: r in rows ==> p(r)
    ensures Where(Where(rows, q), p) == Where(rows, q)
  {
    forall r | r in Where(rows, q)
      ensures p(r)
    {
      WhereIn(rows, q, r);
    }
    WhereAll(Where(rows, q), p);
  }

  lemma OwnersBalance(e: Id, x: Box, o: OwnerRow)
    requires OneElection(e, x) && UniqueOwners(e, x) && o.election == e && o.version == VersionFor(e, x, o.cert)
    ensures Sum(NewOwners(e, x.owners, o), VersionOf()) == Sum(x.owners, VersionOf()) + 1
    ensures |NewOwners(e, x.owners, o)| == |x.owners| + (if PriorHash(e, x, o.cert).None? then 1 else 0)
  {
    hide Where, Sum, OneElection;
    var k := OwnedBy(e, o.cert);
    var rest := Where(x.owners, Not(k));
    var mine := Where(x.owners, k);
    SumMinus(x.owners, k, VersionOf());
    SumAppend(rest, o, VersionOf());
    OwnersCounted(e, x, k);
    if mine != [] {
      assert mine == [mine[0]];
      SumOne(mine[0], VersionOf());
    } else {
      SumNone(VersionOf());
    }
  }

  lemma OwnersCounted(e: Id, x: Box, k: OwnerRow -> bool)
    requires OneElection(e, x)
    ensures |Where(x.owners, Not(k))| == |x.owners| - |Where(x.owners, k)|
  {
    WhereMinus(x.owners, k, OwnersIn(e));
    WhereAll(x.owners, OwnersIn(e));
    WhereAll2(x.owners, Not(k), OwnersIn(e));
    WhereAll2(x.owners, k, OwnersIn(e));
  }

  lemma SumOne<T>(x: T, f: T -> int)
    ensures Sum([x], f) == f(x)
  {
    assert [x][..0] == [];
  }

  lemma SumNone<T>(f: T -> int)
    ensures Sum([], f) == 0
  {
  }

  /** Recording a ballot with a fresh hash keeps the election's invariant. */
  lemma CastKeeps(e: Id, eligible: seq<string>, options: int, x: Box, c: string, nonce: string, option: int, h: string)
    requires BoxInv(e, eligible, options, x) && FreshHash(e, x, h) && Where(x.nonces, NonceIs(e, nonce)) == []
    requires c in eligible && 0 <= option < options
    ensures BoxInv(e, eligible, options, Cast(e, x, c, nonce, option, h))
  {
    hide OneElection, UniqueHashes, UniqueOwners, UniqueNonces, OwnersBacked, LiveOwned, Admissible, Balanced, Cast;
    CastRows(e, eligible, options, x, c, nonce, option, h);
    CastUnique(e, eligible, options, x, c, nonce, option, h);
    CastBacked(e, eligible, options, x, c, nonce, option, h);
    CastLiveOwned(e, eligible, options, x, c, nonce, option, h);
    CastBalanced(e, eligible, options, x, c, nonce, option, h);
  }

  /** Recording a ballot whose hash the election already has breaks the invariant, always. */
  lemma StaleHashBreaks(e: Id, eligible: seq<string>, options: int, x: Box, c: string, nonce: string, option: int, h: string)
    requires BoxInv(e, eligible, options, x) && !FreshHash(e, x, h)
    ensures !BoxInv(e, eligible, options, Cast(e, x, c, nonce, option, h))
  {
    hide UniqueNonces, Admissible, Balanced, NewBallots;
    var y := Cast(e, x, c, nonce, option, h);
    var v := VersionFor(e, x, c);
    var added := BallotRow(e, h, option, v, false);
    var prior := PriorHash(e, x, c);
    if prior.Some? {
      PriorFacts(e, x, c);
    }
    if prior == Some(h) {
      var o := OwnerRow(e, c, h, v);
      assert o in y.owners;
      OwnHashAgain(e, x, added);
      assert !Backed(e, y, o);
    } else {
      assert |Where(y.ballots, HashIs(e, h))| >= 2 by {
        if prior.None? {
          FirstBallotLookup(e, x, added);
        } else {
          HashAfter(e, x, added, prior.value, h);
        }
      }
    }
  }

  lemma FirstBallotLookup(e: Id, x: Box, added: BallotRow)
    requires added.election == e
    ensures Where(NewBallots(e, x.ballots, added, None), HashIs(e, added.hash)) == Where(x.ballots, HashIs(e, added.hash)) + [added]
  {
    WhereAppend(x.ballots, added, HashIs(e, added.hash));
  }

  /** A voter reissued their own hash ends with that hash superseded. */
  lemma OwnHashAgain(e: Id, x: Box, added: BallotRow)
    requires added.election == e && Where(x.ballots, HashIs(e, added.hash)) != []
    ensures var after := Where(NewBallots(e, x.ballots, added, Some(added.hash)), HashIs(e, added.hash));
            |after| == 1 && after[0].superseded
  {
    var k := HashIs(e, added.hash);
    var all := x.ballots + [added];
    WhereAppend(x.ballots, added, k);
    var first := Where(all, k)[0];
    var sup := BallotRow(e, added.hash, first.option, first.version, true);
    WhereAppend(Where(all, Not(k)), sup, k);
    WhereCommute(all, Not(k), k);
    forall r | r in Where(all, k)
      ensures !Not(k)(r)
    {
      WhereIn(all, k, r);
    }
    WhereNone(Where(all, k), Not(k));
  }

  /** Recording keeps the invariant exactly when the receipt hash is new to the election. */
  lemma CastKeepsIffFresh(e: Id, eligible: seq<string>, options: int, x: Box, c: string, nonce: string, option: int, h: string)
    requires BoxInv(e, eligible, options, x) && Where(x.nonces, NonceIs(e, nonce)) == []
    requires c in eligible && 0 <= option < options
    ensures BoxInv(e, eligible, options, Cast(e, x, c, nonce, option, h)) <==> FreshHash(e, x, h)
  {
    hide BoxInv, FreshHash, Cast;
    if FreshHash(e, x, h) {
      CastKeeps(e, eligible, options, x, c, nonce, option, h);
    } else {
      StaleHashBreaks(e, eligible, options, x, c, nonce, option, h);
    }
  }
}
