/**
 * Voter sessions against the server: joins and submissions over a link that may lose requests or
 * replies, several sessions per voter (ballotbox/src/libballotclient/voter.c, ballotd/dispatch.c).
 */
module BallotVoter {
  import opened Basics
  import opened Tables
  import opened BallotStore
  import opened BallotBox
  import opened BallotIds
  import opened BallotRuns
  import opened BallotLaws
  import opened BallotServed
  import opened BallotSample
  import Htttp
  import Brain = BallotBrain
  import Codec = BallotCodec
  import Trip = BallotTrip
  import Laws = HtttpLaws
  import A = BallotAnswer
  import T = BallotAnswerTrip
  import Receipts

  /** bu_session_t, without the display copies of title and options. */
  datatype Session = Session(cert: string, joined: bool, election: Id, hasBallot: bool, version: int, hash: string)

  const NEW_SESSION := Session("", false, "", false, 0, "")

  // ---- the client's decisions ----

  datatype Action = MustJoin | DoCast | DoUpdate

  /** bu_route_vote */
  function Route(v: Session): Action {
    if !v.joined then MustJoin else if !v.hasBallot then DoCast else DoUpdate
  }

  datatype JoinOutcome = Timeout | JoinNotFound | JoinNotEligible | JoinNotOpen | Admitted

  /** bu_classify_join */
  function ClassifyJoin(status: Code, el: Option<Election>): JoinOutcome {
    match status
    case NotFound => JoinNotFound
    case NotEligible => JoinNotEligible
    case CertInvalid => JoinNotEligible
    case CertExpired => JoinNotEligible
    case NotOpen => JoinNotOpen
    case Ok => if el.Some? && el.value.state == Open then Admitted else JoinNotOpen
    case _ => Timeout
  }

  /** What a JOIN brings back: a status and, on success, the election and the stored ballot's version. */
  datatype JoinReply = JoinReply(status: Code, el: Option<Election>, hasBallot: bool, version: int)

  /** bu_join once the exchange is over. A broken exchange is a DbError reply. */
  function AfterJoin(v: Session, e: Id, cert: string, r: JoinReply): Session {
    match ClassifyJoin(r.status, r.el)
    case Admitted => Session(cert, true, e, r.hasBallot, r.version, "")
    case JoinNotOpen => v.(joined := false, election := e)
    case _ => v
  }

  /** The ballot bu_submit_vote encrypts, None when it sends nothing. */
  function Submission(v: Session, option: int, nonce: string): Option<Ballot> {
    if Route(v) == MustJoin || option < 0 || option > 0xFF then None else Some(Ballot(v.cert, nonce, [option]))
  }

  /** bu_submit_vote once the exchange is over: only an ok status moves the session. */
  function AfterSubmit(v: Session, status: Code, hash: string): Session {
    if status != Ok then v else v.(hasBallot := true, version := v.version + 1, hash := hash)
  }

  /** The session struct as the client updates it in place. */
  class VoterSession {
    var cert: string
    var joined: bool
    var election: Id
    var hasBallot: bool
    var version: int
    var hash: string

    function Value(): Session
      reads this
    {
      Session(cert, joined, election, hasBallot, version, hash)
    }

    constructor ()
      ensures Value() == NEW_SESSION
    {
      cert, joined, election, hasBallot, version, hash := "", false, "", false, 0, "";
    }

    /** bu_join */
    method Join(e: Id, name: string, r: JoinReply) returns (outcome: JoinOutcome)
      modifies this
      ensures outcome == ClassifyJoin(r.status, r.el) && Value() == Joining(old(Value()), e, name, r)
    {
      var idCopy, nameCopy := Stored(e, Codec.ID_LEN), Stored(name, Codec.CERT_LEN);
      outcome := ClassifyJoin(r.status, r.el);
      match outcome {
        case Admitted =>
          cert, joined, election, hasBallot, version, hash := "", false, "", false, 0, "";
          joined := true;
          cert := nameCopy;
          election := idCopy;
          hasBallot := r.hasBallot;
          version := r.version;
        case JoinNotOpen =>
          joined := false;
          election := idCopy;
        case _ =>
      }
    }

    /** bu_submit_vote after its send */
    method Submitted(status: Code, receipt: string)
      modifies this
      ensures Value() == AfterSubmit(old(Value()), status, receipt)
    {
      if status != Ok {
        return;
      }
      hasBallot := true;
      version := version + 1;
      hash := receipt;
    }
  }

  // ---- the wire between them ----

  /** The JOIN bu_join sends; its arguments are cut to the request's arrays. */
  function JoinCall(e: Id, cert: string): (call: Codec.Call)
    ensures Codec.IsBytes(call.ballot.payload)
  {
    Codec.Blank(Codec.Join, Stored(cert, Codec.CERT_LEN)).(election := Stored(e, Codec.ID_LEN))
  }

  /** The CAST or UPDATE bu_submit_vote sends. */
  function BallotCall(v: Session, option: int, nonce: string): (call: Codec.Call)
    requires 0 <= option <= 0xFF
    ensures Codec.IsBytes(call.ballot.payload)
  {
    var cert := Stored(v.cert, Codec.CERT_LEN);
    Codec.Blank(if Route(v) == DoUpdate then Codec.Update else Codec.Cast, cert)
    .(election := Stored(v.election, Codec.ID_LEN), ballot := Ballot(cert, Stored(nonce, Codec.NONCE_LEN), [option]))
  }

  /** What the daemon decodes from a call's bytes; None if the call is not sent or is refused. */
  ghost function Heard(call: Codec.Call): Option<Codec.Call>
    requires Codec.IsBytes(call.ballot.payload)
  {
    if Trip.Encodes(call) then Trip.Received(Codec.HttpOf(call).value) else None
  }

  lemma HeardIs(call: Codec.Call)
    requires Trip.CallHeld(call)
    ensures Heard(call) == if Trip.Encodes(call) then Trip.Decoded(call) else None
  {
    hide Trip.ConfigHeld, Trip.Text, Trip.Received, Trip.Decoded, Codec.HttpOf, Trip.Intact;
    if Trip.Encodes(call) {
      Trip.CallComesBack(call, Codec.HttpOf(call).value);
    }
  }

  lemma JoinCallHeld(e: Id, cert: string)
    ensures Trip.CallHeld(JoinCall(e, cert))
  {
    hide Stored;
  }

  lemma BallotCallHeld(v: Session, option: int, nonce: string)
    requires 0 <= option <= 0xFF
    ensures Trip.CallHeld(BallotCall(v, option, nonce))
  {
    hide Stored;
  }

  /** A JOIN that is heard names the caller's id up to its first '/'. */
  lemma JoinHeard(e: Id, cert: string)
    ensures Heard(JoinCall(e, cert)).Some? ==>
              var id := Trip.IdSeen(Stored(e, Codec.ID_LEN));
              id != [] && Heard(JoinCall(e, cert)).value.election == id
  {
    hide Trip.CallHeld, Heard, Stored, Trip.IdSeen, Trip.Encodes;
    JoinCallHeld(e, cert);
    HeardIs(JoinCall(e, cert));
  }

  /** So does a ballot, and it brings its nonce and option. */
  lemma BallotHeard(v: Session, option: int, nonce: string)
    requires 0 <= option <= 0xFF
    ensures var call := BallotCall(v, option, nonce);
            Heard(call).Some? ==>
              && Heard(call).value.election == Trip.IdSeen(Stored(v.election, Codec.ID_LEN))
              && Heard(call).value.ballot == call.ballot
  {
    hide Trip.CallHeld, Heard, Stored, Trip.IdSeen, Trip.Encodes;
    BallotCallHeld(v, option, nonce);
    HeardIs(BallotCall(v, option, nonce));
  }

  // ---- the system: one server, many clients, a lossy link ----

  /** Fate of one exchange. StoreFault is a request the server could not serve. */
  datatype Link = RequestLost | StoreFault | ReplyLost | Answered

  /** A client's connection, with the name it logged in under, and its session. The server goes by
      that name and not by the one a request brings. */
  datatype Client = Client(login: string, session: Session)

  datatype World = World(store: Store, clients: seq<Client>)

  /** The texts an answer takes from the clock. */
  datatype Clock = Clock(date: string, issuedAt: string)

  predicate ClockOk(k: Clock) {
    Laws.DateText(k.date) && Trip.Text(k.issuedAt, Codec.TIME_LEN) && Codec.Clean(k.issuedAt)
  }

  datatype Act =
    | Elsewhere(ev: Event)
    | DoJoin(who: nat, election: Id, cert: string, link: Link, clock: Clock)
    | DoSubmit(who: nat, option: int, nonce: string, link: Link, clock: Clock)

  const NO_REPLY := JoinReply(DbError, None, false, 0)

  /** bcl_send's answer to a JOIN. */
  function AsReply(a: A.Answer): JoinReply {
    JoinReply(a.status,
              if a.id == [] then None
              else Some(Election(a.id, a.title, a.state, a.options, [], a.openTime, a.closeTime)),
              a.hasBallot != 0, a.version)
  }

  ghost function JoinReceived(s: Store, login: string, e: Id, cert: string, link: Link, clock: Clock): JoinReply {
    if link != Answered then NO_REPLY
    else
      match Heard(JoinCall(e, cert))
      case None => NO_REPLY
      case Some(call) =>
        match Told(Codec.Join, JoinAnswer(s, call.election, login), clock.date)
        case None => NO_REPLY
        case Some(a) => AsReply(a)
  }

  /** The event a submission amounts to at the server, if it gets there and is served. */
  ghost function SubmitEvent(c: Client, option: int, nonce: string, link: Link): Option<Event> {
    if link == RequestLost || link == StoreFault || Submission(c.session, option, nonce).None? then None
    else
      match Heard(BallotCall(c.session, option, nonce))
      case None => None
      case Some(call) => Some(Record(call.election, call.ballot.(cert := c.login)))
  }

  /** dispatch of CAST and UPDATE. */
  function RecordAnswer(s: Store, e: Id, b: Ballot, clock: Clock): A.Answer {
    match Decide(s, e, b)
    case Refuse(c, _) => A.NoAnswer().(status := c)
    case Accept(_, h, _) => A.NoAnswer().(receipt := h, issuedAt := clock.issuedAt)
  }

  /** What the client of a submission sees. */
  ghost function SubmitReceived(s: Store, c: Client, option: int, nonce: string, link: Link, clock: Clock): (Code, string) {
    if Submission(c.session, option, nonce).None? then (NotJoined, "")
    else if link != Answered then (DbError, "")
    else
      match SubmitEvent(c, option, nonce, link)
      case None => (DbError, "")
      case Some(ev) =>
        match Told(Codec.Cast, RecordAnswer(s, ev.election, ev.ballot, clock), clock.date)
        case None => (DbError, "")
        case Some(a) => (a.status, a.receipt)
  }

  ghost function Step(w: World, a: Act): World {
    match a
    case Elsewhere(ev) => w.(store := Next(w.store, ev))
    case DoJoin(i, e, cert, link, clock) =>
      if i >= |w.clients| then w
      else
        var c := w.clients[i];
        var reply := JoinReceived(w.store, c.login, e, cert, link, clock);
        w.(clients := w.clients[i := c.(session := Joining(c.session, e, cert, reply))])
    case DoSubmit(i, option, nonce, link, clock) =>
      if i >= |w.clients| then w
      else
        var c := w.clients[i];
        var (status, h) := SubmitReceived(w.store, c, option, nonce, link, clock);
        World(
          match SubmitEvent(c, option, nonce, link) { case None => w.store case Some(ev) => Next(w.store, ev) },
          w.clients[i := c.(session := AfterSubmit(c.session, status, h))])
  }

  /** bu_join's session, its arguments cut to the session's arrays. */
  function Joining(v: Session, e: Id, cert: string, r: JoinReply): Session {
    AfterJoin(v, Stored(e, Codec.ID_LEN), Stored(cert, Codec.CERT_LEN), r)
  }

  /** The store event of a step, if it has one. */
  ghost function StoreEvent(w: World, a: Act): Option<Event> {
    match a
    case Elsewhere(ev) => Some(ev)
    case DoJoin(_, _, _, _, _) => None
    case DoSubmit(i, option, nonce, link, _) =>
      if i >= |w.clients| then None else SubmitEvent(w.clients[i], option, nonce, link)
  }

  /** Store events are trusted, the clock prints plain text, and versions have not run out of ints. */
  ghost predicate TrustedAct(w: World, a: Act) {
    && (StoreEvent(w, a).Some? ==> Trusted(w.store, StoreEvent(w, a).value))
    && (a.DoJoin? ==> ClockOk(a.clock)) && (a.DoSubmit? ==> ClockOk(a.clock))
    && (a.DoJoin? && a.who < |w.clients| ==>
          Held(w.store, Trip.IdSeen(Stored(a.election, Codec.ID_LEN)), w.clients[a.who].login) <= INT_MAX)
  }

  // ---- what holds of every session ----

  /** The version of the ballot the server holds for this voter, 0 if none. */
  ghost function Held(s: Store, e: Id, c: string): int {
    var mine := Where(s.owners, OwnedBy(e, c));
    if mine == [] then 0 else mine[0].version
  }

  /** A session never runs ahead of what the server holds under this id for this voter, and believes
      in a ballot only if there is one. */
  ghost predicate InStepWith(s: Store, v: Session, e: Id, login: string) {
    v.joined ==>
      && 0 <= v.version <= Held(s, e, login)
      && (v.hasBallot <==> v.version >= 1)
  }

  /** In step with the election its id names on the wire. */
  ghost predicate InStep(s: Store, c: Client) {
    InStepWith(s, c.session, Trip.IdSeen(c.session.election), c.login) && Trip.Text(c.session.election, Codec.ID_LEN)
  }

  ghost predicate WorldInv(w: World) {
    Inv(w.store) && TextsOk(w.store) && forall i :: 0 <= i < |w.clients| ==> InStep(w.store, w.clients[i])
  }

  lemma HeldNonNegative(s: Store, e: Id, c: string)
    requires Inv(s)
    ensures Held(s, e, c) >= 0 && (Where(s.owners, OwnedBy(e, c)) != [] ==> Held(s, e, c) >= 1)
  {
    hide Where, UniqueIds, IdSeq, UniqueHashes, UniqueNonces, LiveOwned, Admissible, Balanced;
    assert Sound(s, e);
    var x := BoxOf(s, e);
    WhereAbsorb(s.owners, OwnedBy(e, c), OwnersIn(e));
    var mine := Where(s.owners, OwnedBy(e, c));
    if mine != [] {
      WhereIn(x.owners, OwnedBy(e, c), mine[0]);
      assert Backed(e, x, mine[0]);
    }
  }

  /** No event lowers a held version; an accepted ballot of that very voter raises it by one. */
  lemma HeldGrows(s: Store, ev: Event, e: Id, c: string)
    ensures Held(Next(s, ev), e, c) == Held(s, e, c) + (if Replaces(s, ev, e, c) then 1 else 0)
  {
    hide Where, IdSeq, Decide, Recorded, NewBallots, NewOwners, MaxSeq;
    match ev
    case Create(_, _, _) =>
    case Move(_, _) =>
    case Record(f, b) =>
      if Decide(s, f, b).Accept? {
        AcceptFacts(s, f, b);
        RecordedTables(s, f, b);
        var o := OwnerRow(f, b.cert, AddedRow(s, f, b).hash, AddedRow(s, f, b).version);
        OwnedElsewhere(s.owners, f, o, e, c);
      }
  }

  lemma OwnedElsewhere(owners: seq<OwnerRow>, f: Id, o: OwnerRow, e: Id, c: string)
    requires o.election == f
    ensures Where(NewOwners(f, owners, o), OwnedBy(e, c))
            == if e == f && c == o.cert then [o] else Where(owners, OwnedBy(e, c))
  {
    if e == f {
      OwnedAfter(e, owners, o, c);
    } else {
      WhereAbsorb(owners, OwnedBy(e, c), Not(OwnedBy(f, o.cert)));
      WhereAppend(Where(owners, Not(OwnedBy(f, o.cert))), o, OwnedBy(e, c));
    }
  }

  /** Right after an admitted join the session and the server agree on the election the id names on
      the wire: whether there is a ballot, and its version. */
  lemma JoinAgrees(s: Store, c: Client, e: Id, cert: string, link: Link, clock: Clock)
    requires Inv(s) && TextsOk(s) && ClockOk(clock)
    requires Held(s, Trip.IdSeen(Stored(e, Codec.ID_LEN)), c.login) <= INT_MAX
    requires var r := JoinReceived(s, c.login, e, cert, link, clock); ClassifyJoin(r.status, r.el) == Admitted
    ensures var id := Trip.IdSeen(Stored(e, Codec.ID_LEN));
            var n := Joining(c.session, e, cert, JoinReceived(s, c.login, e, cert, link, clock));
            && n.joined && n.election == Stored(e, Codec.ID_LEN) && 0 <= n.version == Held(s, id, c.login)
            && (n.hasBallot <==> n.version >= 1)
            && (n.hasBallot <==> Where(s.owners, OwnedBy(id, c.login)) != [])
  {
    hide Where, Inv, TextsOk, Heard, Told, JoinAnswer, Stored, Trip.IdSeen, ClockOk;
    var id := Trip.IdSeen(Stored(e, Codec.ID_LEN));
    JoinHeard(e, cert);
    HeldNonNegative(s, id, c.login);
    JoinAnswered(s, id, c.login, clock);
  }

  /** The JOIN answer as received: the version held, with its flag, whenever it admits. */
  lemma JoinAnswered(s: Store, e: Id, login: string, clock: Clock)
    requires Inv(s) && TextsOk(s) && ClockOk(clock) && Held(s, e, login) <= INT_MAX
    ensures var told := Told(Codec.Join, JoinAnswer(s, e, login), clock.date);
            told.Some? && (ClassifyJoin(AsReply(told.value).status, AsReply(told.value).el) == Admitted ==>
                             && told.value.version == Held(s, e, login)
                             && (told.value.hasBallot != 0 <==> Where(s.owners, OwnedBy(e, login)) != []))
  {
    hide Where, Inv, TextsOk, Told, Stored, StoredAll, Load, Codec.Clean;
    HeldNonNegative(s, e, login);
    JoinTold(s, e, login, clock.date);
  }

  /** Every step keeps every session in step with the server. */
  lemma StepKeeps(w: World, a: Act)
    requires WorldInv(w) && TrustedAct(w, a)
    ensures WorldInv(Step(w, a))
  {
    hide Inv, TextsOk, Trusted, Next, InStep, SubmitEvent, SubmitReceived, JoinReceived, Joining, Held, Stored, ClockOk;
    var n := Step(w, a);
    if StoreEvent(w, a).Some? {
      NextKeeps(w.store, StoreEvent(w, a).value);
      NextTexts(w.store, StoreEvent(w, a).value);
    }
    forall i | 0 <= i < |n.clients|
      ensures InStep(n.store, n.clients[i])
    {
      assert InStep(w.store, w.clients[i]);
      match a
      case Elsewhere(ev) => StaysInStep(w.store, ev, w.clients[i]);
      case DoJoin(j, e, cert, link, clock) =>
        if i == j {
          JoinInStep(w.store, w.clients[i], e, cert, link, clock);
        }
      case DoSubmit(j, option, nonce, link, clock) =>
        if i == j {
          SubmitInStep(w.store, w.clients[i], option, nonce, link, clock);
        } else if StoreEvent(w, a).Some? {
          StaysInStep(w.store, StoreEvent(w, a).value, w.clients[i]);
        }
    }
  }

  lemma StaysInStep(s: Store, ev: Event, c: Client)
    requires InStep(s, c)
    ensures InStep(Next(s, ev), c)
  {
    hide Next, Held, Replaces, Trip.IdSeen;
    HeldGrows(s, ev, Trip.IdSeen(c.session.election), c.login);
  }

  lemma JoinInStep(s: Store, c: Client, e: Id, cert: string, link: Link, clock: Clock)
    requires Inv(s) && TextsOk(s) && ClockOk(clock) && InStep(s, c)
    requires Held(s, Trip.IdSeen(Stored(e, Codec.ID_LEN)), c.login) <= INT_MAX
    ensures InStep(s, c.(session := Joining(c.session, e, cert, JoinReceived(s, c.login, e, cert, link, clock))))
  {
    hide Inv, TextsOk, Held, JoinReceived, Stored, Trip.IdSeen, ClockOk;
    var r := JoinReceived(s, c.login, e, cert, link, clock);
    if ClassifyJoin(r.status, r.el) == Admitted {
      JoinAgrees(s, c, e, cert, link, clock);
    }
  }

  /** The client is told of success only when the server recorded, under the id on the wire. */
  lemma SubmitSeen(s: Store, c: Client, option: int, nonce: string, link: Link, clock: Clock)
    requires ClockOk(clock)
    ensures SubmitReceived(s, c, option, nonce, link, clock).0 == Ok ==>
              var ev := SubmitEvent(c, option, nonce, link);
              && ev.Some? && Replaces(s, ev.value, Trip.IdSeen(Stored(c.session.election, Codec.ID_LEN)), c.login)
  {
    hide Decide, Told, Stored, Trip.IdSeen, Heard, BallotCall;
    var ev := SubmitEvent(c, option, nonce, link);
    if ev.Some? {
      BallotHeard(c.session, option, nonce);
      RecordAnswered(s, ev.value.election, ev.value.ballot, clock);
    }
  }

  /** The answer to a ballot as received carries the server's own status. */
  lemma RecordAnswered(s: Store, e: Id, b: Ballot, clock: Clock)
    requires ClockOk(clock)
    ensures var told := Told(Codec.Cast, RecordAnswer(s, e, b, clock), clock.date);
            told.Some? ==> told.value.status == RecordAnswer(s, e, b, clock).status
    ensures RecordAnswer(s, e, b, clock).status == Ok <==> Decide(s, e, b).Accept?
  {
    hide Decide, A.HttpAnswer, T.ReceivedAnswer, Laws.DateText, T.AnswerHeld, Codec.Clean;
    Brain.DecideNeverOk(s, e, b);
    RecordHeld(s, e, b, clock);
    var a := RecordAnswer(s, e, b, clock);
    if A.HttpAnswer(Codec.Cast, a).Some? {
      T.AnswerComesBack(Codec.Cast, a, A.HttpAnswer(Codec.Cast, a).value, clock.date);
    }
  }

  lemma RecordHeld(s: Store, e: Id, b: Ballot, clock: Clock)
    requires ClockOk(clock)
    ensures T.AnswerHeld(RecordAnswer(s, e, b, clock))
  {
    hide Decide, Recorded, HashText, Codec.Clean, Laws.DateText, T.RowsHeld, A.Ints, Trip.Texts, Receipts.HashOf;
    NothingListed();
    if Decide(s, e, b).Accept? {
      AcceptFacts(s, e, b);
      RecordedTables(s, e, b);
      HashIsText(b.nonce, AddedRow(s, e, b).version);
      HashTextPlain(Decide(s, e, b).hash);
    }
  }

  lemma SubmitInStep(s: Store, c: Client, option: int, nonce: string, link: Link, clock: Clock)
    requires InStep(s, c) && ClockOk(clock)
    ensures var (status, h) := SubmitReceived(s, c, option, nonce, link, clock);
            var t := match SubmitEvent(c, option, nonce, link) { case None => s case Some(ev) => Next(s, ev) };
            InStep(t, c.(session := AfterSubmit(c.session, status, h)))
  {
    hide Next, Held, Decide, SubmitReceived, SubmitEvent, Trip.IdSeen, Replaces, ClockOk;
    SubmitSeen(s, c, option, nonce, link, clock);
    var id := Trip.IdSeen(c.session.election);
    match SubmitEvent(c, option, nonce, link)
    case None =>
    case Some(ev) => HeldGrows(s, ev, id, c.login);
  }

  /** Whichever request the client chose, an accepted ballot leaves its voter with one owner row, and
      that row names the one live ballot: casting again never counts twice. */
  lemma CastNeverCountsTwice(s: Store, e: Id, b: Ballot)
    requires Inv(s) && Decide(s, e, b).Accept? && Trusted(s, Record(e, b))
    ensures var t := Decide(s, e, b).store;
            && Inv(t)
            && Where(t.owners, OwnedBy(e, b.cert)) == [OwnerRow(e, b.cert, Decide(s, e, b).hash, Held(s, e, b.cert) + 1)]
            && |Where(t.ballots, LiveIn(e))| == |Where(s.ballots, LiveIn(e))| + (if Held(s, e, b.cert) == 0 then 1 else 0)
  {
    hide Where, IdSeq, Decide, Recorded, NewBallots, NewOwners, FreshHash, Inv, Receipts.HashOf, BoxOf;
    RecordExists(s, e, b);
    AcceptFacts(s, e, b);
    RecordedTables(s, e, b);
    var added := AddedRow(s, e, b);
    var o := OwnerRow(e, b.cert, added.hash, added.version);
    OwnedAfter(e, s.owners, o, b.cert);
    var t := Decide(s, e, b).store;
    TallyIsVoters(s, e);
    TallyIsVoters(t, e);
    HeldNonNegative(s, e, b.cert);
    OwnersCount(s.owners, e, o);
    UniqueOwner(s, e, b.cert);
  }

  lemma UniqueOwner(s: Store, e: Id, c: string)
    requires Inv(s)
    ensures |Where(s.owners, OwnedBy(e, c))| <= 1
  {
    hide Where, UniqueIds, IdSeq, UniqueHashes, UniqueNonces, LiveOwned, Admissible, Balanced, Backed;
    assert Sound(s, e);
    WhereAbsorb(s.owners, OwnedBy(e, c), OwnersIn(e));
  }

  lemma OwnersCount(owners: seq<OwnerRow>, e: Id, o: OwnerRow)
    requires o.election == e
    ensures |Where(NewOwners(e, owners, o), OwnersIn(e))|
            == |Where(owners, OwnersIn(e))| + 1 - |Where(owners, OwnedBy(e, o.cert))|
  {
    WhereMinus(owners, OwnedBy(e, o.cert), OwnersIn(e));
    WhereAppend(Where(owners, Not(OwnedBy(e, o.cert))), o, OwnersIn(e));
  }

  // ---- runs of the whole system ----

  ghost function RunWorld(w: World, acts: seq<Act>): World
    decreases |acts|
  {
    if acts == [] then w else RunWorld(Step(w, acts[0]), acts[1..])
  }

  ghost predicate TrustedActs(w: World, acts: seq<Act>)
    decreases |acts|
  {
    acts == [] || (TrustedAct(w, acts[0]) && TrustedActs(Step(w, acts[0]), acts[1..]))
  }

  /** Through any interleaving of joins, submissions, losses and other events. */
  lemma {:induction false} RunKeepsInStep(w: World, acts: seq<Act>)
    requires WorldInv(w) && TrustedActs(w, acts)
    ensures WorldInv(RunWorld(w, acts))
    decreases |acts|
  {
    hide WorldInv, Step, TrustedAct;
    if acts != [] {
      StepKeeps(w, acts[0]);
      RunKeepsInStep(Step(w, acts[0]), acts[1..]);
    }
  }

  /** With an empty store and fresh sessions the invariant holds. */
  lemma NewWorld(logins: seq<string>, clients: seq<Client>)
    requires |clients| == |logins| && forall i :: 0 <= i < |logins| ==> clients[i] == Client(logins[i], NEW_SESSION)
    ensures WorldInv(World(EMPTY, clients))
  {
    hide Inv;
    InitialInv();
  }

  // ---- ids that hold a '/' ----

  /** Whatever a session believes of the election its id names on the wire, it believes of its own id
      when that holds no '/'. */
  lemma OwnIdInStep(s: Store, c: Client)
    requires InStep(s, c) && '/' !in c.session.election
    ensures InStepWith(s, c.session, c.session.election, c.login)
  {
    hide Held;
    NoSlashSeen(c.session.election);
  }

  lemma NoSlashSeen(id: string)
    requires '/' !in id
    ensures Trip.IdSeen(id) == id
  {
    IndexIs(id, '/', |id|);
  }

  /** If this join is admitted, the session is in step with the election of the very id it was made under. */
  ghost predicate FollowsAt(s: Store, c: Client, e: Id, cert: string, link: Link, clock: Clock) {
    var r := JoinReceived(s, c.login, e, cert, link, clock);
    Inv(s) && TextsOk(s) && ClockOk(clock) && Held(s, Trip.IdSeen(e), c.login) <= INT_MAX
    && ClassifyJoin(r.status, r.el) == Admitted ==>
      InStepWith(s, Joining(c.session, e, cert, r), e, c.login)
  }

  ghost predicate FollowsOwnId(e: Id) {
    forall s: Store, c: Client, cert: string, link: Link, clock: Clock :: FollowsAt(s, c, e, cert, link, clock)
  }

  lemma JoinEncodes(e: Id, cert: string)
    requires Trip.Text(e, Codec.ID_LEN) && Htttp.ValidField(e, false)
    requires Trip.Text(cert, Codec.CERT_LEN) && Htttp.ValidField(cert, true)
    ensures Trip.Encodes(JoinCall(e, cert))
  {
    hide Stored, Codec.PathOf, Codec.MethodName, Htttp.ValidField, Htttp.GoodHeaders, Htttp.Emitted, Codec.CertHeader;
    var call := JoinCall(e, cert);
    Trip.PathValid(call);
    Trip.NameValid(call.op);
    Trip.CertEmitted(cert);
    Trip.CertGood(cert);
  }

  const SAMPLE_CLOCK := Clock("d", "d")

  lemma SampleClockOk()
    ensures ClockOk(SAMPLE_CLOCK)
  {
  }

  lemma SampleTexts(id: Id)
    requires Htttp.ValidField(id, false)
    ensures TextsOk(AnnVoted(id))
  {
    hide IdSeq, Receipts.HashOf, HashText;
    Htttp.ValidHasNo(id, false, '\r');
    Htttp.ValidHasNo(id, false, '\n');
    HashIsText("Az", 1);
  }

  lemma SampleJoined(id: Id)
    ensures var s := AnnVoted(id);
            && Brain.Joined(s, id, "ann").0 == Ok && Brain.Joined(s, id, "ann").1.Some?
            && Brain.Joined(s, id, "ann").1.value.id == id && Brain.Joined(s, id, "ann").1.value.state == Open
            && Held(s, id, "ann") == 1
  {
    hide Where, IdSeq, Receipts.HashOf;
    var s := AnnVoted(id);
    OpenElectionViews(id, id);
    assert CertNames(s.eligible)[0] == "ann";
    WhereOne(s.owners[0], OwnedBy(id, "ann"));
  }

  /** A voter with a ballot in election `id` who joins under a longer id "id/.." is told of that ballot,
      though the server holds none under the id the session then keeps. */
  lemma SlashMisleads(e: Id, v: Session)
    requires Trip.Text(e, Codec.ID_LEN) && Htttp.ValidField(e, false) && '/' in e && Trip.IdSeen(e) != []
    ensures var s := AnnVoted(Trip.IdSeen(e));
            var r := JoinReceived(s, "ann", e, "ann", Answered, SAMPLE_CLOCK);
            var n := Joining(v, e, "ann", r);
            && Inv(s) && TextsOk(s) && Held(s, Trip.IdSeen(e), "ann") == 1
            && ClassifyJoin(r.status, r.el) == Admitted
            && n.joined && n.election == e && n.hasBallot && n.version == 1 && Held(s, e, "ann") == 0
  {
    hide Inv, TextsOk, Told, JoinAnswer, Stored, JoinReceived, AnnVoted, OpenElection, ClockOk, Decide, Joining;
    hide Trip.CallHeld, Trip.Encodes, Where, Held;
    var id := Trip.IdSeen(e);
    var s := AnnVoted(id);
    AnnVotes(id);
    assert Htttp.ValidField(id, false);
    SampleTexts(id);
    SampleClockOk();
    SampleJoined(id);
    SampleAdmits(e);
    JoinAgrees(s, Client("ann", v), e, "ann", Answered, SAMPLE_CLOCK);
    NobodyElse(id, e);
  }

  lemma NobodyElse(id: Id, e: Id)
    requires id != e
    ensures Held(AnnVoted(id), e, "ann") == 0
  {
    hide Receipts.HashOf, IdSeq;
    WhereOne(AnnVoted(id).owners[0], OwnedBy(e, "ann"));
  }

  lemma SampleAdmits(e: Id)
    requires Trip.Text(e, Codec.ID_LEN) && Htttp.ValidField(e, false) && Trip.IdSeen(e) != []
    requires TextsOk(AnnVoted(Trip.IdSeen(e)))
    ensures var r := JoinReceived(AnnVoted(Trip.IdSeen(e)), "ann", e, "ann", Answered, SAMPLE_CLOCK);
            ClassifyJoin(r.status, r.el) == Admitted
  {
    hide TextsOk, Told, Stored, AnnVoted, Trip.Encodes, Brain.Joined, StoredAll, Held, Trip.CallHeld;
    var id := Trip.IdSeen(e);
    var s := AnnVoted(id);
    JoinEncodes(e, "ann");
    JoinCallHeld(e, "ann");
    HeardIs(JoinCall(e, "ann"));
    SampleJoined(id);
    SampleClockOk();
    assert Trip.Text(id, Codec.ID_LEN);
    JoinedVersion(s, id, "ann");
    JoinTold(s, id, "ann", SAMPLE_CLOCK.date);
  }

  lemma JoinedVersion(s: Store, e: Id, login: string)
    ensures Brain.Joined(s, e, login).0 == Ok ==> Brain.Joined(s, e, login).3 == Held(s, e, login)
  {
    hide Where, Load;
  }

  /** Joins under an id that can be sent follow that id exactly when it holds no '/' (or begins with
      one, and then no join under it is ever admitted). */
  lemma OwnIdIff(e: Id)
    requires Trip.Text(e, Codec.ID_LEN) && Htttp.ValidField(e, false)
    ensures FollowsOwnId(e) <==> '/' !in e || Trip.IdSeen(e) == []
  {
    hide Inv, TextsOk, JoinReceived, Joining, Held, ClockOk, AnnVoted;
    if '/' in e && Trip.IdSeen(e) != [] {
      SampleClockOk();
      SlashMisleads(e, NEW_SESSION);
      assert !FollowsAt(AnnVoted(Trip.IdSeen(e)), Client("ann", NEW_SESSION), e, "ann", Answered, SAMPLE_CLOCK);
    } else {
      forall s: Store, c: Client, cert: string, link: Link, clock: Clock
        ensures FollowsAt(s, c, e, cert, link, clock)
      {
        FollowsWhenPlain(s, c, e, cert, link, clock);
      }
    }
  }

  lemma FollowsWhenPlain(s: Store, c: Client, e: Id, cert: string, link: Link, clock: Clock)
    requires Trip.Text(e, Codec.ID_LEN) && ('/' !in e || Trip.IdSeen(e) == [])
    ensures FollowsAt(s, c, e, cert, link, clock)
  {
    hide Inv, TextsOk, Joining, Held, ClockOk, Heard, Told, Trip.IdSeen, JoinAnswer, Stored;
    var r := JoinReceived(s, c.login, e, cert, link, clock);
    if Inv(s) && TextsOk(s) && ClockOk(clock) && Held(s, Trip.IdSeen(e), c.login) <= INT_MAX
       && ClassifyJoin(r.status, r.el) == Admitted {
      JoinHeard(e, cert);
      JoinAgrees(s, c, e, cert, link, clock);
      if '/' !in e {
        NoSlashSeen(e);
      }
    }
  }

  /** For one: with a ballot in "E-1", a join under "E-1/x" leaves the session claiming a ballot there. */
  lemma SampleSlash()
    ensures Trip.IdSeen("E-1/x") == "E-1" && !FollowsOwnId("E-1/x")
  {
    hide FollowsOwnId;
    IndexIs("E-1/x", '/', 3);
    assert "E-1/x"[..3] == "E-1" && '/' in "E-1/x";
    OwnIdIff("E-1/x");
  }
}
