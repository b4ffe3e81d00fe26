/**
 * What a voter at the terminal is told, from the session through the codec, the wire, the daemon and its
 * tables and back (ballotbox/src/libballotclient/voter.c, ballotd/dispatch.c, libballotbrain/handlers.c).
 */
module BallotEndToEnd {
  import opened Tables
  import opened BallotStore
  import opened BallotRuns
  import opened BallotLaws
  import opened BallotIds
  import opened BallotServed
  import opened BallotVoter
  import opened BallotRules
  import Brain = BallotBrain
  import Codec = BallotCodec
  import Trip = BallotTrip
  import Laws = HtttpLaws
  import A = BallotAnswer
  import T = BallotAnswerTrip
  import Receipts

  /** The election a session's requests reach. */
  function Reached(v: Session): Id {
    Trip.IdSeen(Stored(v.election, Codec.ID_LEN))
  }

  // ---- submissions ----

  lemma RecordClean(s: Store, e: Id, b: Ballot, clock: Clock)
    requires ClockOk(clock)
    ensures T.CleanAnswer(Codec.Cast, RecordAnswer(s, e, b, clock))
    ensures Decide(s, e, b).Accept? ==> Decide(s, e, b).hash != []
  {
    hide Decide, Recorded, HashText, Codec.Clean, Laws.DateText, Receipts.HashOf;
    if Decide(s, e, b).Accept? {
      AcceptFacts(s, e, b);
      RecordedTables(s, e, b);
      HashIsText(b.nonce, AddedRow(s, e, b).version);
      HashTextPlain(Decide(s, e, b).hash);
    }
  }

  /** Every answer to a ballot can be written and reaches the client whole. */
  lemma RecordTold(s: Store, e: Id, b: Ballot, clock: Clock)
    requires Inv(s) && ClockOk(clock)
    ensures var d, told := Decide(s, e, b), Told(Codec.Cast, RecordAnswer(s, e, b, clock), clock.date);
            && told.Some?
            && (d.Accept? ==> told.value.status == Ok && told.value.receipt == d.hash)
            && (d.Refuse? ==> told.value.status == d.code && told.value.receipt == "")
  {
    hide Decide, Inv, A.HttpAnswer, T.ReceivedAnswer, Laws.DateText, T.AnswerHeld, Codec.Clean, T.CleanAnswer;
    var a := RecordAnswer(s, e, b, clock);
    RecordHeld(s, e, b, clock);
    RecordClean(s, e, b, clock);
    NeverRetry(s, e, b);
    T.AnswerEncodes(Codec.Cast, a);
    T.AnswerComesBack(Codec.Cast, a, A.HttpAnswer(Codec.Cast, a).value, clock.date);
  }

  lemma NeverRetry(s: Store, e: Id, b: Ballot)
    ensures Decide(s, e, b).Refuse? ==> Decide(s, e, b).code != Retry && Decide(s, e, b).code != Ok
  {
    hide Where, Recorded, Load;
    Brain.DecideNeverOk(s, e, b);
  }

  /** What an answered submission tells its client is what the server decided: the receipt it issued, or the
      very code it refused with. */
  lemma SubmissionTold(s: Store, c: Client, option: int, nonce: string, clock: Clock)
    requires Inv(s) && ClockOk(clock) && SubmitEvent(c, option, nonce, Answered).Some?
    ensures var told := SubmitReceived(s, c, option, nonce, Answered, clock);
            var d := Decide(s, Reached(c.session), Ballot(c.login, Stored(nonce, Codec.NONCE_LEN), [option]));
            told == if d.Accept? then (Ok, d.hash) else (d.code, "")
  {
    hide Decide, Told, Stored, Trip.IdSeen, Heard, Inv, ClockOk;
    BallotHeard(c.session, option, nonce);
    RecordTold(s, Reached(c.session), Ballot(c.login, Stored(nonce, Codec.NONCE_LEN), [option]), clock);
  }

  /** So a voter is told ok exactly when the election is open, the login listed, the option one of the
      election's and the nonce unused, and each refusal the voter sees has its own exact case. */
  lemma SubmissionRule(s: Store, c: Client, option: int, nonce: string, clock: Clock)
    requires Inv(s) && ClockOk(clock) && SubmitEvent(c, option, nonce, Answered).Some?
    ensures var told, e := SubmitReceived(s, c, option, nonce, Answered, clock).0, Reached(c.session);
            var open := Exists(s, e) && StateOf(s, e) == Open;
            var listed := open && c.login in Eligible(s, e);
            var unused := Where(s.nonces, NonceIs(e, Stored(nonce, Codec.NONCE_LEN))) == [];
            && (told == Ok <==> listed && option < OptionCount(s, e) && unused)
            && (told == NotFound <==> !Exists(s, e))
            && (told == ElectionClosed <==> Exists(s, e) && StateOf(s, e) in {Closed, Published})
            && (told == NotOpen <==> Exists(s, e) && StateOf(s, e) == Draft)
            && (told == NotEligible <==> open && c.login !in Eligible(s, e))
            && (told == BadOption <==> listed && option >= OptionCount(s, e))
            && (told == Replay <==> listed && option < OptionCount(s, e) && !unused)
  {
    hide Decide, Stored, Trip.IdSeen, Heard, Inv, ClockOk, SubmitReceived, Where, Eligible, OptionCount;
    SubmissionTold(s, c, option, nonce, clock);
    NeverRetry(s, Reached(c.session), Ballot(c.login, Stored(nonce, Codec.NONCE_LEN), [option]));
    DecideRule(s, Reached(c.session), Ballot(c.login, Stored(nonce, Codec.NONCE_LEN), [option]));
  }

  /** The receipt a session shows is one the server can check: until that voter's next ballot in the
      election, whatever else happens, a check of it answers with the option the voter chose and the name
      the election gives it. */
  lemma ReceiptChecks(s: Store, c: Client, option: int, nonce: string, clock: Clock, later: seq<Event>)
    requires Inv(s) && ClockOk(clock) && SubmitEvent(c, option, nonce, Answered).Some?
    requires SubmitReceived(s, c, option, nonce, Answered, clock).0 == Ok
    requires var ev := SubmitEvent(c, option, nonce, Answered).value;
             Trusted(s, ev) && TrustedRun(Next(s, ev), later) && Silent(Next(s, ev), later, Reached(c.session), c.login)
    ensures var ev, told := SubmitEvent(c, option, nonce, Answered).value, SubmitReceived(s, c, option, nonce, Answered, clock);
            var e, shown := Reached(c.session), AfterSubmit(c.session, told.0, told.1).hash;
            var (r, row, name) := Brain.Checked(Run(Next(s, ev), later), e, shown);
            r == Ok && row.Some? && row.value.option == option && !row.value.superseded && row.value.hash == shown
            && name == OptionAt(OptionRows(s, e), option)
  {
    hide Decide, Stored, Trip.IdSeen, Heard, Inv, ClockOk, SubmitReceived, Trusted, TrustedRun, Silent, Run, Brain.Checked;
    hide OptionAt, OptionRows;
    var e, b := Reached(c.session), Ballot(c.login, Stored(nonce, Codec.NONCE_LEN), [option]);
    BallotHeard(c.session, option, nonce);
    assert SubmitEvent(c, option, nonce, Answered).value == Record(e, b);
    SubmissionTold(s, c, option, nonce, clock);
    NeverRetry(s, e, b);
    assert Next(s, Record(e, b)) == Decide(s, e, b).store;
    CheckLifetime(s, e, b, later, Record(e, b), []);
  }

  // ---- joins ----

  /** What an answered JOIN comes to: admitted exactly when the election the id names on the wire is open
      and the login listed there, and otherwise the outcome that says why. */
  lemma JoinRule(s: Store, c: Client, e: Id, cert: string, clock: Clock)
    requires Inv(s) && TextsOk(s) && ClockOk(clock) && Heard(JoinCall(e, cert)).Some?
    requires Held(s, Trip.IdSeen(Stored(e, Codec.ID_LEN)), c.login) <= INT_MAX
    ensures var r, id := JoinReceived(s, c.login, e, cert, Answered, clock), Trip.IdSeen(Stored(e, Codec.ID_LEN));
            var outcome := ClassifyJoin(r.status, r.el);
            var listed := Exists(s, id) && c.login != "" && c.login in Eligible(s, id);
            && (outcome == Admitted <==> listed && StateOf(s, id) == Open)
            && (outcome == JoinNotFound <==> !Exists(s, id))
            && (outcome == JoinNotEligible <==> Exists(s, id) && !listed)
            && (outcome == JoinNotOpen <==> listed && StateOf(s, id) != Open)
            && outcome != Timeout
  {
    hide Where, Inv, TextsOk, Heard, Told, JoinAnswer, Stored, ClockOk, Eligible, Brain.Joined, Load;
    var id := Trip.IdSeen(Stored(e, Codec.ID_LEN));
    JoinHeard(e, cert);
    JoinedRule(s, id, c.login);
    JoinToldAs(s, id, c.login, clock);
  }

  lemma JoinToldAs(s: Store, e: Id, login: string, clock: Clock)
    requires Inv(s) && TextsOk(s) && ClockOk(clock) && Held(s, e, login) <= INT_MAX
    requires Trip.Text(e, Codec.ID_LEN) && e != []
    ensures var told := Told(Codec.Join, JoinAnswer(s, e, login), clock.date);
            var (r, el, _, _) := Brain.Joined(s, e, login);
            && told.Some? && told.value.status == r
            && (r == Ok ==> AsReply(told.value).el.Some? && AsReply(told.value).el.value.state == StateOf(s, e))
  {
    hide Where, Inv, TextsOk, Told, Stored, StoredAll, Load, Codec.Clean, Brain.Joined, Laws.DateText;
    HeldNonNegative(s, e, login);
    VersionIsHeld(s, e, login);
    JoinTold(s, e, login, clock.date);
    JoinedRule(s, e, login);
    if Brain.Joined(s, e, login).0 == Ok {
      LoadedAs(s, e);
    }
  }

  lemma VersionIsHeld(s: Store, e: Id, login: string)
    ensures Brain.Joined(s, e, login).3 == Held(s, e, login) || Brain.Joined(s, e, login).3 == 0
  {
    hide Where, Load;
  }

  lemma LoadedAs(s: Store, e: Id)
    requires Exists(s, e)
    ensures Load(s, e).Some? && Load(s, e).value.id == e && Load(s, e).value.state == StateOf(s, e)
  {
    hide OptionNames, Eligible, Where;
    LoadedIs(s, e);
    var rows := Where(s.elections, IsElection(e));
    WhereIn(s.elections, IsElection(e), rows[0]);
  }

  /** In every world a run can reach, a session that would send an update does so over a ballot the server
      holds. */
  lemma RouteIsRight(w: World, i: nat)
    requires WorldInv(w) && i < |w.clients| && Route(w.clients[i].session) == DoUpdate
    ensures var c := w.clients[i]; Where(w.store.owners, OwnedBy(Reached(c.session), c.login)) != []
  {
    hide Inv, TextsOk, Where, Stored;
    assert InStep(w.store, w.clients[i]);
  }
}
