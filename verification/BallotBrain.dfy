/**
 * The daemon's library as it runs: one context, a committed store, at most one open transaction with
 * its own working copy, and a schedule of statement outcomes it does not control
 * (ballotbox/src/libballotbrain/db.c, txn.c, handlers.c, lifecycle.c).
 */
module BallotBrain {
  import opened Basics
  import opened Tables
  import opened BallotStore
  import opened BallotIds
  import opened BallotRuns
  import opened BallotLaws
  import opened BallotFaults
  import Receipts

  /** An open connection and the store as its statements see it. */
  class Connection {
    var view: Store

    constructor (s: Store)
      ensures view == s
    {
      view := s;
    }
  }

  /** Statements a command sends when all of them succeed. */
  function Cost(s: Store, e: Id, c: Cmd): nat {
    match c
    case InsertElection(cfg) => InsertCost(e, cfg)
    case UpdateState(_) => if Where(s.elections, IsElection(e)) == [] then 1 else 3
    case MarkSuperseded(h) => if Where(s.ballots, HashIs(e, h)) == [] then 1 else 3
    case SetOwner(_, _, _) => 2
    case GetElection => if Where(s.elections, IsElection(e)) == [] then 1 else 3
    case _ => 1
  }

  /** How many names come before the first unsafe one. */
  function SafeRun(names: seq<string>): (n: nat)
    ensures n <= |names|
    ensures n == |names| <==> AllSafe(names)
    ensures AllSafe(names[..n]) && (n < |names| ==> Unsafe(names[n]))
  {
    if names == [] || Unsafe(names[0]) then 0
    else
      assert names == [names[0]] + names[1..];
      1 + SafeRun(names[1..])
  }

  function InsertCost(e: Id, c: Config): nat {
    if Unsafe(e) || Unsafe(c.title) || Unsafe(c.openTime) || Unsafe(c.closeTime) then 0
    else
      1 + ListCost(Take(c.options, MAX_OPTIONS), Take(c.eligible, MAX_VOTERS))
  }

  /** Names are sent one by one until the first unsafe one; voters only once every option is. */
  function ListCost(options: seq<string>, voters: seq<string>): nat {
    SafeRun(options) + (if AllSafe(options) then SafeRun(voters) else 0)
  }

  /** What running a command on a view from time t must give: the first fault's code, or the
      command's own result; and the time afterwards. */
  ghost predicate Ran(o: Schedule, t: nat, before: Store, e: Id, c: Cmd,
                      r: Code, after: Store, reply: Reply, u: nat) {
    var (code, time) := Steps(o, t, Cost(before, e, c));
    var d := Apply(before, e, IdSeq(e), c);
    && u == time
    && (code != Ok ==> r == code)
    && (code == Ok ==> (d.Broken? ==> r == DbError) && (d.Done? ==> r == Ok && after == d.store && reply == d.reply))
  }

  /** A command as db_exec runs it on its own. */
  function JobOf(s: Store, e: Id, c: Cmd): Job {
    Job(IsWrite(c), Cost(s, e, c), Apply(s, e, IdSeq(e), c).Done?)
  }

  class Brain {
    const oracle: Schedule
    var clock: nat
    var committed: Store
    var txn: Connection?

    constructor (o: Schedule, s: Store)
      ensures oracle == o && clock == 0 && committed == s && txn == null
    {
      oracle, clock, committed, txn := o, 0, s, null;
    }

    /** db_socket_exec on an open connection, or db_socket_open: one scheduled outcome. */
    method Statement() returns (r: Code)
      modifies this`clock
      ensures clock == old(clock) + 1 && r == CodeOf(oracle(old(clock)))
    {
      r := CodeOf(oracle(clock));
      clock := clock + 1;
    }

    // ---- db.c: the commands, statement by statement ----

    method RunInsertElection(conn: Connection, e: Id, c: Config) returns (r: Code)
      modifies conn, this`clock
      ensures Ran(oracle, old(clock), old(conn.view), e, InsertElection(c), r, conn.view, Nothing, clock)
    {
      hide IdSeq, Unsafe, SafeRun, Steps, AllSafe, OptionRowsOf, EligibleRowsOf, Take;
      if Unsafe(e) || Unsafe(c.title) || Unsafe(c.openTime) || Unsafe(c.closeTime) {
        return DbError;
      }
      ghost var opts, voters := Take(c.options, MAX_OPTIONS), Take(c.eligible, MAX_VOTERS);
      StepsThen(oracle, clock, 1, ListCost(opts, voters));
      r := Statement();
      if r != Ok {
        return;
      }
      conn.view := conn.view.(elections := conn.view.elections
                              + [ElectionRow(IdSeq(e), e, c.title, Draft, c.openTime, c.closeTime)]);
      r := InsertLists(conn, e, Take(c.options, MAX_OPTIONS), Take(c.eligible, MAX_VOTERS));
    }

    /** The option rows, then the voter rows. */
    method InsertLists(conn: Connection, e: Id, options: seq<string>, voters: seq<string>) returns (r: Code)
      modifies conn, this`clock
      ensures var (code, t) := Steps(oracle, old(clock), ListCost(options, voters));
              && clock == t
              && r == (if code != Ok then code else if AllSafe(options) && AllSafe(voters) then Ok else DbError)
      ensures r == Ok ==>
                conn.view == old(conn.view).(options := old(conn.view).options + OptionRowsOf(e, options),
                                             eligible := old(conn.view).eligible + EligibleRowsOf(e, voters))
    {
      hide SafeRun, Steps, AllSafe, OptionRowsOf, EligibleRowsOf;
      StepsThen(oracle, clock, SafeRun(options), SafeRun(voters));
      r := InsertOptions(conn, e, options);
      if r != Ok {
        return;
      }
      r := InsertEligible(conn, e, voters);
    }

    method InsertOptions(conn: Connection, e: Id, names: seq<string>) returns (r: Code)
      modifies conn, this`clock
      ensures var (code, t) := Steps(oracle, old(clock), SafeRun(names));
              && clock == t
              && r == (if code != Ok then code else if AllSafe(names) then Ok else DbError)
      ensures r == Ok ==> conn.view == old(conn.view).(options := old(conn.view).options + OptionRowsOf(e, names))
    {
      hide Unsafe, Steps, SafeRun;
      r := Ok;
      var i := 0;
      assert OptionRowsOf(e, names[..0]) == [];
      while i < |names|
        invariant 0 <= i <= SafeRun(names) <= |names| && r == Ok
        invariant clock == old(clock) + i
        invariant Steps(oracle, old(clock), i).0 == Ok
        invariant conn.view == old(conn.view).(options := old(conn.view).options + OptionRowsOf(e, names[..i]))
      {
        if Unsafe(names[i]) {
          UnsafeStops(names, i);
          return DbError;
        }
        SafeGoesOn(names, i);
        StepsMore(oracle, old(clock), i, SafeRun(names));
        r := Statement();
        if r != Ok {
          return;
        }
        conn.view := conn.view.(options := conn.view.options + [OptionRow(e, i, names[i])]);
        assert OptionRowsOf(e, names[..i]) + [OptionRow(e, i, names[i])] == OptionRowsOf(e, names[..i + 1]);
        i := i + 1;
      }
      assert names[..i] == names;
    }

    method InsertEligible(conn: Connection, e: Id, names: seq<string>) returns (r: Code)
      modifies conn, this`clock
      ensures var (code, t) := Steps(oracle, old(clock), SafeRun(names));
              && clock == t
              && r == (if code != Ok then code else if AllSafe(names) then Ok else DbError)
      ensures r == Ok ==> conn.view == old(conn.view).(eligible := old(conn.view).eligible + EligibleRowsOf(e, names))
    {
      hide Unsafe, Steps, SafeRun;
      r := Ok;
      var i := 0;
      assert EligibleRowsOf(e, names[..0]) == [];
      while i < |names|
        invariant 0 <= i <= SafeRun(names) <= |names| && r == Ok
        invariant clock == old(clock) + i
        invariant Steps(oracle, old(clock), i).0 == Ok
        invariant conn.view == old(conn.view).(eligible := old(conn.view).eligible + EligibleRowsOf(e, names[..i]))
      {
        if Unsafe(names[i]) {
          UnsafeStops(names, i);
          return DbError;
        }
        SafeGoesOn(names, i);
        StepsMore(oracle, old(clock), i, SafeRun(names));
        r := Statement();
        if r != Ok {
          return;
        }
        conn.view := conn.view.(eligible := conn.view.eligible + [EligibleRow(e, names[i])]);
        assert EligibleRowsOf(e, names[..i]) + [EligibleRow(e, names[i])] == EligibleRowsOf(e, names[..i + 1]);
        i := i + 1;
      }
      assert names[..i] == names;
    }

    /** run_update_state: read the row, delete it, reinsert it with the new state. */
    method RunUpdateState(conn: Connection, e: Id, to: State) returns (r: Code)
      modifies conn, this`clock
      ensures Ran(oracle, old(clock), old(conn.view), e, UpdateState(to), r, conn.view, Nothing, clock)
    {
      hide IdSeq, Where;
      var rows := Where(conn.view.elections, IsElection(e));
      StepsThree(oracle, clock);
      r := Statement();
      if r != Ok {
        return;
      }
      if rows == [] {
        return DbError;
      }
      r := Statement();
      if r != Ok {
        return;
      }
      conn.view := conn.view.(elections := Where(conn.view.elections, Not(IsElection(e))));
      r := Statement();
      if r != Ok {
        return;
      }
      conn.view := conn.view.(elections := conn.view.elections + [rows[0].(id := e, state := to)]);
    }

    /** run_mark_superseded: read the first row with the hash, delete every row with it, reinsert one. */
    method RunMarkSuperseded(conn: Connection, e: Id, h: string) returns (r: Code)
      modifies conn, this`clock
      ensures Ran(oracle, old(clock), old(conn.view), e, MarkSuperseded(h), r, conn.view, Nothing, clock)
    {
      hide IdSeq, Where;
      var rows := Where(conn.view.ballots, HashIs(e, h));
      StepsThree(oracle, clock);
      r := Statement();
      if r != Ok {
        return;
      }
      if rows == [] {
        return DbError;
      }
      r := Statement();
      if r != Ok {
        return;
      }
      conn.view := conn.view.(ballots := Where(conn.view.ballots, Not(HashIs(e, h))));
      r := Statement();
      if r != Ok {
        return;
      }
      conn.view := conn.view.(ballots := conn.view.ballots + [BallotRow(e, h, rows[0].option, rows[0].version, true)]);
    }

    /** run_set_owner: delete the voter's row, insert the new one. */
    method RunSetOwner(conn: Connection, e: Id, cert: string, h: string, version: int) returns (r: Code)
      modifies conn, this`clock
      ensures Ran(oracle, old(clock), old(conn.view), e, SetOwner(cert, h, version), r, conn.view, Nothing, clock)
    {
      hide IdSeq, Where;
      r := Statement();
      if r != Ok {
        return;
      }
      conn.view := conn.view.(owners := Where(conn.view.owners, Not(OwnedBy(e, cert))));
      r := Statement();
      if r != Ok {
        return;
      }
      conn.view := conn.view.(owners := conn.view.owners + [OwnerRow(e, cert, h, version)]);
    }

    /** run_append_ballot and run_nonce_mark: one insert each. */
    method RunInsertRow(conn: Connection, e: Id, c: Cmd) returns (r: Code)
      requires c.AppendBallot? || c.NonceMark?
      modifies conn, this`clock
      ensures Ran(oracle, old(clock), old(conn.view), e, c, r, conn.view, Nothing, clock)
    {
      hide IdSeq;
      r := Statement();
      if r != Ok {
        return;
      }
      if c.AppendBallot? {
        conn.view := conn.view.(ballots := conn.view.ballots + [c.row]);
      } else {
        conn.view := conn.view.(nonces := conn.view.nonces + [NonceRow(e, c.nonce)]);
      }
    }

    /** run_get_election: the election row, then its options, then its voters. */
    method RunGetElection(conn: Connection, e: Id) returns (r: Code, reply: Reply)
      modifies this`clock
      ensures Ran(oracle, old(clock), conn.view, e, GetElection, r, conn.view, reply, clock)
    {
      hide IdSeq, Where, OptionNames;
      reply := Found(None);
      var rows := Where(conn.view.elections, IsElection(e));
      StepsThree(oracle, clock);
      r := Statement();
      if r != Ok {
        return;
      }
      if rows == [] {
        return;
      }
      r := Statement();
      if r != Ok {
        return;
      }
      var opts := Where(conn.view.options, OptionsIn(e));
      var names := FillOptions(opts);
      r := Statement();
      if r != Ok {
        return;
      }
      var voters := FillEligible(Where(conn.view.eligible, EligibleIn(e)));
      var row := rows[0];
      reply := Found(Some(Election(row.id, row.title, row.state, names, voters, row.openTime, row.closeTime)));
    }

    /** The option loop: each row writes its slot of a sixteen-slot array; the count is the row count. */
    method FillOptions(rows: seq<OptionRow>) returns (names: seq<string>)
      ensures names == OptionNames(rows)
    {
      hide OptionNames;
      var slots := new string[MAX_OPTIONS](i => "");
      for i := 0 to |rows|
        invariant forall k :: 0 <= k < MAX_OPTIONS ==> slots[k] == OptionAt(rows[..i], k)
      {
        if 0 <= rows[i].idx < MAX_OPTIONS {
          slots[rows[i].idx] := rows[i].name;
        }
        assert rows[..i + 1][..i] == rows[..i];
      }
      assert rows[..|rows|] == rows;
      names := slots[..if |rows| < MAX_OPTIONS then |rows| else MAX_OPTIONS];
    }

    /** The voter loop: the first sixty-four names. */
    method FillEligible(rows: seq<EligibleRow>) returns (names: seq<string>)
      ensures names == Take(CertNames(rows), MAX_VOTERS)
    {
      names := [];
      var i := 0;
      while i < |rows| && i < MAX_VOTERS
        invariant 0 <= i <= |rows| && i <= MAX_VOTERS && names == CertNames(rows)[..i]
      {
        names := names + [rows[i].cert];
        i := i + 1;
      }
    }

    /** run_get_tally: one increment per live row whose option is a valid index. */
    method RunGetTally(conn: Connection, e: Id) returns (r: Code, reply: Reply)
      modifies this`clock
      ensures Ran(oracle, old(clock), conn.view, e, GetTally, r, conn.view, reply, clock)
    {
      hide IdSeq;
      reply := Nothing;
      var rows := Where(conn.view.ballots, LiveIn(e));
      r := Statement();
      if r != Ok {
        return;
      }
      forall b | b in rows
        ensures LiveIn(e)(b)
      {
        WhereIn(conn.view.ballots, LiveIn(e), b);
      }
      var counts := CountTally(rows, e);
      forall i | 0 <= i < MAX_OPTIONS
        ensures counts[i] == TallyOf(conn.view.ballots, e)[i]
      {
        WhereAbsorb(conn.view.ballots, LiveFor(e, i), LiveIn(e));
      }
      assert counts == TallyOf(conn.view.ballots, e);
      reply := Tally(counts);
    }

    method CountTally(rows: seq<BallotRow>, ghost e: Id) returns (counts: seq<int>)
      requires forall b :: b in rows ==> LiveIn(e)(b)
      ensures counts == TallyOf(rows, e)
    {
      counts := seq(MAX_OPTIONS, i => 0);
      for k := 0 to |rows|
        invariant |counts| == MAX_OPTIONS
        invariant forall i :: 0 <= i < MAX_OPTIONS ==> counts[i] == |Where(rows[..k], LiveFor(e, i))|
      {
        ghost var was := counts;
        var idx := rows[k].option;
        assert rows[k] in rows;
        if 0 <= idx < MAX_OPTIONS {
          counts := counts[idx := counts[idx] + 1];
        }
        assert rows[..k + 1] == rows[..k] + [rows[k]];
        forall i | 0 <= i < MAX_OPTIONS
          ensures counts[i] == |Where(rows[..k + 1], LiveFor(e, i))|
        {
          WhereAppend(rows[..k], rows[k], LiveFor(e, i));
        }
      }
      assert rows[..|rows|] == rows;
    }

    /** run_get_hashes: at most sixty-four live rows. */
    method RunGetHashes(conn: Connection, e: Id) returns (r: Code, reply: Reply)
      modifies this`clock
      ensures Ran(oracle, old(clock), conn.view, e, GetHashes, r, conn.view, reply, clock)
    {
      hide IdSeq, Where;
      reply := Nothing;
      var rows := Where(conn.view.ballots, LiveIn(e));
      r := Statement();
      if r != Ok {
        return;
      }
      var listed := [];
      while |listed| < |rows| && |listed| < MAX_VOTERS
        invariant |listed| <= |rows| && |listed| <= MAX_VOTERS && listed == rows[..|listed|]
        decreases |rows| - |listed|
      {
        listed := listed + [rows[|listed|]];
      }
      assert listed == Take(rows, MAX_VOTERS);
      reply := Hashes(listed);
    }

    /** run_find_hash, run_nonce_seen and run_get_prior_ballot: one select, first row. */
    method RunSelect(conn: Connection, e: Id, c: Cmd) returns (r: Code, reply: Reply)
      requires c.FindHash? || c.NonceSeen? || c.GetPriorBallot?
      modifies this`clock
      ensures Ran(oracle, old(clock), conn.view, e, c, r, conn.view, reply, clock)
    {
      hide IdSeq, Where;
      reply := Nothing;
      r := Statement();
      if r != Ok {
        return;
      }
      match c
      case FindHash(h) => reply := FoundRow(FirstRow(Where(conn.view.ballots, LiveHash(e, h))));
      case NonceSeen(n) => reply := Seen(|Where(conn.view.nonces, NonceIs(e, n))| > 0);
      case GetPriorBallot(cert) => reply := Prior(FirstRow(Where(conn.view.owners, OwnedBy(e, cert))));
    }

    /** run_op */
    method RunOp(conn: Connection, e: Id, c: Cmd) returns (r: Code, reply: Reply)
      modifies conn, this`clock
      ensures Ran(oracle, old(clock), old(conn.view), e, c, r, conn.view, reply, clock)
      ensures !IsWrite(c) ==> conn.view == old(conn.view)
    {
      hide Ran;
      reply := Nothing;
      match c
      case InsertElection(cfg) => r := RunInsertElection(conn, e, cfg);
      case UpdateState(to) => r := RunUpdateState(conn, e, to);
      case AppendBallot(_) => r := RunInsertRow(conn, e, c);
      case MarkSuperseded(h) => r := RunMarkSuperseded(conn, e, h);
      case NonceMark(_) => r := RunInsertRow(conn, e, c);
      case SetOwner(cert, h, v) => r := RunSetOwner(conn, e, cert, h, v);
      case GetElection => r, reply := RunGetElection(conn, e);
      case GetTally => r, reply := RunGetTally(conn, e);
      case GetHashes => r, reply := RunGetHashes(conn, e);
      case FindHash(_) => r, reply := RunSelect(conn, e, c);
      case NonceSeen(_) => r, reply := RunSelect(conn, e, c);
      case GetPriorBallot(_) => r, reply := RunSelect(conn, e, c);
    }

    // ---- db.c: one-shot execution with its own retries ----

    /** one_shot_attempt for a write, behind its connection: begin, the command, then commit or roll back. */
    method WriteOnce(e: Id, c: Cmd) returns (r: Code, reply: Reply)
      requires IsWrite(c) && clock > 0 && oracle(clock - 1) == Good
      modifies this`clock, this`committed
      ensures r == Ok ==>
                var d := Apply(old(committed), e, IdSeq(e), c);
                d.Done? && committed == d.store && reply == d.reply
      ensures r != Ok ==> committed == old(committed)
      ensures (r, clock) == Shot(oracle, old(clock) - 1, JobOf(old(committed), e, c))
    {
      hide Apply, Cost, Steps, IdSeq, IsWrite, Shot;
      reply := Nothing;
      r := Statement();
      if r != Ok {
        WriteRefused(oracle, old(clock) - 1, JobOf(committed, e, c));
        if r != Retry {
          var _ := Statement();
        }
        return;
      }
      WriteShot(oracle, old(clock) - 1, JobOf(committed, e, c));
      var conn := new Connection(committed);
      r, reply := RunOp(conn, e, c);
      if r == Ok {
        r := Statement();
        if r == Ok {
          committed := conn.view;
        }
      } else if r != Retry {
        var _ := Statement();
      }
    }

    /** one_shot_attempt: its own connection; a write is its own transaction. */
    method OneShot(e: Id, c: Cmd) returns (r: Code, reply: Reply)
      modifies this`clock, this`committed
      ensures r == Ok ==>
                var d := Apply(old(committed), e, IdSeq(e), c);
                d.Done? && committed == d.store && reply == d.reply
      ensures r != Ok ==> committed == old(committed)
      ensures (r, clock) == Shot(oracle, old(clock), JobOf(old(committed), e, c))
    {
      hide Apply, Cost, Steps, IdSeq, IsWrite;
      reply := Nothing;
      r := Statement();
      if r != Ok {
        return DbError, reply;
      }
      hide Shot;
      if IsWrite(c) {
        r, reply := WriteOnce(e, c);
      } else {
        ReadShot(oracle, old(clock), JobOf(committed, e, c));
        ReadsKeep(committed, e, c);
        var conn := new Connection(committed);
        r, reply := RunOp(conn, e, c);
      }
    }

    /** db_exec without an open transaction: three tries, and an abort never gets out. */
    method DbExec(e: Id, c: Cmd) returns (r: Code, reply: Reply)
      requires txn == null
      modifies this`clock, this`committed
      ensures r == Ok ==>
                var d := Apply(old(committed), e, IdSeq(e), c);
                d.Done? && committed == d.store && reply == d.reply
      ensures r != Ok ==> r == DbError && committed == old(committed)
      ensures clock >= old(clock)
      ensures (r, clock) == Shots(oracle, old(clock), JobOf(old(committed), e, c), SELF_RETRY_ATTEMPTS)
      ensures Calm(oracle, old(clock)) ==> (r == Ok <==> Apply(old(committed), e, IdSeq(e), c).Done?)
    {
      hide Apply, IdSeq, Cost, Shot;
      ghost var j := JobOf(committed, e, c);
      CalmShots(oracle, clock, j);
      reply := Nothing;
      for attempt := 0 to SELF_RETRY_ATTEMPTS
        invariant Shots(oracle, clock, j, SELF_RETRY_ATTEMPTS - attempt) == Shots(oracle, old(clock), j, SELF_RETRY_ATTEMPTS)
        invariant committed == old(committed) && clock >= old(clock)
      {
        ShotCodes(oracle, clock, j);
        r, reply := OneShot(e, c);
        if r != Retry {
          return;
        }
      }
      return DbError, reply;
    }

    // ---- txn.c ----

    /** bb_db_begin */
    method Begin() returns (r: Code)
      modifies this`clock, this`txn
      ensures old(txn) != null ==> r == DbError && clock == old(clock) && txn == old(txn)
      ensures old(txn) == null ==>
                && (oracle(old(clock)) != Good ==> r == DbError && clock == old(clock) + 1)
                && (oracle(old(clock)) == Good ==> r == CodeOf(oracle(old(clock) + 1)) && clock == old(clock) + 2)
                && (r == Ok ==> txn != null && fresh(txn) && txn.view == committed)
                && (r != Ok ==> txn == null)
    {
      if txn != null {
        return DbError;
      }
      r := Statement();
      if r != Ok {
        return DbError;
      }
      r := Statement();
      if r != Ok {
        return;
      }
      txn := new Connection(committed);
    }

    /** bb_db_commit: the working copy becomes the store only if the commit answers ok. */
    method Commit() returns (r: Code)
      modifies this`clock, this`txn, this`committed
      ensures txn == null
      ensures old(txn) == null ==> r == DbError && clock == old(clock) && committed == old(committed)
      ensures old(txn) != null ==>
                && r == CodeOf(oracle(old(clock))) && clock == old(clock) + 1
                && committed == if r == Ok then old(txn.view) else old(committed)
    {
      if txn == null {
        return DbError;
      }
      r := Statement();
      if r == Ok {
        committed := txn.view;
      }
      txn := null;
    }

    /** bb_db_rollback */
    method Rollback()
      modifies this`clock, this`txn
      ensures txn == null
      ensures clock == if old(txn) == null then old(clock) else old(clock) + 1
    {
      if txn == null {
        return;
      }
      var _ := Statement();
      txn := null;
    }

    // ---- handlers.c: recording a ballot ----

    /** bb_check_eligibility */
    method CheckEligibility(names: seq<string>, cert: string) returns (eligible: bool)
      ensures eligible <==> cert in names
    {
      for i := 0 to |names|
        invariant cert !in names[..i]
      {
        if names[i] == cert {
          return true;
        }
        assert names[..i + 1] == names[..i] + [names[i]];
      }
      assert names[..|names|] == names;
      return false;
    }

    /** The opening of record_ballot_locked: load the election, then every check but the replay one. */
    method CheckBallot(e: Id, b: Ballot) returns (r: Code)
      requires txn != null
      modifies txn, this`clock
      ensures var (c, t) := Steps(oracle, old(clock), LoadCost(old(txn.view), e));
              && clock == t
              && r == (if c != Ok then c else Precheck(old(txn.view), e, b))
              && txn.view == old(txn.view)
    {
      hide IdSeq, Steps, Apply, Cost, Load;
      ReadEffects(txn.view, e, b);
      var reply: Reply;
      r, reply := RunOp(txn, e, GetElection);
      if r != Ok {
        return;
      }
      if reply.election.None? {
        return NotFound;
      }
      var el := reply.election.value;
      if el.state == Closed || el.state == Published {
        return ElectionClosed;
      }
      if el.state != Open {
        return NotOpen;
      }
      var eligible := CheckEligibility(el.eligible, b.cert);
      if !eligible {
        return NotEligible;
      }
      var option := OptionOf(b.payload);
      if option < 0 || option >= |el.options| {
        return BadOption;
      }
    }

    /** record_ballot_locked, inside the open transaction: every db_exec runs on its connection. */
    method RecordLocked(e: Id, b: Ballot) returns (r: Code, receipt: string)
      requires txn != null
      modifies txn, this`clock
      ensures Follows(oracle, old(clock), Decide(old(txn.view), e, b), 0, r, txn.view, receipt, clock)
    {
      hide IdSeq, Steps, Apply, Cost, Recorded, Decide, Precheck, LoadCost, Follows;
      receipt := "";
      ghost var s, t := txn.view, clock;
      r := CheckBallot(e, b);
      if r != Ok {
        FollowsCheck(oracle, t, s, e, b, r, txn.view, receipt, clock);
        return;
      }
      ReadEffects(s, e, b);
      var reply: Reply;
      r, reply := RunOp(txn, e, NonceSeen(b.nonce));
      if r != Ok || reply.seen {
        r := if r != Ok then r else Replay;
        FollowsReplay(oracle, t, s, e, b, r, txn.view, receipt, clock);
        return;
      }
      r, receipt := WriteBallot(e, b);
      FollowsWrite(oracle, t, s, e, b, r, txn.view, receipt, clock);
    }

    /** The prior-ballot read, the receipt, and the four writes. */
    method WriteBallot(e: Id, b: Ballot) returns (r: Code, receipt: string)
      requires txn != null
      modifies txn, this`clock
      ensures Follows(oracle, old(clock), Recorded(old(txn.view), e, b), 4, r, txn.view, receipt, clock)
    {
      hide IdSeq, Steps, Apply, Cost, Recorded, Follows, Receipts.HashOf, Where, Staged;
      receipt := "";
      ghost var s, t := txn.view, clock;
      var reply: Reply;
      ReadEffects(s, e, b);
      r, reply := RunOp(txn, e, GetPriorBallot(b.cert));
      if r != Ok {
        FollowsPrior(oracle, t, s, e, b, r, txn.view, receipt, clock);
        return;
      }
      var prior := reply.owner;
      var version := if prior.Some? then prior.value.version + 1 else 1;
      receipt := Receipts.HashOf(b.nonce, version);
      var row := BallotRow(e, receipt, OptionOf(b.payload), version, false);
      r := StageBallot(e, row, prior);
      if r != Ok {
        FollowsStage(oracle, t, s, e, b, r, txn.view, receipt, clock);
        return;
      }
      r := CloseRecord(e, b, receipt, version);
      FollowsClose(oracle, t, s, e, b, r, txn.view, receipt, clock);
    }

    /** Append the new row and supersede the prior one. */
    method StageBallot(e: Id, row: BallotRow, prior: Option<OwnerRow>) returns (r: Code)
      requires txn != null
      modifies txn, this`clock
      ensures var (store, n) := Staged(old(txn.view), e, row, prior);
              var (c, t) := Steps(oracle, old(clock), n);
              && clock == t
              && r == (if c != Ok then c else if store.None? then DbError else Ok)
              && (r == Ok ==> Some(txn.view) == store)
    {
      hide IdSeq, Steps, Apply, Cost, Superseded;
      ghost var s, t := txn.view, clock;
      ghost var n := Staged(s, e, row, prior).1;
      WriteEffects(s, e, Ballot("", "", []), row.hash, row.option, row.version, "", row);
      var reply: Reply;
      r, reply := RunOp(txn, e, AppendBallot(row));
      Progress(oracle, t, 0, 1, n);
      if r != Ok || prior.None? {
        return;
      }
      WriteEffects(txn.view, e, Ballot("", "", []), "", 0, 0, prior.value.hash, row);
      r, reply := RunOp(txn, e, MarkSuperseded(prior.value.hash));
      Progress(oracle, t, 1, n - 1, n);
    }

    /** Point the owner record at the new ballot and consume the nonce. */
    method CloseRecord(e: Id, b: Ballot, h: string, version: int) returns (r: Code)
      requires txn != null
      modifies txn, this`clock
      ensures var (c, t) := Steps(oracle, old(clock), 3);
              && clock == t && r == c
              && (r == Ok ==> txn.view == Finished(old(txn.view), e, b, h, version))
    {
      hide IdSeq, Steps, Apply, Cost, OwnerSet;
      ghost var s, t := txn.view, clock;
      var reply: Reply;
      WriteEffects(s, e, b, h, 0, version, "", BallotRow(e, h, 0, version, false));
      r, reply := RunOp(txn, e, SetOwner(b.cert, h, version));
      Progress(oracle, t, 0, 2, 3);
      if r != Ok {
        return;
      }
      WriteEffects(txn.view, e, b, h, 0, version, "", BallotRow(e, h, 0, version, false));
      r, reply := RunOp(txn, e, NonceMark(b.nonce));
      Progress(oracle, t, 2, 1, 3);
    }

    /** bb_record_ballot: at most three whole attempts. The result and the time follow Attempts, the
        store changes exactly on BB_OK, and no transaction is left open. */
    method RecordBallot(e: Id, b: Ballot) returns (r: Code, receipt: string)
      modifies this
      ensures old(txn) != null ==> r == DbError && committed == old(committed) && txn == old(txn)
      ensures old(txn) == null ==>
                var d := Decide(old(committed), e, b);
                && (r, clock) == Attempts(oracle, old(clock), d, TXN_ATTEMPTS)
                && txn == null
                && (r == Ok ==> d.Accept? && committed == d.store && receipt == d.hash)
                && (r != Ok ==> committed == old(committed))
    {
      hide Decide, Attempts, Attempt;
      ghost var d := Decide(committed, e, b);
      r, receipt := DbError, "";
      for attempt := 0 to TXN_ATTEMPTS
        invariant committed == old(committed) && txn == old(txn)
        invariant attempt == 0 ==> clock == old(clock)
        invariant attempt > 0 ==> r == Retry && txn == null
        invariant old(txn) == null ==>
                    Attempts(oracle, clock, d, TXN_ATTEMPTS - attempt) == Attempts(oracle, old(clock), d, TXN_ATTEMPTS)
      {
        AttemptsUnfold(oracle, clock, d, TXN_ATTEMPTS - attempt);
        var redo;
        r, receipt, redo := TryRecord(e, b);
        if !redo {
          return;
        }
      }
      AttemptsUnfold(oracle, clock, d, 1);
    }

    /** The loop's body, one whole attempt: redo means the store aborted it. */
    method TryRecord(e: Id, b: Ballot) returns (r: Code, receipt: string, redo: bool)
      modifies this
      ensures old(txn) != null ==> r == DbError && !redo && committed == old(committed) && txn == old(txn)
      ensures old(txn) == null ==>
                var d := Decide(old(committed), e, b);
                && txn == null
                && Attempt(oracle, old(clock), d) == (if redo then Redo(clock) else Final(r, clock))
                && (redo ==> r == Retry)
                && (r == Ok ==> d.Accept? && committed == d.store && receipt == d.hash)
                && (r != Ok ==> committed == old(committed))
    {
      hide Decide, Steps;
      DecideNeverOk(committed, e, b);
      r, receipt, redo := DbError, "", false;
      r := Begin();
      if r != Ok {
        return;
      }
      r, receipt := RecordLocked(e, b);
      if r != Ok {
        Rollback();
        redo := r == Retry;
        return;
      }
      r := Commit();
      redo := r == Retry;
    }

    // ---- handlers.c and lifecycle.c: the one-shot handlers ----

    /** load_election */
    method LoadElection(e: Id) returns (r: Code, el: Option<Election>)
      requires txn == null
      modifies this`clock, this`committed
      ensures committed == old(committed) && clock >= old(clock)
      ensures (r == DbError && el == None) ||
              (el == Load(committed, e) && r == (if el.Some? then Ok else NotFound))
      ensures Calm(oracle, old(clock)) ==> r != DbError
    {
      hide IdSeq, Load;
      var reply;
      r, reply := DbExec(e, GetElection);
      if r != Ok {
        return r, None;
      }
      el := reply.election;
      r := if el.None? then NotFound else Ok;
    }

    /** bb_transition_state: a read and a write, each its own call; only serialisation makes it safe. */
    method TransitionState(e: Id, to: State) returns (r: Code)
      requires txn == null
      modifies this`clock, this`committed
      ensures (r == DbError && committed == old(committed)) || (r, committed) == Transition(old(committed), e, to)
      ensures Calm(oracle, old(clock)) ==> (r, committed) == Transition(old(committed), e, to)
    {
      hide IdSeq, Load, StateChanged;
      var el;
      r, el := LoadElection(e);
      if r != Ok {
        return;
      }
      if !Legal(el.value.state, to) {
        return IllegalTransition;
      }
      var reply;
      r, reply := DbExec(e, UpdateState(to));
    }

    /** bb_alloc_id: a plain select; when it does not answer, the first id. */
    method AllocateId() returns (id: Id, ghost readOk: bool)
      modifies this`clock
      ensures id == AllocId(committed.elections, readOk) && clock >= old(clock)
      ensures Calm(oracle, old(clock)) ==> readOk
    {
      var number := 100;
      readOk := false;
      var connected := Statement();
      if connected == Ok {
        var read := Statement();
        if read == Ok {
          readOk := true;
          if committed.elections != [] {
            var top := MaxSeq(committed.elections);
            if top >= 0 {
              number := ToInt32(top + 1);
            }
          }
        }
      }
      id := AutoId(number);
    }

    /** bb_create_election */
    method CreateElection(c: Config, desired: Id) returns (r: Code, id: Id, ghost readOk: bool)
      requires txn == null
      modifies this`clock, this`committed
      ensures (r == DbError && committed == old(committed)) || (r, committed) == Created(old(committed), c, desired, readOk)
      ensures r == Ok ==> ChosenId(old(committed), desired, readOk) == Some(id)
      ensures Calm(oracle, old(clock)) ==> readOk && (r, committed) == Created(old(committed), c, desired, readOk)
    {
      hide IdSeq, Load, AllocId, Inserted, StorableConfig;
      id, readOk := "", true;
      r := Validate(c);
      if r != Ok {
        return;
      }
      if desired != "" {
        var existing;
        r, existing := LoadElection(desired);
        if r == Ok {
          return ConfigIdTaken, id, readOk;
        }
        if r != NotFound {
          return;
        }
        id := desired;
      } else {
        id, readOk := AllocateId();
      }
      var reply;
      r, reply := DbExec(id, InsertElection(c));
    }

    /** bb_join: what the voter is told, including whether the store already holds their ballot. */
    method Join(e: Id, cert: string) returns (r: Code, el: Option<Election>, hasBallot: bool, version: int)
      requires txn == null
      modifies this`clock, this`committed
      ensures committed == old(committed)
      ensures r == DbError || (r, el, hasBallot, version) == Joined(committed, e, cert)
      ensures Calm(oracle, old(clock)) ==> (r, el, hasBallot, version) == Joined(committed, e, cert)
    {
      hide IdSeq, Load, Where;
      el, hasBallot, version := None, false, 0;
      var loaded;
      r, loaded := LoadElection(e);
      if r != Ok {
        return;
      }
      if cert == "" {
        return CertInvalid, el, hasBallot, version;
      }
      var eligible := CheckEligibility(loaded.value.eligible, cert);
      if !eligible {
        return NotEligible, el, hasBallot, version;
      }
      if loaded.value.state != Open {
        return NotOpen, el, hasBallot, version;
      }
      var reply;
      r, reply := DbExec(e, GetPriorBallot(cert));
      if r != Ok {
        return;
      }
      el := loaded;
      hasBallot := reply.owner.Some?;
      version := if reply.owner.Some? then reply.owner.value.version else 0;
    }

    /** bb_get_results (some voter) and bb_get_results_admin (no voter): both gates before any read. */
    method GetResults(e: Id, cert: Option<string>) returns (r: Code, out: Option<Results>)
      requires txn == null
      modifies this`clock, this`committed
      ensures committed == old(committed)
      ensures (r == DbError && out == None) || (r, out) == Answered(committed, e, cert)
      ensures Calm(oracle, old(clock)) ==> (r, out) == Answered(committed, e, cert)
    {
      hide IdSeq, Load, Where, TallyOf;
      out := None;
      var loaded;
      r, loaded := LoadElection(e);
      if r != Ok {
        return;
      }
      var el := loaded.value;
      if el.state != Published {
        return NotPublished, out;
      }
      if cert.Some? {
        var eligible := CheckEligibility(el.eligible, cert.value);
        if !eligible {
          return NotEligible, out;
        }
      }
      var tally, hashes;
      r, tally := DbExec(e, GetTally);
      if r != Ok {
        return;
      }
      r, hashes := DbExec(e, GetHashes);
      if r != Ok {
        return;
      }
      out := Some(Results(el.title, el.options, Take(tally.counts, |el.options|), hashes.rows));
    }

    /** bb_lookup_hash: never gated on the election's state. */
    method LookupHash(e: Id, h: string) returns (r: Code, row: Option<BallotRow>, name: string)
      requires txn == null
      modifies this`clock, this`committed
      ensures committed == old(committed)
      ensures r == DbError || (r, row, name) == Checked(committed, e, h)
      ensures Calm(oracle, old(clock)) ==> (r, row, name) == Checked(committed, e, h)
    {
      hide IdSeq, Load, Where;
      row, name := None, "";
      var loaded;
      r, loaded := LoadElection(e);
      if r != Ok {
        return;
      }
      var reply;
      r, reply := DbExec(e, FindHash(h));
      if r != Ok {
        return;
      }
      if reply.row.None? {
        return NotFound, row, name;
      }
      row := reply.row;
      var i := row.value.option;
      if 0 <= i < |loaded.value.options| {
        name := loaded.value.options[i];
      }
    }

    // ---- ballotd: dispatch, one request at a time ----

    /** ballotd_dispatch: exactly one handler per request. `ev` is the store event it amounted to. */
    method Dispatch(req: Request) returns (resp: Response, ghost ev: Option<Event>)
      requires txn == null
      modifies this
      ensures txn == null
      ensures ev.None? ==> committed == old(committed)
      ensures ev.Some? ==> committed == Next(old(committed), ev.value) && Matches(req, ev.value)
      ensures Truthful(old(committed), committed, req, resp)
      ensures Calm(oracle, old(clock)) ==>
                && (req.ReqNextId? ==> resp.id == AllocId(committed.elections, true))
                && (req.ReqCreate? && resp.status == Ok ==>
                      ChosenId(old(committed), req.desired, true) == Some(resp.id))
    {
      hide IdSeq, Load, Where, Decide, Attempts, Created, Transition, Answered, Checked, Joined, ChosenId, AllocId;
      ev := None;
      resp := Response(Ok, "", None, None, None, "", "", false, 0);
      match req
      case ReqCreate(c, desired) =>
        ghost var readOk;
        var status, id;
        status, id, readOk := CreateElection(c, desired);
        RefusedCreationKeeps(old(committed), c, desired, readOk);
        resp := resp.(status := status, id := if status == Ok then id else "");
        ev := if committed == old(committed) then None else Some(Create(c, desired, readOk));
      case ReqNextId =>
        ghost var readOk;
        var id;
        id, readOk := AllocateId();
        resp := resp.(id := id);
      case ReqMove(e, to) =>
        var status := TransitionState(e, to);
        resp := resp.(status := status);
        ev := if committed == old(committed) then None else Some(Move(e, to));
      case ReqJoin(e, cert) =>
        var status, el, has, v := Join(e, cert);
        resp := resp.(status := status, election := el, hasBallot := has, version := v);
      case ReqRecord(e, b) =>
        var status, receipt := RecordBallot(e, b);
        resp := resp.(status := status, receipt := receipt);
        ev := if status == Ok then Some(Record(e, b)) else None;
      case ReqResults(e, cert) =>
        var status, out := GetResults(e, cert);
        resp := resp.(status := status, results := out);
      case ReqCheck(e, h) =>
        var status, row, name := LookupHash(e, h);
        resp := resp.(status := status, row := row, optionName := name);
    }

    /** The admin thread: requests are served one after another, so whatever the schedule of faults,
        the store is always the result of a run of events, at most one for each request and in their
        order. */
    method Serve(reqs: seq<Request>) returns (ghost evs: seq<Event>)
      requires txn == null
      modifies this
      ensures txn == null && committed == Run(old(committed), evs) && EventsOf(reqs, evs)
      ensures Inv(old(committed)) && TrustedRun(old(committed), evs) ==> Inv(committed)
    {
      hide Inv, TrustedRun, Next, Decide, Truthful, Matches;
      evs := [];
      for i := 0 to |reqs|
        invariant txn == null && committed == Run(old(committed), evs)
        invariant EventsOf(reqs[..i], evs)
      {
        var resp;
        ghost var ev;
        ghost var before := evs;
        resp, ev := Dispatch(reqs[i]);
        assert reqs[..i + 1][..i] == reqs[..i];
        if ev.Some? {
          evs := before + [ev.value];
          assert evs[..|evs| - 1] == before;
          RunAppend(old(committed), before, ev.value);
        }
      }
      assert reqs[..|reqs|] == reqs;
      if Inv(old(committed)) && TrustedRun(old(committed), evs) {
        RunKeeps(old(committed), evs);
      }
    }
  }

  /** The events are those of some of the requests, in order, each matching its own. */
  ghost predicate EventsOf(reqs: seq<Request>, evs: seq<Event>)
    decreases |reqs|
  {
    if reqs == [] then evs == []
    else
      var earlier, last := reqs[..|reqs| - 1], reqs[|reqs| - 1];
      || EventsOf(earlier, evs)
      || (evs != [] && Matches(last, evs[|evs| - 1]) && EventsOf(earlier, evs[..|evs| - 1]))
  }

  /** A decoded request, and what its answer carries. CAST and UPDATE are one and the same here. */
  datatype Request =
    | ReqCreate(config: Config, desired: Id)
    | ReqNextId
    | ReqMove(election: Id, to: State)
    | ReqJoin(election: Id, cert: string)
    | ReqRecord(election: Id, ballot: Ballot)
    | ReqResults(election: Id, voter: Option<string>)
    | ReqCheck(election: Id, hash: string)

  datatype Response = Response(
    status: Code, id: Id, election: Option<Election>, results: Option<Results>, row: Option<BallotRow>,
    optionName: string, receipt: string, hasBallot: bool, version: int)

  /** What an answer says is so of the store it was taken from, and of the store it left. */
  ghost predicate Truthful(s: Store, t: Store, req: Request, resp: Response) {
    match req
    case ReqCreate(c, desired) =>
      if resp.status == Ok then
        exists readOk :: ChosenId(s, desired, readOk) == Some(resp.id) && t == Created(s, c, desired, readOk).1
      else t == s && resp.id == ""
    case ReqNextId =>
      t == s && resp.status == Ok && exists readOk :: resp.id == AllocId(s.elections, readOk)
    case ReqMove(e, to) =>
      (resp.status == DbError && t == s) || (resp.status, t) == Transition(s, e, to)
    case ReqJoin(e, cert) =>
      t == s && (resp.status == DbError
                 || (resp.status, resp.election, resp.hasBallot, resp.version) == Joined(s, e, cert))
    case ReqRecord(e, b) =>
      if resp.status == Ok then
        var d := Decide(s, e, b); d.Accept? && t == d.store && resp.receipt == d.hash
      else t == s
    case ReqResults(e, voter) =>
      t == s && ((resp.status == DbError && resp.results == None)
                 || (resp.status, resp.results) == Answered(s, e, voter))
    case ReqCheck(e, h) =>
      t == s && (resp.status == DbError || (resp.status, resp.row, resp.optionName) == Checked(s, e, h))
  }

  lemma RefusedCreationKeeps(s: Store, c: Config, desired: Id, readOk: bool)
    ensures Created(s, c, desired, readOk).0 != Ok ==> Created(s, c, desired, readOk).1 == s
  {
    hide ChosenId, Validate, Inserted;
  }

  ghost predicate Matches(req: Request, ev: Event) {
    match ev
    case Create(c, d, _) => req == ReqCreate(c, d)
    case Move(e, to) => req == ReqMove(e, to)
    case Record(e, b) => req == ReqRecord(e, b)
  }

  lemma {:induction false} RunAppend(s: Store, evs: seq<Event>, ev: Event)
    ensures Run(s, evs + [ev]) == Next(Run(s, evs), ev)
    decreases |evs|
  {
    hide Next;
    if evs == [] {
      assert [ev][1..] == [];
    } else {
      assert (evs + [ev])[1..] == evs[1..] + [ev];
      RunAppend(Next(s, evs[0]), evs[1..], ev);
    }
  }

  /** bb_join's fault-free answer. */
  function Joined(s: Store, e: Id, cert: string): (Code, Option<Election>, bool, int) {
    match Load(s, e)
    case None => (NotFound, None, false, 0)
    case Some(el) =>
      if cert == "" then (CertInvalid, None, false, 0)
      else if cert !in el.eligible then (NotEligible, None, false, 0)
      else if el.state != Open then (NotOpen, None, false, 0)
      else
        match FirstRow(Where(s.owners, OwnedBy(e, cert)))
        case None => (Ok, Some(el), false, 0)
        case Some(o) => (Ok, Some(el), true, o.version)
  }

  /** The results handlers' fault-free answer. */
  function Answered(s: Store, e: Id, cert: Option<string>): (Code, Option<Results>) {
    match Load(s, e)
    case None => (NotFound, None)
    case Some(el) =>
      if el.state != Published then (NotPublished, None)
      else if cert.Some? && cert.value !in el.eligible then (NotEligible, None)
      else (Ok, Some(ResultsOf(s, e, el)))
  }

  /** bb_lookup_hash's fault-free answer. */
  function Checked(s: Store, e: Id, h: string): (Code, Option<BallotRow>, string) {
    match Load(s, e)
    case None => (NotFound, None, "")
    case Some(el) =>
      match Lookup(s, e, h)
      case None => (NotFound, None, "")
      case Some(row) => (Ok, Some(row), if 0 <= row.option < |el.options| then el.options[row.option] else "")
  }

  /** Recording takes at least seven statements, four of them before the first write. */
  lemma RecordedCost(s: Store, e: Id, b: Ballot)
    ensures Recorded(s, e, b).statements >= 7
  {
    hide Where, Receipts.HashOf;
  }

  /** The three reads of a recording: what they cost and answer. */
  lemma ReadEffects(s: Store, e: Id, b: Ballot)
    ensures Cost(s, e, GetElection) == (if Load(s, e).None? then 1 else 3)
    ensures Apply(s, e, IdSeq(e), GetElection) == Done(s, Found(Load(s, e)))
    ensures Cost(s, e, NonceSeen(b.nonce)) == 1 == Cost(s, e, GetPriorBallot(b.cert))
    ensures Apply(s, e, IdSeq(e), NonceSeen(b.nonce)) == Done(s, Seen(Where(s.nonces, NonceIs(e, b.nonce)) != []))
    ensures Apply(s, e, IdSeq(e), GetPriorBallot(b.cert)) == Done(s, Prior(FirstRow(Where(s.owners, OwnedBy(e, b.cert)))))
  {
    hide IdSeq, Where;
  }

  /** Its four writes. */
  lemma WriteEffects(s: Store, e: Id, b: Ballot, h: string, option: int, version: int, prior: string, row: BallotRow)
    ensures Cost(s, e, AppendBallot(row)) == 1
    ensures Apply(s, e, IdSeq(e), AppendBallot(row)) == Done(s.(ballots := s.ballots + [row]), Nothing)
    ensures var c := SetOwner(b.cert, h, version);
            Cost(s, e, c) == 2 && Apply(s, e, IdSeq(e), c) == Done(OwnerSet(s, e, b.cert, h, version), Nothing)
    ensures var c := NonceMark(b.nonce);
            Cost(s, e, c) == 1 && Apply(s, e, IdSeq(e), c) == Done(s.(nonces := s.nonces + [NonceRow(e, b.nonce)]), Nothing)
    ensures var c, m := MarkSuperseded(prior), Superseded(s, e, prior);
            && Cost(s, e, c) == (if m.None? then 1 else 3)
            && Apply(s, e, IdSeq(e), c) == if m.None? then Broken else Done(m.value, Nothing)
  {
    hide IdSeq, Where;
  }

  // ---- the decision, cut where the method pauses ----

  function LoadCost(s: Store, e: Id): nat {
    if Load(s, e).None? then 1 else 3
  }

  /** The checks before the replay check: Ok or the refusal. */
  function Precheck(s: Store, e: Id, b: Ballot): Code {
    match Load(s, e)
    case None => NotFound
    case Some(el) =>
      if el.state == Closed || el.state == Published then ElectionClosed
      else if el.state != Open then NotOpen
      else if b.cert !in el.eligible then NotEligible
      else if !(0 <= OptionOf(b.payload) < |el.options|) then BadOption
      else Ok
  }

  lemma DecideInParts(s: Store, e: Id, b: Ballot)
    ensures Precheck(s, e, b) != Ok ==> Decide(s, e, b) == Refuse(Precheck(s, e, b), LoadCost(s, e))
    ensures Precheck(s, e, b) == Ok ==>
              && LoadCost(s, e) == 3
              && Decide(s, e, b) == if Where(s.nonces, NonceIs(e, b.nonce)) != [] then Refuse(Replay, 4) else Recorded(s, e, b)
  {
    hide Load, Recorded, Where;
  }

  /** The store after appending and superseding, None when there is nothing to supersede, and the cost. */
  function Staged(s: Store, e: Id, row: BallotRow, prior: Option<OwnerRow>): (Option<Store>, nat) {
    var appended := s.(ballots := s.ballots + [row]);
    match prior
    case None => (Some(appended), 1)
    case Some(o) =>
      var marked := Superseded(appended, e, o.hash);
      (marked, if marked.None? then 2 else 4)
  }

  lemma RecordedInParts(s: Store, e: Id, b: Ballot)
    ensures var prior := FirstRow(Where(s.owners, OwnedBy(e, b.cert)));
            var v := if prior.Some? then prior.value.version + 1 else 1;
            var h := Receipts.HashOf(b.nonce, v);
            var (store, n) := Staged(s, e, BallotRow(e, h, OptionOf(b.payload), v, false), prior);
            Recorded(s, e, b) == match store
                                 case None => Refuse(DbError, 5 + n)
                                 case Some(t) => Accept(Finished(t, e, b, h, v), h, 8 + n)
  {
    hide Where, Receipts.HashOf, Superseded, OwnerSet;
  }

  /** Running the statements of decision `d` after the first k: the first fault's code, or d's outcome. */
  ghost predicate Follows(o: Schedule, t: nat, d: Decision, k: nat, r: Code, view: Store, receipt: string, u: nat) {
    && d.statements >= k
    && var (c, time) := Steps(o, t, d.statements - k);
       && u == time
       && (c != Ok ==> r == c)
       && (c == Ok && d.Refuse? ==> r == d.code)
       && (c == Ok && d.Accept? ==> r == Ok && view == d.store && receipt == d.hash)
  }

  lemma FollowsCheck(o: Schedule, t: nat, s: Store, e: Id, b: Ballot, r: Code, view: Store, receipt: string, u: nat)
    requires var (c, time) := Steps(o, t, LoadCost(s, e));
             u == time && r == (if c != Ok then c else Precheck(s, e, b)) && r != Ok
    ensures Follows(o, t, Decide(s, e, b), 0, r, view, receipt, u)
  {
    hide Steps, Recorded, Decide, Precheck, LoadCost, Where;
    DecideInParts(s, e, b);
    RecordedCost(s, e, b);
    Progress(o, t, 0, LoadCost(s, e), Decide(s, e, b).statements);
  }

  lemma FollowsReplay(o: Schedule, t: nat, s: Store, e: Id, b: Ballot, r: Code, view: Store, receipt: string, u: nat)
    requires Precheck(s, e, b) == Ok && Steps(o, t, LoadCost(s, e)).0 == Ok
    requires var (c, time) := Steps(o, t + LoadCost(s, e), 1);
             && u == time
             && (c != Ok ==> r == c)
             && (c == Ok ==> Where(s.nonces, NonceIs(e, b.nonce)) != [] && r == Replay)
    ensures Follows(o, t, Decide(s, e, b), 0, r, view, receipt, u)
  {
    hide Steps, Recorded, Decide, Precheck, LoadCost, Where;
    DecideInParts(s, e, b);
    RecordedCost(s, e, b);
    Progress(o, t, 3, 1, Decide(s, e, b).statements);
  }

  lemma FollowsWrite(o: Schedule, t: nat, s: Store, e: Id, b: Ballot, r: Code, view: Store, receipt: string, u: nat)
    requires Precheck(s, e, b) == Ok && Steps(o, t, LoadCost(s, e)).0 == Ok && Steps(o, t + LoadCost(s, e), 1).0 == Ok
    requires Where(s.nonces, NonceIs(e, b.nonce)) == []
    requires Follows(o, t + LoadCost(s, e) + 1, Recorded(s, e, b), 4, r, view, receipt, u)
    ensures Follows(o, t, Decide(s, e, b), 0, r, view, receipt, u)
  {
    hide Steps, Recorded, Decide, Precheck, LoadCost, Where;
    DecideInParts(s, e, b);
    var n := Recorded(s, e, b).statements;
    Progress(o, t, 3, 1, n);
    Progress(o, t, 4, n - 4, n);
  }

  lemma FollowsPrior(o: Schedule, t: nat, s: Store, e: Id, b: Ballot, r: Code, view: Store, receipt: string, u: nat)
    requires Steps(o, t, 1) == (r, u) && r != Ok
    ensures Follows(o, t, Recorded(s, e, b), 4, r, view, receipt, u)
  {
    hide Steps, Recorded, Where;
    RecordedCost(s, e, b);
    Progress(o, t, 0, 1, Recorded(s, e, b).statements - 4);
  }

  function StageOf(s: Store, e: Id, b: Ballot): (Option<Store>, nat) {
    Staged(s, e, AddedRow(s, e, b), FirstRow(Where(s.owners, OwnedBy(e, b.cert))))
  }

  lemma FollowsStage(o: Schedule, t: nat, s: Store, e: Id, b: Ballot, r: Code, view: Store, receipt: string, u: nat)
    requires Steps(o, t, 1).0 == Ok
    requires var (store, n) := StageOf(s, e, b);
             var (c, time) := Steps(o, t + 1, n);
             u == time && r == (if c != Ok then c else if store.None? then DbError else Ok) && r != Ok
    ensures Follows(o, t, Recorded(s, e, b), 4, r, view, receipt, u)
  {
    hide Steps, Recorded, Where, Receipts.HashOf, Staged, Finished;
    RecordedInParts(s, e, b);
    var n := StageOf(s, e, b).1;
    Progress(o, t, 1, n, Recorded(s, e, b).statements - 4);
  }

  lemma FollowsClose(o: Schedule, t: nat, s: Store, e: Id, b: Ballot, r: Code, view: Store, receipt: string, u: nat)
    requires var (store, n) := StageOf(s, e, b);
             && Steps(o, t, 1).0 == Ok && Steps(o, t + 1, n).0 == Ok && store.Some?
             && Steps(o, t + 1 + n, 3) == (r, u) && receipt == AddedRow(s, e, b).hash
             && (r == Ok ==> view == Finished(store.value, e, b, receipt, AddedRow(s, e, b).version))
    ensures Follows(o, t, Recorded(s, e, b), 4, r, view, receipt, u)
  {
    hide Steps, Recorded, Where, Receipts.HashOf, Staged, Finished;
    RecordedInParts(s, e, b);
    var n := StageOf(s, e, b).1;
    Progress(o, t, 1, n, 4 + n);
    Progress(o, t, 1 + n, 3, 4 + n);
  }

  /** A refusal carries a real refusal code. */
  lemma DecideNeverOk(s: Store, e: Id, b: Ballot)
    ensures Decide(s, e, b).Refuse? ==> Decide(s, e, b).code != Ok && Decide(s, e, b).code != Retry
  {
    hide Where, Receipts.HashOf, OptionNames, Eligible;
  }

  /** The store answers every statement from time t on. */
  ghost predicate Calm(o: Schedule, t: nat) {
    forall i :: i >= t ==> o(i) == Good
  }

  lemma CalmShots(o: Schedule, t: nat, j: Job)
    ensures Calm(o, t) ==> (Shots(o, t, j, SELF_RETRY_ATTEMPTS).0 == Ok <==> j.works)
  {
    hide Shots, AllGood;
    ShotsWork(o, t, j, SELF_RETRY_ATTEMPTS);
    if Calm(o, t) {
      assert AllGood(o, t, Framed(j) + 1) by {
        CalmSteps(o, t, t, Framed(j) + 1);
        StepsGood(o, t, Framed(j) + 1);
      }
      assert Works(o, t, j, SELF_RETRY_ATTEMPTS, [t]);
    }
  }

  lemma CalmSteps(o: Schedule, t: nat, u: nat, n: nat)
    requires u >= t
    ensures Calm(o, t) ==> Steps(o, u, n).0 == Ok
  {
    StepsGood(o, u, n);
  }

  /** A read hands back the store it was given. */
  lemma ReadsKeep(s: Store, e: Id, c: Cmd)
    ensures !IsWrite(c) && Apply(s, e, IdSeq(e), c).Done? ==> Apply(s, e, IdSeq(e), c).store == s
  {
    hide IdSeq;
  }

  lemma UnsafeStops(names: seq<string>, i: nat)
    requires i <= SafeRun(names) && i < |names| && Unsafe(names[i])
    ensures i == SafeRun(names) && !AllSafe(names)
  {
  }

  lemma SafeGoesOn(names: seq<string>, i: nat)
    requires i <= SafeRun(names) && i < |names| && !Unsafe(names[i])
    ensures i + 1 <= SafeRun(names)
  {
  }
}
