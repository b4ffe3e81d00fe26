/**
 * Schedules of statement outcomes. An adversary decides, for every statement the daemon will ever
 * send, whether the store answers ok, aborts the transaction, or fails
 * (ballotbox/src/libballotbrain/txn.c:13-19, db.c:72-78).
 */
module BallotFaults {
  import opened BallotStore

  datatype Status = Good | Abort | Fail

  /** The outcome of the n-th statement. Opening a connection is a statement too: anything but Good
      is a refused connection. */
  type Schedule = nat -> Status

  /** map_status */
  function CodeOf(st: Status): Code {
    match st
    case Good => Ok
    case Abort => Retry
    case Fail => DbError
  }

  /** Sending n statements from time t, stopping at the first that is not ok: the code reached and
      the time afterwards. */
  function Steps(o: Schedule, t: nat, n: nat): (r: (Code, nat))
    ensures r.0 == Ok || r.0 == Retry || r.0 == DbError
    ensures r.0 == Ok ==> r.1 == t + n
    ensures r.1 >= t
    ensures n == 0 ==> r.0 == Ok
    ensures n == 1 ==> r == (CodeOf(o(t)), t + 1)
    decreases n
  {
    if n == 0 then (Ok, t)
    else if o(t) != Good then (CodeOf(o(t)), t + 1)
    else Steps(o, t + 1, n - 1)
  }

  lemma {:induction false} StepsThen(o: Schedule, t: nat, a: nat, b: nat)
    ensures Steps(o, t, a + b) == if Steps(o, t, a).0 == Ok then Steps(o, t + a, b) else Steps(o, t, a)
    decreases a
  {
    if a > 0 && o(t) == Good {
      StepsThen(o, t + 1, a - 1, b);
    }
  }

  lemma StepsThree(o: Schedule, t: nat)
    ensures Steps(o, t, 3) == if o(t) != Good then (CodeOf(o(t)), t + 1)
                              else if o(t + 1) != Good then (CodeOf(o(t + 1)), t + 2)
                              else (CodeOf(o(t + 2)), t + 3)
  {
    assert Steps(o, t + 1, 2) == if o(t + 1) != Good then (CodeOf(o(t + 1)), t + 2) else Steps(o, t + 2, 1);
  }

  /** One more statement after i good ones out of n. */
  lemma StepsMore(o: Schedule, t: nat, i: nat, n: nat)
    requires Steps(o, t, i).0 == Ok && i < n
    ensures o(t + i) == Good ==> Steps(o, t, i + 1) == (Ok, t + i + 1)
    ensures o(t + i) != Good ==> Steps(o, t, n) == (CodeOf(o(t + i)), t + i + 1)
  {
    StepsThen(o, t, i, 1);
    StepsThen(o, t, i, n - i);
  }

  /** After k good statements out of n, the next c decide: a fault among them is the first fault. */
  lemma Progress(o: Schedule, t: nat, k: nat, c: nat, n: nat)
    requires Steps(o, t, k).0 == Ok && k + c <= n
    ensures Steps(o, t + k, c).0 == Ok ==> Steps(o, t, k + c) == (Ok, t + k + c)
    ensures Steps(o, t + k, c).0 != Ok ==> Steps(o, t, n) == Steps(o, t + k, c)
  {
    StepsThen(o, t, k, c);
    StepsThen(o, t, k + c, n - k - c);
  }

  ghost predicate AllGood(o: Schedule, t: nat, n: nat) {
    forall i :: t <= i < t + n ==> o(i) == Good
  }

  lemma {:induction false} StepsGood(o: Schedule, t: nat, n: nat)
    ensures Steps(o, t, n).0 == Ok <==> AllGood(o, t, n)
    decreases n
  {
    if n > 0 && o(t) == Good {
      StepsGood(o, t + 1, n - 1);
    }
  }

  // ---- bb_record_ballot under a schedule ----

  const TXN_ATTEMPTS := 3

  /** How one attempt at time t ends. */
  datatype Ending = Final(code: Code, time: nat) | Redo(time: nat)

  /** One attempt: connect, begin, the statements the decision takes, then roll back or commit. */
  function Attempt(o: Schedule, t: nat, d: Decision): Ending {
    if o(t) != Good then Final(DbError, t + 1)
    else if o(t + 1) != Good then Final(CodeOf(o(t + 1)), t + 2)
    else
      var (c, u) := Steps(o, t + 2, d.statements);
      if c == Retry then Redo(u + 1)
      else if c != Ok then Final(c, u + 1)
      else if d.Refuse? then (if d.code == Retry then Redo(u + 1) else Final(d.code, u + 1))
      else if o(u) == Abort then Redo(u + 1)
      else Final(CodeOf(o(u)), u + 1)
  }

  /** The whole loop: result code and time afterwards. */
  function Attempts(o: Schedule, t: nat, d: Decision, left: nat): (Code, nat)
    decreases left
  {
    if left == 0 then (Retry, t)
    else
      match Attempt(o, t, d)
      case Final(c, u) => (c, u)
      case Redo(u) => Attempts(o, u, d, left - 1)
  }

  lemma AttemptsUnfold(o: Schedule, t: nat, d: Decision, left: nat)
    requires left > 0
    ensures Attempts(o, t, d, left) == match Attempt(o, t, d)
                                       case Final(c, u) => (c, u)
                                       case Redo(u) => Attempts(o, u, d, left - 1)
    ensures Attempts(o, t, d, 0) == (Retry, t)
  {
  }

  // ---- what the schedule says of an attempt ----

  /** From an attempt that starts at t: connection, begin and k statements are ok and the next, one of
      the decision's own or its commit, is aborted. */
  ghost predicate AbortsAt(o: Schedule, t: nat, d: Decision, k: nat) {
    k < d.statements + (if d.Accept? then 1 else 0) && AllGood(o, t, 2 + k) && o(t + 2 + k) == Abort
  }

  /** The schedule aborts the attempt that starts at t, and the next one starts at u. An aborted
      statement is followed by a rollback; an aborted commit is not. */
  ghost predicate AbortedAttempt(o: Schedule, t: nat, d: Decision, u: nat) {
    exists k: nat :: AbortsAt(o, t, d, k) && u == t + 3 + k + (if k < d.statements then 1 else 0)
  }

  /** The first k statements from t are ok and the next is aborted. */
  ghost predicate FirstAbort(o: Schedule, t: nat, k: nat) {
    AllGood(o, t, k) && o(t + k) == Abort
  }

  lemma {:induction false} StepsAbort(o: Schedule, t: nat, n: nat, k: nat)
    requires FirstAbort(o, t, k) && k < n
    ensures Steps(o, t, n) == (Retry, t + k + 1)
    decreases n
  {
    if k > 0 {
      assert o(t) == Good;
      assert FirstAbort(o, t + 1, k - 1);
      StepsAbort(o, t + 1, n - 1, k - 1);
    } else {
      assert o(t + 0) == o(t);
    }
  }

  lemma {:induction false} AbortFound(o: Schedule, t: nat, n: nat) returns (k: nat)
    requires Steps(o, t, n).0 == Retry
    ensures k < n && FirstAbort(o, t, k) && Steps(o, t, n).1 == t + k + 1
    decreases n
  {
    if o(t) == Good {
      var j := AbortFound(o, t + 1, n - 1);
      k := j + 1;
      assert o(t + k) == o(t + 1 + j);
    } else {
      k := 0;
    }
  }

  /** An attempt is redone exactly when the first statement of it that is not ok is an abort and comes
      behind its begin. */
  lemma RedoneIffAborted(o: Schedule, t: nat, d: Decision, u: nat)
    requires d.Refuse? ==> d.code != Retry
    ensures Attempt(o, t, d) == Redo(u) <==> AbortedAttempt(o, t, d, u)
  {
    hide Steps;
    if AllGood(o, t, 2) {
      assert o(t) == Good && o(t + 1) == Good;
      StepsGood(o, t + 2, d.statements);
      if Attempt(o, t, d) == Redo(u) {
        RedoneIsAborted(o, t, d, u);
      }
      if AbortedAttempt(o, t, d, u) {
        AbortedIsRedone(o, t, d, u);
      }
    } else {
      forall k: nat ensures !AbortsAt(o, t, d, k) {
      }
    }
  }

  lemma RedoneIsAborted(o: Schedule, t: nat, d: Decision, u: nat)
    requires (d.Refuse? ==> d.code != Retry) && o(t) == Good && o(t + 1) == Good && Attempt(o, t, d) == Redo(u)
    ensures AbortedAttempt(o, t, d, u)
  {
    hide Steps;
    var (c, v) := Steps(o, t + 2, d.statements);
    if c == Retry {
      var k := AbortFound(o, t + 2, d.statements);
      assert AbortsAt(o, t, d, k);
    } else {
      StepsGood(o, t + 2, d.statements);
      assert AbortsAt(o, t, d, d.statements);
    }
  }

  lemma AbortedIsRedone(o: Schedule, t: nat, d: Decision, u: nat)
    requires (d.Refuse? ==> d.code != Retry) && AbortedAttempt(o, t, d, u)
    ensures Attempt(o, t, d) == Redo(u)
  {
    hide Steps;
    var k: nat :| AbortsAt(o, t, d, k) && u == t + 3 + k + (if k < d.statements then 1 else 0);
    assert o(t) == Good && o(t + 1) == Good;
    assert FirstAbort(o, t + 2, k);
    if k < d.statements {
      StepsAbort(o, t + 2, d.statements, k);
    } else {
      StepsGood(o, t + 2, d.statements);
    }
  }

  /** Starts of successive attempts, each aborted by the schedule but perhaps the last. */
  ghost predicate Chain(o: Schedule, t: nat, d: Decision, starts: seq<nat>) {
    && starts != [] && starts[0] == t
    && forall i :: 0 <= i < |starts| - 1 ==> AbortedAttempt(o, starts[i], d, starts[i + 1])
  }

  function Last(starts: seq<nat>): nat
    requires starts != []
  {
    starts[|starts| - 1]
  }

  lemma ChainMore(o: Schedule, t: nat, d: Decision, u: nat, starts: seq<nat>)
    requires AbortedAttempt(o, t, d, u) && Chain(o, u, d, starts)
    ensures Chain(o, t, d, [t] + starts) && Last([t] + starts) == Last(starts)
  {
    hide AbortedAttempt;
    var all := [t] + starts;
    forall i | 0 <= i < |all| - 1 ensures AbortedAttempt(o, all[i], d, all[i + 1]) {
      assert i > 0 ==> all[i] == starts[i - 1] && all[i + 1] == starts[i];
    }
  }

  lemma ChainLess(o: Schedule, t: nat, d: Decision, starts: seq<nat>)
    requires Chain(o, t, d, starts) && |starts| > 1
    ensures AbortedAttempt(o, t, d, starts[1]) && Chain(o, starts[1], d, starts[1..])
    ensures Last(starts[1..]) == Last(starts)
  {
    hide AbortedAttempt;
  }

  /** An attempt commits exactly when the ballot is acceptable and all its statements are ok. */
  lemma AttemptCommits(o: Schedule, t: nat, d: Decision)
    requires d.Refuse? ==> d.code != Ok
    ensures (Attempt(o, t, d).Final? && Attempt(o, t, d).code == Ok) <==> d.Accept? && AllGood(o, t, d.statements + 3)
  {
    StepsGood(o, t + 2, d.statements);
    if AllGood(o, t, d.statements + 3) {
      assert o(t) == Good && o(t + 1) == Good && o(t + 2 + d.statements) == Good;
    }
  }

  /** Within `left` attempts one is reached all of whose statements, commit included, are ok. */
  ghost predicate Commits(o: Schedule, t: nat, d: Decision, left: nat, starts: seq<nat>) {
    Chain(o, t, d, starts) && |starts| <= left && AllGood(o, Last(starts), d.statements + 3)
  }

  ghost predicate CanCommit(o: Schedule, t: nat, d: Decision, left: nat) {
    exists starts :: Commits(o, t, d, left, starts)
  }

  /** BB_OK exactly when, after some aborted attempts, one whole attempt ran to its commit. */
  lemma {:induction false} OkIffCommitted(o: Schedule, t: nat, d: Decision, left: nat)
    requires d.Refuse? ==> d.code != Ok && d.code != Retry
    ensures Attempts(o, t, d, left).0 == Ok <==> d.Accept? && CanCommit(o, t, d, left)
    decreases left
  {
    hide Attempt, AbortedAttempt, AllGood;
    if left > 0 {
      AttemptCommits(o, t, d);
      var a := Attempt(o, t, d);
      if a.Redo? {
        RedoneIffAborted(o, t, d, a.time);
        OkIffCommitted(o, a.time, d, left - 1);
      }
      if d.Accept? && Attempts(o, t, d, left).0 == Ok {
        CommitFound(o, t, d, left, a);
      }
      if d.Accept? && CanCommit(o, t, d, left) {
        var starts :| Commits(o, t, d, left, starts);
        if |starts| > 1 {
          ChainLess(o, t, d, starts);
          RedoneIffAborted(o, t, d, starts[1]);
          assert Commits(o, starts[1], d, left - 1, starts[1..]);
        }
      }
    }
  }

  lemma CommitFound(o: Schedule, t: nat, d: Decision, left: nat, a: Ending)
    requires left > 0 && d.Accept? && a == Attempt(o, t, d)
    requires a.Final? ==> AllGood(o, t, d.statements + 3)
    requires a.Redo? ==> AbortedAttempt(o, t, d, a.time) && CanCommit(o, a.time, d, left - 1)
    ensures CanCommit(o, t, d, left)
  {
    hide Attempt, AbortedAttempt, AllGood;
    if a.Final? {
      assert Commits(o, t, d, left, [t]);
    } else {
      var starts :| Commits(o, a.time, d, left - 1, starts);
      ChainMore(o, t, d, a.time, starts);
      assert Commits(o, t, d, left, [t] + starts);
    }
  }

  /** The schedule aborts `left` attempts in a row, or aborts an earlier one's begin. */
  ghost predicate Aborts(o: Schedule, t: nat, d: Decision, left: nat, starts: seq<nat>) {
    && Chain(o, t, d, starts)
    && (|starts| == left + 1 || (|starts| <= left && o(Last(starts)) == Good && o(Last(starts) + 1) == Abort))
  }

  /** BB_ERR_RETRY does escape: exactly when the schedule aborts every attempt, or the begin of one. */
  lemma {:induction false} RetryIffAborted(o: Schedule, t: nat, d: Decision, left: nat)
    requires d.Refuse? ==> d.code != Retry
    ensures Attempts(o, t, d, left).0 == Retry <==> exists starts :: Aborts(o, t, d, left, starts)
    decreases left
  {
    hide AbortedAttempt, AllGood, Attempt;
    if left == 0 {
      assert Aborts(o, t, d, 0, [t]);
    } else {
      var a := Attempt(o, t, d);
      RetryAtBegin(o, t, d);
      if a.Redo? {
        RedoneIffAborted(o, t, d, a.time);
        RetryIffAborted(o, a.time, d, left - 1);
        if Attempts(o, t, d, left).0 == Retry {
          var starts :| Aborts(o, a.time, d, left - 1, starts);
          ChainMore(o, t, d, a.time, starts);
          assert Aborts(o, t, d, left, [t] + starts);
        }
      } else if a.code == Retry {
        assert Aborts(o, t, d, left, [t]);
      }
      if exists starts :: Aborts(o, t, d, left, starts) {
        var starts :| Aborts(o, t, d, left, starts);
        if |starts| > 1 {
          ChainLess(o, t, d, starts);
          RedoneIffAborted(o, t, d, starts[1]);
          assert Aborts(o, starts[1], d, left - 1, starts[1..]);
        }
      }
    }
  }

  lemma RetryAtBegin(o: Schedule, t: nat, d: Decision)
    requires d.Refuse? ==> d.code != Retry
    ensures (Attempt(o, t, d).Final? && Attempt(o, t, d).code == Retry) <==> o(t) == Good && o(t + 1) == Abort
  {
    hide Steps;
  }

  /** One such schedule, for every decision: the first statement behind each begin is aborted. */
  const THIRD_ABORTED: Schedule := i => if i % 4 == 2 then Abort else Good

  lemma RetryEscapes(d: Decision)
    requires d.statements > 0 && (d.Refuse? ==> d.code != Retry)
    ensures Attempts(THIRD_ABORTED, 0, d, TXN_ATTEMPTS).0 == Retry
  {
    hide Attempts, Attempt;
    var o := THIRD_ABORTED;
    ThirdAborted(0, d);
    ThirdAborted(4, d);
    ThirdAborted(8, d);
    assert Aborts(o, 0, d, TXN_ATTEMPTS, [0, 4, 8, 12]);
    RetryIffAborted(o, 0, d, TXN_ATTEMPTS);
  }

  lemma ThirdAborted(t: nat, d: Decision)
    requires t % 4 == 0 && d.statements > 0
    ensures AbortedAttempt(THIRD_ABORTED, t, d, t + 4)
  {
    assert AbortsAt(THIRD_ABORTED, t, d, 0);
  }

  // ---- db_exec under a schedule ----

  const SELF_RETRY_ATTEMPTS := 3

  /** A command run on its own: whether it writes, how many statements it takes, and whether it works once
      they have all been answered ok. */
  datatype Job = Job(writes: bool, statements: nat, works: bool)

  /** Statements behind the connection: a write is framed by a begin and, when it works, a commit. */
  function Framed(j: Job): nat {
    if !j.writes then j.statements else j.statements + 1 + (if j.works then 1 else 0)
  }

  /** one_shot_attempt: a write that fails is rolled back unless what failed was its commit. */
  function Shot(o: Schedule, t: nat, j: Job): (Code, nat) {
    if o(t) != Good then (DbError, t + 1)
    else
      var (c, u) := Steps(o, t + 1, Framed(j));
      if c == Retry then (Retry, u)
      else if c == Ok && j.works then (Ok, u)
      else (DbError, if j.writes && !(j.works && u == t + 1 + Framed(j)) then u + 1 else u)
  }

  lemma {:induction false} StepsWithin(o: Schedule, t: nat, n: nat)
    ensures Steps(o, t, n).1 <= t + n
    decreases n
  {
    if n > 0 && o(t) == Good {
      StepsWithin(o, t + 1, n - 1);
    }
  }

  /** A try statement by statement, once its connection is open. */
  lemma ReadShot(o: Schedule, t: nat, j: Job)
    requires o(t) == Good && !j.writes
    ensures var (c, u) := Steps(o, t + 1, j.statements);
            Shot(o, t, j) == (if c == Ok && !j.works then DbError else c, u)
  {
    hide Steps;
  }

  lemma WriteRefused(o: Schedule, t: nat, j: Job)
    requires o(t) == Good && o(t + 1) != Good && j.writes
    ensures Shot(o, t, j) == (CodeOf(o(t + 1)), if o(t + 1) == Fail then t + 3 else t + 2)
  {
    hide Steps;
    StepsThen(o, t + 1, 1, Framed(j) - 1);
  }

  lemma WriteShot(o: Schedule, t: nat, j: Job)
    requires o(t) == Good && o(t + 1) == Good && j.writes
    ensures var (c, u) := Steps(o, t + 2, j.statements);
            Shot(o, t, j) == if c == Retry then (Retry, u)
                             else if c == Ok && j.works then (CodeOf(o(u)), u + 1)
                             else (DbError, u + 1)
  {
    hide Steps;
    StepsThen(o, t + 1, 1, Framed(j) - 1);
    StepsThen(o, t + 2, j.statements, Framed(j) - 1 - j.statements);
    StepsWithin(o, t + 2, j.statements);
  }

  /** The loop of db_exec: the result code and the time afterwards. */
  function Shots(o: Schedule, t: nat, j: Job, left: nat): (Code, nat)
    decreases left
  {
    if left == 0 then (DbError, t)
    else
      var (c, u) := Shot(o, t, j);
      if c != Retry then (c, u) else Shots(o, u, j, left - 1)
  }

  /** The schedule connects the try that starts at t and then aborts its statement k. */
  ghost predicate ShotAbortsAt(o: Schedule, t: nat, j: Job, k: nat) {
    o(t) == Good && k < Framed(j) && FirstAbort(o, t + 1, k)
  }

  /** The try that starts at t is aborted, and the next one starts at u. */
  ghost predicate AbortedShot(o: Schedule, t: nat, j: Job, u: nat) {
    exists k: nat :: ShotAbortsAt(o, t, j, k) && u == t + k + 2
  }

  lemma ShotAborted(o: Schedule, t: nat, j: Job, u: nat)
    ensures Shot(o, t, j) == (Retry, u) <==> AbortedShot(o, t, j, u)
  {
    hide Steps, FirstAbort;
    if Shot(o, t, j) == (Retry, u) {
      var k := AbortFound(o, t + 1, Framed(j));
      assert ShotAbortsAt(o, t, j, k);
    }
    if AbortedShot(o, t, j, u) {
      var k: nat :| ShotAbortsAt(o, t, j, k) && u == t + k + 2;
      StepsAbort(o, t + 1, Framed(j), k);
    }
  }

  lemma ShotWorks(o: Schedule, t: nat, j: Job)
    ensures Shot(o, t, j).0 == Ok <==> j.works && AllGood(o, t, Framed(j) + 1)
  {
    hide Steps;
    StepsGood(o, t + 1, Framed(j));
    if AllGood(o, t, Framed(j) + 1) {
      assert o(t) == Good;
    }
  }

  /** Starts of successive tries, each but the last aborted by the schedule; the last is answered ok
      throughout. */
  ghost predicate Works(o: Schedule, t: nat, j: Job, left: nat, starts: seq<nat>) {
    && starts != [] && starts[0] == t && |starts| <= left
    && (forall i :: 0 <= i < |starts| - 1 ==> AbortedShot(o, starts[i], j, starts[i + 1]))
    && AllGood(o, Last(starts), Framed(j) + 1)
  }

  lemma WorksLater(o: Schedule, t: nat, j: Job, left: nat, u: nat, starts: seq<nat>)
    requires AbortedShot(o, t, j, u) && Works(o, u, j, left, starts)
    ensures Works(o, t, j, left + 1, [t] + starts)
  {
    hide AbortedShot, AllGood;
    var all := [t] + starts;
    forall i | 0 <= i < |all| - 1 ensures AbortedShot(o, all[i], j, all[i + 1]) {
      assert i > 0 ==> all[i] == starts[i - 1] && all[i + 1] == starts[i];
    }
  }

  /** A command on its own succeeds exactly when it works and, after aborted tries, one of the first `left`
      is answered ok throughout; in every other case the caller hears a plain failure. */
  lemma {:induction false} ShotsWork(o: Schedule, t: nat, j: Job, left: nat)
    ensures Shots(o, t, j, left).0 == Ok <==> j.works && exists starts :: Works(o, t, j, left, starts)
    ensures Shots(o, t, j, left).0 == Ok || Shots(o, t, j, left).0 == DbError
    decreases left
  {
    hide Shot, AbortedShot, AllGood;
    if left > 0 {
      ShotCodes(o, t, j);
      ShotWorks(o, t, j);
      var (c, u) := Shot(o, t, j);
      ShotAborted(o, t, j, u);
      if c == Retry {
        ShotsWork(o, u, j, left - 1);
      }
      if Shots(o, t, j, left).0 == Ok {
        if c == Retry {
          var starts :| Works(o, u, j, left - 1, starts);
          WorksLater(o, t, j, left - 1, u, starts);
        } else {
          assert Works(o, t, j, left, [t]);
        }
      }
      if j.works && exists starts :: Works(o, t, j, left, starts) {
        var starts :| Works(o, t, j, left, starts);
        if |starts| > 1 {
          ShotAborted(o, t, j, starts[1]);
          assert Works(o, starts[1], j, left - 1, starts[1..]);
        }
      }
    }
  }

  lemma ShotCodes(o: Schedule, t: nat, j: Job)
    ensures Shot(o, t, j).0 == Ok || Shot(o, t, j).0 == DbError || Shot(o, t, j).0 == Retry
    ensures Shot(o, t, j).1 > t
  {
    hide Steps;
  }
}
