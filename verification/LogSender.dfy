/**
 * Drop accounting of the log sender (core/src/libtetrisutil/logmsg.c:140-214) as a state machine over
 * the atomic steps of any number of threads, and the logger that sums what arrives
 * (core/src/tetrislogd/logger.c:319-330).
 */
module LogSender {
  const ULONG_MAX := 0xffff_ffff_ffff_ffff
  const CLAIM_MAX := 0x100_0000

  /** Where one thread is. Everything from Locked to CloseLocked holds the sender lock. */
  datatype Pc =
    | Idle
    | Locked                 // trylock succeeded; next: read the unreported count
    | Sending(claim: nat)    // count read into the record; next: send it, or give up
    | Sent(claim: nat)       // record delivered; next: subtract the claim
    | Unlocking              // next: unlock and return
    | GivingUp               // next: unlock, then count a drop
    | CloseLocked            // log_close holding the lock; next: unlock
    | Dropping               // drop_one; next: add one to the lifetime count
    | Counted                // next: load the unreported count
    | Swapping(seen: nat)    // next: compare and swap seen for seen + 1

  /** The process-wide state. `delivered` is what the socket has accepted, in order. `lifetime` counts
      every drop without wrapping and `saturated` those drop_one could not add to a full counter. */
  datatype State = State(
    threads: seq<Pc>,
    lock: bool,
    dropped: nat,
    unreported: nat,
    delivered: seq<nat>,
    lifetime: nat,
    saturated: nat)

  /** What a scheduler can choose for the thread it runs next. */
  datatype Choice =
    | Start        // call log_vsend and get the lock
    | StartDrop    // call it and find the lock taken, or a null format
    | StartClose   // log_close reaches its lock
    | Go           // the successful branch, or the only one
    | Break        // a failing connect, send or compare-and-swap

  predicate HoldsLock(p: Pc) {
    p.Locked? || p.Sending? || p.Sent? || p.Unlocking? || p.GivingUp? || p.CloseLocked?
  }

  /** One atomic step of thread i. A choice that does not apply changes nothing. */
  function Step(s: State, i: nat, c: Choice): State
    requires i < |s.threads|
  {
    match s.threads[i]
    case Idle =>
      if c == StartDrop then At(s, i, Dropping)
      else if s.lock then s
      else if c == Start then At(s, i, Locked).(lock := true)
      else if c == StartClose then At(s, i, CloseLocked).(lock := true)
      else s
    case Locked => At(s, i, Sending(s.unreported))
    case Sending(claim) =>
      if c == Go then At(s, i, Sent(claim)).(delivered := s.delivered + [claim])
      else if c == Break then At(s, i, GivingUp)
      else s
    case Sent(claim) => At(s, i, Unlocking).(unreported := Sub(s.unreported, claim))
    case Unlocking => At(s, i, Idle).(lock := false)
    case GivingUp => At(s, i, Dropping).(lock := false)
    case CloseLocked => At(s, i, Idle).(lock := false)
    case Dropping => At(s, i, Counted).(dropped := (s.dropped + 1) % (ULONG_MAX + 1), lifetime := s.lifetime + 1)
    case Counted => At(s, i, Swapping(s.unreported))
    case Swapping(seen) =>
      if seen >= ULONG_MAX then At(s, i, Idle).(saturated := s.saturated + 1)
      else if c == Go && s.unreported == seen then At(s, i, Idle).(unreported := seen + 1)
      else At(s, i, Swapping(s.unreported))
  }

  function At(s: State, i: nat, p: Pc): State
    requires i < |s.threads|
  {
    s.(threads := s.threads[i := p])
  }

  /** atomic_fetch_sub on an unsigned long. */
  function Sub(a: nat, b: nat): nat {
    if b <= a then a - b else (a - b) % (ULONG_MAX + 1)
  }

  function Initial(n: nat): State {
    State(seq(n, i => Idle), false, 0, 0, [], 0, 0)
  }

  // ---- the balance ----

  ghost function Sum(s: seq<nat>): nat {
    if s == [] then 0 else Sum(s[..|s| - 1]) + s[|s| - 1]
  }

  /** Drops counted in the lifetime total but not yet added to the unreported count. */
  ghost function InFlight(ts: seq<Pc>): nat {
    if ts == [] then 0
    else InFlight(ts[..|ts| - 1]) + (if ts[|ts| - 1].Counted? || ts[|ts| - 1].Swapping? then 1 else 0)
  }

  /** A report delivered but not yet subtracted. */
  ghost function Unsubtracted(ts: seq<Pc>): nat {
    if ts == [] then 0
    else Unsubtracted(ts[..|ts| - 1]) + (if ts[|ts| - 1].Sent? then ts[|ts| - 1].claim else 0)
  }

  /** At most one thread holds the lock, and the flag says whether one does. */
  ghost predicate OneHolder(s: State) {
    && (forall i, j :: 0 <= i < j < |s.threads| && HoldsLock(s.threads[i]) ==> !HoldsLock(s.threads[j]))
    && (s.lock <==> exists i :: 0 <= i < |s.threads| && HoldsLock(s.threads[i]))
  }

  /** A claim read under the lock never exceeds the count it was read from. */
  ghost predicate ClaimsCovered(s: State) {
    forall i :: 0 <= i < |s.threads| ==>
      && (s.threads[i].Sending? ==> s.threads[i].claim <= s.unreported)
      && (s.threads[i].Sent? ==> s.threads[i].claim <= s.unreported)
  }

  ghost predicate Balanced(s: State) {
    s.lifetime + Unsubtracted(s.threads) == Sum(s.delivered) + s.unreported + InFlight(s.threads) + s.saturated
  }

  ghost predicate Inv(s: State) {
    && OneHolder(s) && ClaimsCovered(s) && Balanced(s)
    && s.unreported <= ULONG_MAX
    && s.dropped == s.lifetime % (ULONG_MAX + 1)
  }

  lemma {:induction false} InFlightSet(ts: seq<Pc>, i: nat, p: Pc)
    requires i < |ts|
    ensures InFlight(ts[i := p]) == InFlight(ts) - Weight(ts[i]) + Weight(p)
  {
    var last := |ts| - 1;
    if i == last {
      assert ts[i := p][..last] == ts[..last];
    } else {
      assert ts[i := p][..last] == ts[..last][i := p];
      InFlightSet(ts[..last], i, p);
    }
  }

  ghost function Weight(p: Pc): nat {
    if p.Counted? || p.Swapping? then 1 else 0
  }

  ghost function Claim(p: Pc): nat {
    if p.Sent? then p.claim else 0
  }

  lemma {:induction false} UnsubtractedSet(ts: seq<Pc>, i: nat, p: Pc)
    requires i < |ts|
    ensures Unsubtracted(ts[i := p]) == Unsubtracted(ts) - Claim(ts[i]) + Claim(p)
  {
    var last := |ts| - 1;
    if i == last {
      assert ts[i := p][..last] == ts[..last];
    } else {
      assert ts[i := p][..last] == ts[..last][i := p];
      UnsubtractedSet(ts[..last], i, p);
    }
  }

  lemma SumAppend(s: seq<nat>, n: nat)
    ensures Sum(s + [n]) == Sum(s) + n
  {
    assert (s + [n])[..|s|] == s;
  }

  lemma {:induction false} IdleThreads(n: nat)
    ensures InFlight(seq(n, i => Idle)) == 0 && Unsubtracted(seq(n, i => Idle)) == 0
  {
    if n > 0 {
      assert seq(n, i => Idle)[..n - 1] == seq(n - 1, i => Idle);
      IdleThreads(n - 1);
    }
  }

  lemma InitialInv(n: nat)
    ensures Inv(Initial(n))
  {
    IdleThreads(n);
  }

  // ---- every atomic step keeps the balance ----

  lemma StepHolder(s: State, i: nat, c: Choice)
    requires i < |s.threads| && OneHolder(s)
    ensures OneHolder(Step(s, i, c))
  {
    var t := Step(s, i, c);
    if t.lock {
      if HoldsLock(t.threads[i]) {
      } else {
        var j :| 0 <= j < |s.threads| && HoldsLock(s.threads[j]);
        assert HoldsLock(t.threads[j]);
      }
    }
  }

  /** The holder alone lowers the count, and only by what it claimed: no claim is ever uncovered. */
  lemma StepClaims(s: State, i: nat, c: Choice)
    requires i < |s.threads| && OneHolder(s) && ClaimsCovered(s)
    ensures ClaimsCovered(Step(s, i, c))
  {
    var t := Step(s, i, c);
    forall j | 0 <= j < |t.threads|
      ensures t.threads[j].Sending? ==> t.threads[j].claim <= t.unreported
      ensures t.threads[j].Sent? ==> t.threads[j].claim <= t.unreported
    {
      if j != i && HoldsLock(s.threads[j]) {
        assert !HoldsLock(s.threads[i]);
      }
    }
  }

  lemma StepBalance(s: State, i: nat, c: Choice)
    requires i < |s.threads| && ClaimsCovered(s) && Balanced(s)
    ensures Balanced(Step(s, i, c))
  {
    hide Sum, InFlight, Unsubtracted;
    var t := Step(s, i, c);
    InFlightSet(s.threads, i, t.threads[i]);
    UnsubtractedSet(s.threads, i, t.threads[i]);
    assert t.threads == s.threads[i := t.threads[i]];
    if s.threads[i].Sending? {
      SumAppend(s.delivered, s.threads[i].claim);
    }
  }

  lemma StepKeeps(s: State, i: nat, c: Choice)
    requires i < |s.threads| && Inv(s)
    ensures Inv(Step(s, i, c))
  {
    hide OneHolder, Balanced;
    StepHolder(s, i, c);
    StepClaims(s, i, c);
    StepBalance(s, i, c);
  }

  function Run(s: State, moves: seq<(nat, Choice)>): State
    decreases |moves|
  {
    if moves == [] then s
    else Run(if moves[0].0 < |s.threads| then Step(s, moves[0].0, moves[0].1) else s, moves[1..])
  }

  /** In every interleaving of any number of threads: lifetime drops = reported + unreported + in
      flight + saturated - the holder's not yet subtracted report, and no subtraction underflows. */
  lemma {:induction false} EveryInterleaving(s: State, moves: seq<(nat, Choice)>)
    requires Inv(s)
    ensures Inv(Run(s, moves))
    decreases |moves|
  {
    hide Inv, Step;
    if moves != [] {
      if moves[0].0 < |s.threads| {
        StepKeeps(s, moves[0].0, moves[0].1);
        EveryInterleaving(Step(s, moves[0].0, moves[0].1), moves[1..]);
      } else {
        EveryInterleaving(s, moves[1..]);
      }
    }
  }

  /** The subtraction in a reachable state is an ordinary one. */
  lemma NoUnderflow(s: State, i: nat)
    requires Inv(s) && i < |s.threads| && s.threads[i].Sent?
    ensures Sub(s.unreported, s.threads[i].claim) == s.unreported - s.threads[i].claim
  {
  }

  // ---- saturation ----

  /** Until the lifetime total reaches the counter's limit nothing is ever lost to saturation. */
  ghost predicate Unsaturated(s: State) {
    && (s.saturated > 0 ==> s.lifetime >= ULONG_MAX)
    && (forall i :: 0 <= i < |s.threads| && s.threads[i].Swapping? ==> s.threads[i].seen <= s.lifetime)
  }

  lemma {:induction false} UnsubtractedBound(ts: seq<Pc>, delivered: nat)
    requires forall i, j :: 0 <= i < j < |ts| && HoldsLock(ts[i]) ==> !HoldsLock(ts[j])
    requires forall i :: 0 <= i < |ts| && ts[i].Sent? ==> ts[i].claim <= delivered
    ensures Unsubtracted(ts) <= delivered
    ensures (forall i :: 0 <= i < |ts| ==> !ts[i].Sent?) ==> Unsubtracted(ts) == 0
  {
    if ts != [] {
      UnsubtractedBound(ts[..|ts| - 1], delivered);
    }
  }

  /** A sent claim has been delivered. */
  ghost predicate SentDelivered(s: State) {
    forall i :: 0 <= i < |s.threads| && s.threads[i].Sent? ==> s.threads[i].claim <= Sum(s.delivered)
  }

  lemma UnreportedBelowLifetime(s: State)
    requires Inv(s) && SentDelivered(s)
    ensures s.unreported <= s.lifetime
  {
    UnsubtractedBound(s.threads, Sum(s.delivered));
  }

  lemma StepUnsaturated(s: State, i: nat, c: Choice)
    requires i < |s.threads| && Inv(s) && SentDelivered(s) && Unsaturated(s)
    ensures SentDelivered(Step(s, i, c)) && Unsaturated(Step(s, i, c))
  {
    hide Sum, InFlight, Unsubtracted, OneHolder, Balanced, ClaimsCovered;
    UnreportedBelowLifetime(s);
    var t := Step(s, i, c);
    if s.threads[i].Sending? {
      SumAppend(s.delivered, s.threads[i].claim);
    }
    assert forall j :: 0 <= j < |s.threads| && j != i ==> t.threads[j] == s.threads[j];
    assert t.lifetime >= s.lifetime && Sum(t.delivered) >= Sum(s.delivered);
  }

  lemma {:induction false} RunUnsaturated(s: State, moves: seq<(nat, Choice)>)
    requires Inv(s) && SentDelivered(s) && Unsaturated(s)
    ensures Unsaturated(Run(s, moves))
    decreases |moves|
  {
    hide Inv, Step, SentDelivered, Unsaturated;
    if moves != [] {
      if moves[0].0 < |s.threads| {
        StepKeeps(s, moves[0].0, moves[0].1);
        StepUnsaturated(s, moves[0].0, moves[0].1);
        RunUnsaturated(Step(s, moves[0].0, moves[0].1), moves[1..]);
      } else {
        RunUnsaturated(s, moves[1..]);
      }
    }
  }

  // ---- every call is delivered or counted ----

  /** A step that begins a call of log_vsend. */
  ghost predicate Begins(s: State, i: nat, c: Choice) {
    i < |s.threads| && s.threads[i].Idle? && (c == StartDrop || (c == Start && !s.lock))
  }

  /** Calls of log_vsend begun over these moves. */
  ghost function Calls(s: State, moves: seq<(nat, Choice)>): nat
    decreases |moves|
  {
    if moves == [] then 0
    else
      (if Begins(s, moves[0].0, moves[0].1) then 1 else 0)
      + Calls(if moves[0].0 < |s.threads| then Step(s, moves[0].0, moves[0].1) else s, moves[1..])
  }

  /** A call whose record is neither delivered nor counted as dropped yet. */
  ghost function Undecided(p: Pc): nat {
    if p.Locked? || p.Sending? || p.GivingUp? || p.Dropping? then 1 else 0
  }

  ghost function Open(ts: seq<Pc>): nat {
    if ts == [] then 0 else Open(ts[..|ts| - 1]) + Undecided(ts[|ts| - 1])
  }

  lemma {:induction false} OpenSet(ts: seq<Pc>, i: nat, p: Pc)
    requires i < |ts|
    ensures Open(ts[i := p]) == Open(ts) - Undecided(ts[i]) + Undecided(p)
  {
    var last := |ts| - 1;
    if i == last {
      assert ts[i := p][..last] == ts[..last];
    } else {
      assert ts[i := p][..last] == ts[..last][i := p];
      OpenSet(ts[..last], i, p);
    }
  }

  lemma {:induction false} NoneOpen(ts: seq<Pc>)
    requires forall i :: 0 <= i < |ts| ==> ts[i] == Idle
    ensures Open(ts) == 0
  {
    if ts != [] {
      NoneOpen(ts[..|ts| - 1]);
    }
  }

  /** Records delivered, drops counted and calls still undecided. */
  ghost function Answerable(s: State): nat {
    |s.delivered| + s.lifetime + Open(s.threads)
  }

  lemma StepAnswerable(s: State, i: nat, c: Choice)
    requires i < |s.threads|
    ensures Answerable(Step(s, i, c)) == Answerable(s) + (if Begins(s, i, c) then 1 else 0)
  {
    hide Open;
    var t := Step(s, i, c);
    assert t.threads == s.threads[i := t.threads[i]];
    OpenSet(s.threads, i, t.threads[i]);
  }

  /** In every interleaving no call is lost: each is delivered, counted as a drop, or still undecided. */
  lemma {:induction false} EveryCallAnswered(s: State, moves: seq<(nat, Choice)>)
    ensures Answerable(Run(s, moves)) == Answerable(s) + Calls(s, moves)
    decreases |moves|
  {
    hide Step, Answerable, Begins;
    if moves != [] {
      if moves[0].0 < |s.threads| {
        StepAnswerable(s, moves[0].0, moves[0].1);
        EveryCallAnswered(Step(s, moves[0].0, moves[0].1), moves[1..]);
      } else {
        NoSuchThread(s, moves[0].0, moves[0].1);
        EveryCallAnswered(s, moves[1..]);
      }
    }
  }

  lemma NoSuchThread(s: State, i: nat, c: Choice)
    requires i >= |s.threads|
    ensures !Begins(s, i, c)
  {
  }

  // ---- one call, undisturbed ----

  function Turns(i: nat, cs: seq<Choice>): seq<(nat, Choice)> {
    if cs == [] then [] else [(i, cs[0])] + Turns(i, cs[1..])
  }

  lemma TurnsStep(s: State, i: nat, c: Choice, rest: seq<Choice>)
    requires i < |s.threads|
    ensures Run(s, Turns(i, [c] + rest)) == Run(Step(s, i, c), Turns(i, rest))
  {
    hide Step;
    assert ([c] + rest)[1..] == rest;
    assert ([(i, c)] + Turns(i, rest))[1..] == Turns(i, rest);
  }

  lemma NoTurns(s: State, i: nat)
    ensures Run(s, Turns(i, [])) == s
  {
  }

  /** drop_one by a thread nobody interferes with: both counts go up by one, and the thread is idle. */
  lemma SoloDrop(s: State, i: nat)
    requires i < |s.threads| && s.threads[i] == Dropping && s.unreported < ULONG_MAX
    ensures Run(s, Turns(i, [Go, Go, Go]))
            == At(s, i, Idle).(dropped := (s.dropped + 1) % (ULONG_MAX + 1), lifetime := s.lifetime + 1,
                               unreported := s.unreported + 1)
  {
    hide Run, Turns;
    assert [Go] + [Go, Go] == [Go, Go, Go] && [Go] + [Go] == [Go, Go] && [Go] + [] == [Go];
    TurnsStep(s, i, Go, [Go, Go]);
    var s1 := Step(s, i, Go);
    TurnsStep(s1, i, Go, [Go]);
    var s2 := Step(s1, i, Go);
    TurnsStep(s2, i, Go, []);
    NoTurns(Step(s2, i, Go), i);
    assert Step(s2, i, Go).threads == s.threads[i := Idle];
  }

  /** A call that gets the lock and whose send succeeds delivers one record, claiming all the unreported
      drops, and leaves none unreported. */
  lemma SoloSend(s: State, i: nat)
    requires i < |s.threads| && s.threads[i] == Idle && !s.lock
    ensures Run(s, Turns(i, [Start, Go, Go, Go, Go])) == s.(delivered := s.delivered + [s.unreported], unreported := 0)
  {
    hide Run, Turns;
    assert [Start] + [Go, Go, Go, Go] == [Start, Go, Go, Go, Go] && [Go] + [Go, Go, Go] == [Go, Go, Go, Go];
    assert [Go] + [Go, Go] == [Go, Go, Go] && [Go] + [Go] == [Go, Go] && [Go] + [] == [Go];
    TurnsStep(s, i, Start, [Go, Go, Go, Go]);
    var s1 := Step(s, i, Start);
    TurnsStep(s1, i, Go, [Go, Go, Go]);
    var s2 := Step(s1, i, Go);
    TurnsStep(s2, i, Go, [Go, Go]);
    var s3 := Step(s2, i, Go);
    TurnsStep(s3, i, Go, [Go]);
    var s4 := Step(s3, i, Go);
    TurnsStep(s4, i, Go, []);
    NoTurns(Step(s4, i, Go), i);
    assert Step(s4, i, Go).threads == s.threads;
  }

  /** A call that gets the lock and whose send fails gives the lock back and counts one drop. */
  lemma SoloFail(s: State, i: nat)
    requires i < |s.threads| && s.threads[i] == Idle && !s.lock && s.unreported < ULONG_MAX
    ensures Run(s, Turns(i, [Start, Go, Break, Go] + [Go, Go, Go]))
            == s.(dropped := (s.dropped + 1) % (ULONG_MAX + 1), lifetime := s.lifetime + 1,
                  unreported := s.unreported + 1)
  {
    hide Run, Turns;
    var last := [Go, Go, Go];
    assert [Start] + ([Go] + ([Break] + ([Go] + last))) == [Start, Go, Break, Go] + last;
    TurnsStep(s, i, Start, [Go] + ([Break] + ([Go] + last)));
    var s1 := Step(s, i, Start);
    TurnsStep(s1, i, Go, [Break] + ([Go] + last));
    var s2 := Step(s1, i, Go);
    TurnsStep(s2, i, Break, [Go] + last);
    var s3 := Step(s2, i, Break);
    TurnsStep(s3, i, Go, last);
    var s4 := Step(s3, i, Go);
    SoloDrop(s4, i);
    assert s4.threads[i := Idle] == s.threads;
  }

  /** A call that finds the lock taken counts one drop and leaves the holder alone. */
  lemma SoloContended(s: State, i: nat)
    requires i < |s.threads| && s.threads[i] == Idle && s.unreported < ULONG_MAX
    ensures Run(s, Turns(i, [StartDrop] + [Go, Go, Go]))
            == s.(dropped := (s.dropped + 1) % (ULONG_MAX + 1), lifetime := s.lifetime + 1,
                  unreported := s.unreported + 1)
  {
    hide Run, Turns;
    TurnsStep(s, i, StartDrop, [Go, Go, Go]);
    var s1 := Step(s, i, StartDrop);
    SoloDrop(s1, i);
    assert s1.threads[i := Idle] == s.threads;
  }

  // ---- the logger ----

  /** Claims the logger believes, summed. */
  ghost function Believed(claims: seq<nat>): nat {
    if claims == [] then 0
    else Believed(claims[..|claims| - 1]) + (if claims[|claims| - 1] > CLAIM_MAX then 0 else claims[|claims| - 1])
  }

  ghost function Disbelieved(claims: seq<nat>): nat {
    if claims == [] then 0
    else Disbelieved(claims[..|claims| - 1]) + (if claims[|claims| - 1] > CLAIM_MAX then 1 else 0)
  }

  /** The counters serve_one keeps about claimed drops. */
  class LoggerStats {
    var dropped: nat
    var malformed: nat

    constructor ()
      ensures dropped == 0 && malformed == 0
    {
      dropped, malformed := 0, 0;
    }

    /** One well-sized datagram. */
    method ServeOne(claim: nat)
      modifies this
      ensures dropped == old(dropped) + (if claim > CLAIM_MAX then 0 else claim)
      ensures malformed == old(malformed) + (if claim > CLAIM_MAX then 1 else 0)
    {
      if claim > CLAIM_MAX {
        malformed := malformed + 1;
      } else {
        dropped := dropped + claim;
      }
    }

    /** The records a sender delivered, in order. */
    method ServeAll(claims: seq<nat>)
      modifies this
      ensures dropped == old(dropped) + Believed(claims) && malformed == old(malformed) + Disbelieved(claims)
    {
      for i := 0 to |claims|
        invariant dropped == old(dropped) + Believed(claims[..i])
        invariant malformed == old(malformed) + Disbelieved(claims[..i])
      {
        ServeOne(claims[i]);
        assert claims[..i + 1][..i] == claims[..i];
      }
      assert claims[..|claims|] == claims;
    }
  }

  lemma {:induction false} BelievedIsSum(claims: seq<nat>)
    ensures Believed(claims) <= Sum(claims)
    ensures Disbelieved(claims) == 0 <==> Believed(claims) == Sum(claims)
  {
    if claims != [] {
      BelievedIsSum(claims[..|claims| - 1]);
    }
  }

  /** With every thread idle every call was delivered or counted as a drop; and with nothing saturated
      and no claim over the cap, what the logger counted plus what is still unreported is every drop. */
  lemma QuiescentAccounting(n: nat, moves: seq<(nat, Choice)>)
    ensures var s := Run(Initial(n), moves);
            && Inv(s)
            && (AllIdle(s) ==> Calls(Initial(n), moves) == |s.delivered| + s.lifetime)
            && (AllIdle(s) && s.lifetime < ULONG_MAX && Disbelieved(s.delivered) == 0 ==>
                  s.lifetime == Believed(s.delivered) + s.unreported && s.dropped == s.lifetime)
  {
    hide Step, Run, Inv, Unsaturated, Believed, Disbelieved, Open, Calls;
    InitialInv(n);
    EveryInterleaving(Initial(n), moves);
    InitialUnsaturated(n);
    RunUnsaturated(Initial(n), moves);
    var s := Run(Initial(n), moves);
    BelievedIsSum(s.delivered);
    EveryCallAnswered(Initial(n), moves);
    NoneOpen(Initial(n).threads);
    if AllIdle(s) {
      NoneOpen(s.threads);
      if s.lifetime < ULONG_MAX {
        QuietState(s);
      }
    }
  }

  ghost predicate AllIdle(s: State) {
    forall i :: 0 <= i < |s.threads| ==> s.threads[i] == Idle
  }

  lemma InitialUnsaturated(n: nat)
    ensures SentDelivered(Initial(n)) && Unsaturated(Initial(n))
  {
  }

  lemma QuietState(s: State)
    requires Inv(s) && Unsaturated(s) && s.lifetime < ULONG_MAX
    requires forall i :: 0 <= i < |s.threads| ==> s.threads[i] == Idle
    ensures s.lifetime == Sum(s.delivered) + s.unreported && s.dropped == s.lifetime
  {
    hide OneHolder, ClaimsCovered, Sum;
    assert s.threads == seq(|s.threads|, i => Idle);
    IdleThreads(|s.threads|);
  }
}
