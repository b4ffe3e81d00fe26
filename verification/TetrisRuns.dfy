/**
 * Safety of whole runs: every interleaving of ticks, inputs and attacks keeps the invariant of
 * TetrisGame, and a bounded number of ticks separates two locks.
 */
module TetrisRuns {
  import opened Word32
  import opened TetrisPiece
  import opened TetrisBoard
  import opened TetrisGame

  // ---- the pieces of a lock cycle ----

  lemma AdvanceQueue(g: Game, drawn: nat)
    requires QueueAhead(g, drawn)
    ensures g.next[0] == Nth(g.seed, drawn)
    ensures QueueAhead(Advance(g), drawn + 1)
  {
    hide RngPiece;
    var a := Advance(g);
    forall i | 0 <= i < QUEUE
      ensures a.next[i] == Nth(g.seed, drawn + 1 + i)
    {
      if i < QUEUE - 1 {
        assert a.next[i] == g.next[i + 1];
      }
    }
  }

  lemma DealtNext(seed: U32, n: nat)
    ensures multiset(Dealt(seed, n + 1)) == multiset(Dealt(seed, n)) + multiset{Nth(seed, n)}
  {
    assert Dealt(seed, n + 1) == Dealt(seed, n) + [Nth(seed, n)];
  }

  /** spawn_next keeps the queue in step with the stream and yields a legal piece or ends the game. */
  lemma SpawnNextFacts(g: Game, drawn: nat)
    requires Sound(g) && QueueAhead(g, drawn) && !g.gameOver
    ensures var n := SpawnNext(g);
            && Playable(n) && QueueAhead(n, drawn + 1)
            && n == Advance(g).(active := n.active, tickCount := n.tickCount, gameOver := n.gameOver)
            && (!n.gameOver ==> n.active.kind == Nth(g.seed, drawn) && n.active == SpawnPlace(n.active.kind) && n.tickCount == 0)
            && (n.gameOver ==> n.active == g.active && n.tickCount == g.tickCount)
  {
    hide RngPiece, Filled;
    AdvanceQueue(g, drawn);
  }

  /** The score table is linear in rows, attack and four-row clears; the clamp never matters below 5. */
  lemma PointsLaw(n: nat)
    requires n <= 4
    ensures Points(n) == 100 * (n + Earned(n) + (if n == 4 then 1 else 0))
    ensures Clamp4(n) == n
  {
  }

  /** What an observer records when `p` locks. */
  ghost function LockSeen(h: History, g: Game, p: Piece): History
    requires Sound(g)
  {
    var n := Cleared(Stamp(g.board, p));
    h.(locked := h.locked + [p.kind], drawn := h.drawn + 1, earned := h.earned + Earned(n),
       tetrises := if n == 4 then h.tetrises + 1 else h.tetrises)
  }

  /** What one lock cycle of a legal piece does to the fields it touches. */
  lemma LockFacts(g: Game, drawn: nat, p: Piece)
    requires Playable(g) && !g.gameOver && NoFullRow(g.board) && QueueAhead(g, drawn) && Legal(g.board, p)
    ensures var k, n := LockCycle(g, p), Cleared(Stamp(g.board, p));
            && Playable(k) && NoFullRow(k.board) && QueueAhead(k, drawn + 1) && n <= 4
            && Count(k.board) == Count(g.board) + 4 - 10 * n
            && k.lines == g.lines + n && k.score == g.score + Points(n)
            && k.garbageOut == g.garbageOut + Earned(n) && !k.holdUsed
            && k.seed == g.seed && k.hold == g.hold && k.tickTrigger == g.tickTrigger
            && (!k.gameOver ==> k.active == SpawnPlace(Nth(g.seed, drawn)) && k.tickCount == 0)
  {
    hide RngPiece, Filled;
    var stamped := Stamp(g.board, p);
    var n := Cleared(stamped);
    ClearLinesFacts(stamped);
    StampAddsFour(g.board, p);
    AtMostFourCleared(g.board, p);
    SpawnNextFacts(Credit(g.(board := ClearLines(stamped), holdUsed := false), n), drawn);
  }

  /** A lock cycle of a legal piece keeps the invariant. */
  lemma LockCycleKeeps(g: Game, h: History, p: Piece)
    requires Inv(g, h) && !g.gameOver && Legal(g.board, p) && p.kind == g.active.kind
    ensures Inv(LockCycle(g, p).(tickCount := 0), LockSeen(h, g, p))
  {
    hide RngPiece, Nth, LockCycle, Collides, Stamp, Cleared, Count, QueueAhead, NoFullRow;
    hide Dealt, WellFormed, Points, Earned, HeldKinds;
    LockFacts(g, h.drawn, p);
    PointsLaw(Cleared(Stamp(g.board, p)));
    DealtNext(g.seed, h.drawn);
    var k, h' := LockCycle(g, p).(tickCount := 0), LockSeen(h, g, p);
    assert QueueAhead(k, h'.drawn) by {
      SameQueue(LockCycle(g, p), k, h'.drawn);
    }
    if !k.gameOver {
      assert multiset(h'.locked) == multiset(h.locked) + multiset{p.kind};
    }
  }

  lemma SameQueue(a: Game, b: Game, drawn: nat)
    requires QueueAhead(a, drawn) && b.next == a.next && b.counter == a.counter && b.seed == a.seed
    ensures QueueAhead(b, drawn)
  {
    hide RngPiece;
  }

  // ---- each action ----

  lemma SoftDropKeeps(g: Game, h: History)
    requires Inv(g, h) && !g.gameOver
    ensures Inv(SoftDrop(g), if Collides(g.board, Moved(g.active, 0, 1)) then LockSeen(h, g, g.active) else h)
  {
    hide RngPiece, Nth, Filled, LockCycle, Count, NoFullRow;
    if Collides(g.board, Moved(g.active, 0, 1)) {
      LockCycleKeeps(g, h, g.active);
    }
  }

  /** Moving the piece to another legal place keeps the invariant. */
  lemma PlaceKeeps(g: Game, h: History, p: Piece)
    requires Inv(g, h) && !g.gameOver && Legal(g.board, p) && p.kind == g.active.kind
    ensures Inv(g.(active := p), h)
  {
    hide RngPiece, Nth, Collides, Count, NoFullRow, QueueAhead, Dealt;
    SameQueue(g, g.(active := p), h.drawn);
  }

  lemma HardDropKeeps(g: Game, h: History)
    requires Inv(g, h) && !g.gameOver
    ensures Inv(HardDrop(g), LockSeen(h, g, Landing(g.board, g.active)))
  {
    hide Inv, Collides, LockCycle, Stamp, Cleared;
    InvPlayable(g, h);
    var landed := Landing(g.board, g.active);
    PlaceKeeps(g, h, landed);
    LockCycleKeeps(g.(active := landed), h, landed);
  }

  lemma StoreKeeps(g: Game, h: History)
    requires Inv(g, h) && !g.gameOver && !g.holdUsed && g.hold == NoPiece
    ensures Inv(Hold(g), h.(drawn := h.drawn + 1))
  {
    hide RngPiece, Nth, Filled, Count, NoFullRow, SpawnNext, QueueAhead, Collides, Dealt, WellFormed, SpawnPlace;
    var mid := g.(holdUsed := true, hold := g.active.kind);
    SameQueue(g, mid, h.drawn);
    SpawnNextFacts(mid, h.drawn);
    DealtNext(g.seed, h.drawn);
    SameQueue(SpawnNext(mid), Hold(g), h.drawn + 1);
  }

  lemma SwapKeeps(g: Game, h: History)
    requires Inv(g, h) && !g.gameOver && !g.holdUsed && g.hold != NoPiece
    ensures Inv(Hold(g), h)
  {
    hide RngPiece, Nth, Filled, Count, NoFullRow, QueueAhead, Collides;
    SameQueue(g, Hold(g), h.drawn);
  }

  lemma HoldKeeps(g: Game, h: History)
    requires Inv(g, h) && !g.gameOver
    ensures Inv(Hold(g), if !g.holdUsed && g.hold == NoPiece then h.(drawn := h.drawn + 1) else h)
  {
    hide Inv;
    if !g.holdUsed {
      if g.hold == NoPiece {
        StoreKeeps(g, h);
      } else {
        SwapKeeps(g, h);
      }
    }
  }

  // ---- pieces when the game ends ----

  /** The held piece does not fit: nothing has moved, so no piece is lost. The queue's next piece does
      not fit: it is drawn all the same, and stands nowhere; the falling piece is in the slot and still
      named as falling. Every piece is then accounted for once as locked, held, or the one that did not
      fit, and the usual account holds exactly when that one is of the falling piece's kind. */
  lemma HoldTopsOut(g: Game, h: History)
    requires Inv(g, h) && !g.gameOver && !g.holdUsed && Hold(g).gameOver
    ensures g.hold != NoPiece ==> PiecesConserved(Hold(g), h)
    ensures g.hold == NoPiece ==>
              multiset(h.locked) + HeldKinds(Hold(g).hold) + multiset{g.next[0]}
              == multiset(Dealt(g.seed, h.drawn + 1))
    ensures g.hold == NoPiece ==>
              (PiecesConserved(Hold(g), h.(drawn := h.drawn + 1)) <==> g.next[0] == g.active.kind)
  {
    hide Nth, NoFullRow, QueueAhead, Dealt, Hold, CellsConserved, ScoreLaw, Legal;
    HoldStuck(g);
    DealtNext(g.seed, h.drawn);
    NextIsDealt(g, h.drawn);
    if g.hold == NoPiece {
      OneOrOther(multiset(h.locked) + multiset{g.active.kind}, g.active.kind, g.next[0]);
    }
  }

  lemma HoldStuck(g: Game)
    requires Sound(g) && !g.gameOver && !g.holdUsed && Hold(g).gameOver
    ensures Hold(g).active == g.active && Hold(g).seed == g.seed
    ensures Hold(g).hold == if g.hold == NoPiece then g.active.kind else g.hold
  {
    hide RngPiece, Collides, WellFormed, SpawnPlace;
  }

  lemma NextIsDealt(g: Game, drawn: nat)
    requires QueueAhead(g, drawn)
    ensures g.next[0] == Nth(g.seed, drawn)
  {
    hide RngPiece, Nth;
  }

  lemma OneOrOther(rest: multiset<Kind>, a: Kind, b: Kind)
    ensures rest + multiset{a} == rest + multiset{b} <==> a == b
  {
    assert (rest + multiset{a})[a] == rest[a] + 1;
    assert a != b ==> (rest + multiset{b})[a] == rest[a];
  }

  /** A lock after which the next piece does not fit: what is locked and held, and the piece that did
      not fit, are all the pieces dealt. The stale falling piece makes the usual account true exactly
      when it is of the kind of the one that did not fit. */
  lemma LockTopsOut(g: Game, h: History, p: Piece)
    requires Inv(g, h) && !g.gameOver && Legal(g.board, p) && p.kind == g.active.kind && LockCycle(g, p).gameOver
    ensures var k, after := LockCycle(g, p), LockSeen(h, g, p);
            && multiset(after.locked) + HeldKinds(k.hold) + multiset{g.next[0]} == multiset(Dealt(g.seed, after.drawn))
            && (PiecesConserved(k, after) <==> g.next[0] == g.active.kind)
  {
    hide RngPiece, Nth, Collides, Stamp, Cleared, Count, QueueAhead, NoFullRow, ClearLines, LockCycle;
    hide Dealt, WellFormed, Points, Earned, HeldKinds;
    LockFacts(g, h.drawn, p);
    StaleActive(g, h.drawn, p);
    DealtNext(g.seed, h.drawn);
    NextIsDealt(g, h.drawn);
    var k, after := LockCycle(g, p), LockSeen(h, g, p);
    assert multiset(after.locked) == multiset(h.locked) + multiset{p.kind};
    OneOrOther(multiset(h.locked) + multiset{p.kind} + HeldKinds(g.hold), g.active.kind, g.next[0]);
  }

  lemma StaleActive(g: Game, drawn: nat, p: Piece)
    requires Playable(g) && !g.gameOver && NoFullRow(g.board) && QueueAhead(g, drawn) && Legal(g.board, p)
    ensures LockCycle(g, p).gameOver ==> LockCycle(g, p).active == g.active
  {
    hide RngPiece, Filled, Collides, Count, Stamp, Cleared, ClearLines, NoFullRow, Points, Earned;
  }

  lemma TurnKeeps(g: Game, h: History, dir: int)
    requires Inv(g, h) && !g.gameOver
    ensures Inv(TurnBy(g, dir), h)
  {
    hide Inv, Collides;
    InvPlayable(g, h);
    if TryRotate(g.board, g.active, dir).Some? {
      PlaceKeeps(g, h, TryRotate(g.board, g.active, dir).value);
    }
  }

  lemma MoveKeeps(g: Game, h: History, dx: int)
    requires Inv(g, h) && !g.gameOver
    ensures Inv(TryMove(g, dx, 0), h)
  {
    hide Inv, Collides;
    InvPlayable(g, h);
    if !Collides(g.board, Moved(g.active, dx, 0)) {
      PlaceKeeps(g, h, Moved(g.active, dx, 0));
    }
  }

  lemma AttackKeeps(g: Game, h: History, n: int)
    requires Inv(g, h) && !g.gameOver
    ensures Inv(TakeGarbage(g, n), Observe(h, g, Attack(n)))
  {
    hide RngPiece, Nth, Collides, Count, NoFullRow, Raised, Topped, QueueAhead, Dealt, TakeGarbage, LiftTo;
    RaisedFacts(g.board, Rows(n));
    AttackShape(g, n);
    SameQueue(g, TakeGarbage(g, n), h.drawn);
    assert !Topped(g.board, Rows(n)) ==> Count(g.board[..Rows(n)]) == 0;
  }

  /** An attack raises the board and may move the piece or end the game; nothing else changes. */
  lemma AttackShape(g: Game, n: int)
    requires Sound(g) && Legal(g.board, g.active)
    ensures var k := TakeGarbage(g, n);
            && k == g.(board := Raised(g.board, Rows(n)), active := k.active, gameOver := k.gameOver)
            && k.active.kind == g.active.kind && WellFormed(k.board)
            && (!k.gameOver ==> !Topped(g.board, Rows(n)) && Legal(k.board, k.active))
  {
    hide Collides, Raised, Topped, Count, NoFullRow;
    RaisedFacts(g.board, Rows(n));
  }

  lemma InputKeeps(g: Game, h: History, m: Move)
    requires Inv(g, h) && !g.gameOver
    ensures Inv(Obey(g, m), Observe(h, g, Input(m)))
  {
    hide Inv, Collides, SoftDrop, HardDrop, Hold, TurnBy, TryMove, Stamp, Cleared;
    match m
    case NoMove =>
    case Left => MoveKeeps(g, h, -1);
    case Right => MoveKeeps(g, h, 1);
    case TurnRight => TurnKeeps(g, h, 1);
    case TurnLeft => TurnKeeps(g, h, -1);
    case DropOne => SoftDropKeeps(g, h);
    case DropAll => HardDropKeeps(g, h);
    case HoldPiece => HoldKeeps(g, h);
  }

  /** A lock cycle does not depend on where the gravity timer stood. */
  lemma LockResetsTimer(g: Game, p: Piece, t: int)
    requires Sound(g)
    ensures LockCycle(g.(tickCount := t), p).(tickCount := 0) == LockCycle(g, p).(tickCount := 0)
  {
    hide RngPiece, Collides, Stamp, Cleared, ClearLines, Points, Earned, Clamp4;
  }

  lemma InvPlayable(g: Game, h: History)
    requires Inv(g, h)
    ensures Playable(g)
  {
    hide QueueAhead, NoFullRow, PiecesConserved, CellsConserved, Legal, WellFormed;
  }

  lemma WaitKeeps(g: Game, h: History)
    requires Inv(g, h) && !g.gameOver && g.tickCount + 1 < g.tickTrigger
    ensures Inv(g.(tickCount := g.tickCount + 1), h)
  {
    hide RngPiece, Nth, Collides, Count, NoFullRow;
  }

  lemma TickKeeps(g: Game, h: History)
    requires Inv(g, h) && !g.gameOver
    ensures Inv(Next(g, Tick), Observe(h, g, Tick))
  {
    hide Inv, Collides, Stamp, Cleared, LockCycle;
    if g.tickCount + 1 >= g.tickTrigger {
      SoftDropKeeps(g, h);
      InvPlayable(g, h);
      LockResetsTimer(g, g.active, g.tickCount + 1);
    } else {
      WaitKeeps(g, h);
    }
  }

  /** Every step from an invariant state leads to one. */
  lemma StepKeeps(g: Game, h: History, s: Step)
    requires Inv(g, h)
    ensures Inv(Next(g, s), Observe(h, g, s))
  {
    hide RngPiece, Nth, Collides, Count, NoFullRow, Stamp, Cleared, TakeGarbage, Obey, SoftDrop;
    if s.Drain? || g.gameOver {
    } else {
      match s
      case Attack(n) => AttackKeeps(g, h, n);
      case Tick => TickKeeps(g, h);
      case Input(m) => InputKeeps(g, h, m);
    }
  }

  // ---- whole runs ----

  /** An observer's record of a game that has just been dealt its first piece. */
  const FRESH: History := History([], 1, 0, 0, 0, false)

  /** The opening spawn always fits, so a new game starts on, with the stream's first piece. */
  lemma InitialState(seed: U32, was: Piece)
    ensures Inv(Init(seed, was), FRESH) && !Init(seed, was).gameOver
    ensures Init(seed, was).active == SpawnPlace(Nth(seed, 0)) && Init(seed, was).tickCount == 0
  {
    var blank := Blank(seed, was);
    InitialBoard();
    InitialQueue(seed, was);
    SpawnFits(Nth(seed, 0));
    hide RngPiece, Nth, Filled, NoFullRow, Count, QueueAhead, Collides, EmptyBoard;
    SpawnNextFacts(blank, 0);
    assert Dealt(seed, 1) == [Nth(seed, 0)] by {
      assert Dealt(seed, 1)[0] == Nth(seed, 0);
    }
  }

  lemma InitialBoard()
    ensures WellFormed(EmptyBoard()) && NoFullRow(EmptyBoard()) && Count(EmptyBoard()) == 0
  {
    assert !FullRow(EmptyRow()) by {
      assert EmptyRow()[0] == NoPiece;
    }
    RowCountExtremes(EmptyRow());
    CountUniform(EmptyBoard(), 0);
  }

  lemma InitialQueue(seed: U32, was: Piece)
    ensures QueueAhead(Blank(seed, was), 0)
  {
    hide RngPiece;
  }

  lemma SpawnFits(k: Kind)
    requires Real(k)
    ensures WellFormed(EmptyBoard()) && !Collides(EmptyBoard(), SpawnPlace(k))
  {
  }

  /** The state and record after a sequence of steps. */
  ghost function Run(g: Game, h: History, steps: seq<Step>): (r: (Game, History))
    requires Inv(g, h)
    ensures Inv(r.0, r.1)
    decreases |steps|
  {
    if steps == [] then (g, h)
    else
      StepKeeps(g, h, steps[0]);
      Run(Next(g, steps[0]), Observe(h, g, steps[0]), steps[1..])
  }

  /** Everything a game started from `seed` satisfies after any steps at all. */
  lemma EveryRun(seed: U32, was: Piece, steps: seq<Step>)
    ensures Inv(Init(seed, was), FRESH)
    ensures var (g, h) := Run(Init(seed, was), FRESH, steps);
            && Sound(g) && NoFullRow(g.board) && QueueAhead(g, h.drawn) && ScoreLaw(g, h)
            && (!h.lostCells ==> CellsConserved(g, h))
            && (!g.gameOver ==> !h.lostCells && Legal(g.board, g.active) && PiecesConserved(g, h))
  {
    hide RngPiece, Init, NoFullRow, QueueAhead, CellsConserved, PiecesConserved, Legal, Collides;
    InitialState(seed, was);
  }

  /** No lock of a reachable game clears more than four rows, so the clamp in scoring_add never acts. */
  lemma ClampNeverActs(g: Game, h: History, s: Step)
    requires Inv(g, h)
    ensures ClearedBy(g, s) <= 4
  {
    hide RngPiece, Collides, Cleared, Stamp, Count, QueueAhead;
    if LockOf(g, s).Some? {
      AtMostFourCleared(g.board, LockOf(g, s).value);
    }
  }

  lemma SeedKept(g: Game, s: Step)
    requires Playable(g)
    ensures Next(g, s).seed == g.seed
  {
    hide RngPiece, Collides, Cleared, Stamp, ClearLines, Raised, Legal, Topped;
  }

  lemma {:induction false} RunSeed(g: Game, h: History, steps: seq<Step>)
    requires Inv(g, h)
    ensures Run(g, h, steps).0.seed == g.seed
    decreases |steps|
  {
    hide Inv, Next, Observe;
    if steps != [] {
      InvPlayable(g, h);
      StepKeeps(g, h, steps[0]);
      SeedKept(g, steps[0]);
      RunSeed(Next(g, steps[0]), Observe(h, g, steps[0]), steps[1..]);
    }
  }

  // ---- the attack a player earns ----

  /** A step banks exactly what its lock earns, and only the server's taking empties the bank. */
  lemma StepBanks(g: Game, h: History, s: Step)
    requires Inv(g, h)
    ensures Next(g, s).garbageOut == if s.Drain? then 0 else g.garbageOut + Earned(ClearedBy(g, s))
    ensures s.Drain? ==> ClearedBy(g, s) == 0
  {
    hide Collides, LockCycle, Stamp, Cleared, Hold, TurnBy, TryMove, TakeGarbage, NoFullRow, QueueAhead, WellFormed;
    hide CellsConserved, PiecesConserved, ScoreLaw;
    if LockOf(g, s).Some? {
      var p := LockOf(g, s).value;
      if s.Tick? {
        LockBanks(g.(tickCount := g.tickCount + 1), p);
      } else if s == Input(DropAll) {
        LockBanks(g.(active := p), p);
      } else {
        LockBanks(g, p);
      }
    } else if s.Attack? && !g.gameOver {
      AttackShape(g, s.rows);
    } else if s.Input? {
      HandsOff(g);
    }
  }

  lemma LockBanks(g: Game, p: Piece)
    requires Sound(g)
    ensures LockCycle(g, p).garbageOut == g.garbageOut + Earned(Cleared(Stamp(g.board, p)))
  {
    hide RngPiece, Collides, Cleared, Stamp, ClearLines, WellFormed, Points, Earned;
  }

  lemma HandsOff(g: Game)
    requires Sound(g)
    ensures Hold(g).garbageOut == g.garbageOut
    ensures forall dx, dy :: TryMove(g, dx, dy).garbageOut == g.garbageOut
    ensures forall dir :: TurnBy(g, dir).garbageOut == g.garbageOut
  {
    hide RngPiece, Collides, WellFormed, TryRotate;
  }

  /** Rows handed to the server over these steps. */
  ghost function Drained(g: Game, h: History, steps: seq<Step>): nat
    requires Inv(g, h)
    decreases |steps|
  {
    if steps == [] then 0
    else
      StepKeeps(g, h, steps[0]);
      (if steps[0].Drain? && g.garbageOut > 0 then g.garbageOut else 0)
      + Drained(Next(g, steps[0]), Observe(h, g, steps[0]), steps[1..])
  }

  /** No earned attack is dropped or sent twice: over any steps, what was handed over and what is still
      banked is what was banked before and what was earned since. */
  lemma {:induction false} AttackConserved(g: Game, h: History, steps: seq<Step>)
    requires Inv(g, h) && g.garbageOut >= 0
    ensures var (k, after) := Run(g, h, steps);
            Drained(g, h, steps) + k.garbageOut == g.garbageOut + (after.earned - h.earned)
    decreases |steps|
  {
    hide Inv, Next, Observe, ClearedBy;
    if steps != [] {
      InvPlayable(g, h);
      StepKeeps(g, h, steps[0]);
      StepBanks(g, h, steps[0]);
      ObservedEarned(g, h, steps[0]);
      AttackConserved(Next(g, steps[0]), Observe(h, g, steps[0]), steps[1..]);
    }
  }

  lemma ObservedEarned(g: Game, h: History, s: Step)
    requires Playable(g)
    ensures Observe(h, g, s).earned == h.earned + Earned(ClearedBy(g, s))
  {
    hide ClearedBy, LockOf, Draws;
  }

  /** Two players dealt the same seed see the same stream whatever each of them does: once they have
      drawn equally many pieces their queues agree, and while both play so do the pieces they hold. */
  lemma SameStream(seed: U32, wasA: Piece, a: seq<Step>, wasB: Piece, b: seq<Step>)
    ensures Inv(Init(seed, wasA), FRESH) && Inv(Init(seed, wasB), FRESH)
    ensures var (ga, ha) := Run(Init(seed, wasA), FRESH, a);
            var (gb, hb) := Run(Init(seed, wasB), FRESH, b);
            ha.drawn == hb.drawn ==>
              && ga.next == gb.next
              && (!ga.gameOver && !gb.gameOver ==>
                    multiset(ha.locked) + multiset{ga.active.kind} + HeldKinds(ga.hold)
                    == multiset(hb.locked) + multiset{gb.active.kind} + HeldKinds(gb.hold))
  {
    hide Run, Inv, Init, HeldKinds;
    RunView(seed, wasA, a);
    RunView(seed, wasB, b);
    var (ga, ha) := Run(Init(seed, wasA), FRESH, a);
    var (gb, hb) := Run(Init(seed, wasB), FRESH, b);
    if ha.drawn == hb.drawn {
      SameView(ga, ha, gb, hb);
    }
  }

  lemma RunView(seed: U32, was: Piece, steps: seq<Step>)
    ensures Inv(Init(seed, was), FRESH)
    ensures var (g, h) := Run(Init(seed, was), FRESH, steps); Inv(g, h) && g.seed == seed
  {
    hide Inv, Init;
    InitialState(seed, was);
    InitSeed(seed, was);
    RunSeed(Init(seed, was), FRESH, steps);
  }

  lemma SameView(a: Game, ha: History, b: Game, hb: History)
    requires Inv(a, ha) && Inv(b, hb) && a.seed == b.seed && ha.drawn == hb.drawn
    ensures a.next == b.next
    ensures !a.gameOver && !b.gameOver ==>
              multiset(ha.locked) + multiset{a.active.kind} + HeldKinds(a.hold)
              == multiset(hb.locked) + multiset{b.active.kind} + HeldKinds(b.hold)
  {
    hide RngPiece, Nth, NoFullRow, CellsConserved, Legal, Collides, HeldKinds, Dealt, WellFormed;
  }

  lemma InitSeed(seed: U32, was: Piece)
    ensures Init(seed, was).seed == seed
  {
    hide RngPiece, Collides;
  }

  // ---- gravity: a bounded number of ticks between two locks ----

  const PER_PIECE := GRAVITY_TICKS * 23
  const MOST_TICKS := PER_PIECE + PER_PIECE - 1

  /** Ticks the falling piece has left before it must lock, plus what one unused hold can still add. */
  ghost function TicksLeft(g: Game): int {
    GRAVITY_TICKS * (HEIGHT - 1 - g.active.y) - g.tickCount + (if g.holdUsed then 0 else PER_PIECE - 1)
  }

  lemma TicksLeftPositive(g: Game, h: History)
    requires Inv(g, h) && !g.gameOver
    ensures TicksLeft(g) >= if g.holdUsed then 1 else PER_PIECE
  {
    hide RngPiece, Collides, NoFullRow, QueueAhead, CellsConserved, PiecesConserved;
    LegalRows(g.board, g.active);
  }

  /** A freshly spawned piece has at most 919 ticks, even with a hold in between. */
  lemma TicksAfterSpawn(g: Game)
    requires Real(g.active.kind) && g.active == SpawnPlace(g.active.kind) && g.tickCount == 0
    ensures TicksLeft(g) <= MOST_TICKS
    ensures g.holdUsed ==> TicksLeft(g) <= PER_PIECE
  {
  }

  /** A step that neither locks, attacks nor ends the game: a tick uses time up, an input never adds any. */
  lemma TicksLeftDecreases(g: Game, h: History, s: Step)
    requires Inv(g, h) && !g.gameOver && !s.Attack? && LockOf(g, s).None? && !Next(g, s).gameOver
    ensures TicksLeft(Next(g, s)) + (if s.Tick? then 1 else 0) <= TicksLeft(g)
  {
    hide Inv, Collides, Obey, SoftDrop, LockOf;
    InvPlayable(g, h);
    match s
    case Tick => TickUsesTime(g, h);
    case Input(m) => InputAddsNoTime(g, h, m);
    case Drain =>
  }

  lemma FallUsesTime(g: Game)
    requires Sound(g) && !Collides(g.board, Moved(g.active, 0, 1)) && 0 <= g.tickCount <= GRAVITY_TICKS
    ensures TicksLeft(SoftDrop(g)) == TicksLeft(g) - GRAVITY_TICKS + g.tickCount
  {
    hide Collides, LockCycle;
  }

  lemma TickUsesTime(g: Game, h: History)
    requires Inv(g, h) && !g.gameOver && LockOf(g, Tick).None?
    ensures TicksLeft(Next(g, Tick)) + 1 <= TicksLeft(g)
  {
    hide Collides, SoftDrop, NoFullRow, QueueAhead, CellsConserved, PiecesConserved, ScoreLaw, WellFormed;
    if g.tickCount + 1 >= g.tickTrigger {
      FallUsesTime(g.(tickCount := g.tickCount + 1));
    }
  }

  lemma InputAddsNoTime(g: Game, h: History, m: Move)
    requires Inv(g, h) && !g.gameOver && LockOf(g, Input(m)).None? && !Obey(g, m).gameOver
    ensures TicksLeft(Obey(g, m)) <= TicksLeft(g)
  {
    hide Collides, SoftDrop, Hold, HardDrop, NoFullRow, QueueAhead, CellsConserved, PiecesConserved, ScoreLaw;
    hide WellFormed, TryRotate;
    if m == HoldPiece {
      HoldAddsNoTime(g, h);
    } else if m == DropOne {
      FallUsesTime(g);
    } else if m == TurnLeft || m == TurnRight {
      TurnKeepsRow(g, if m == TurnLeft then -1 else 1);
    }
  }

  lemma TurnKeepsRow(g: Game, dir: int)
    requires Sound(g)
    ensures TurnBy(g, dir).active.y == g.active.y
  {
    hide Collides, WellFormed;
  }

  lemma HoldAddsNoTime(g: Game, h: History)
    requires Inv(g, h) && !g.gameOver && !Hold(g).gameOver
    ensures TicksLeft(Hold(g)) <= TicksLeft(g)
  {
    if !g.holdUsed {
      hide Inv, Hold;
      TicksLeftPositive(g, h);
      HoldSpawns(g, h);
      TicksAfterSpawn(Hold(g));
    }
  }

  lemma HoldSpawns(g: Game, h: History)
    requires Inv(g, h) && !g.gameOver && !g.holdUsed && !Hold(g).gameOver
    ensures var n := Hold(g);
            Real(n.active.kind) && n.active == SpawnPlace(n.active.kind) && n.tickCount == 0 && n.holdUsed
  {
    hide RngPiece, Collides, NoFullRow, CellsConserved, PiecesConserved;
    if g.hold == NoPiece {
      SpawnNextFacts(g.(holdUsed := true, hold := g.active.kind), h.drawn);
    }
  }

  /** Steps without an attack, during which no piece locks and the game stays on. */
  ghost predicate LockFree(g: Game, h: History, steps: seq<Step>)
    requires Inv(g, h)
    decreases |steps|
  {
    && !g.gameOver
    && (steps != [] ==>
          && !steps[0].Attack? && LockOf(g, steps[0]).None?
          && (StepKeeps(g, h, steps[0]); LockFree(Next(g, steps[0]), Observe(h, g, steps[0]), steps[1..])))
  }

  ghost function Ticks(steps: seq<Step>): nat {
    if steps == [] then 0 else (if steps[0].Tick? then 1 else 0) + Ticks(steps[1..])
  }

  lemma {:induction false} LockFreeTicks(g: Game, h: History, steps: seq<Step>)
    requires Inv(g, h) && LockFree(g, h, steps)
    ensures Ticks(steps) < TicksLeft(g)
    decreases |steps|
  {
    hide Inv, Next, Observe, TicksLeft;
    if steps == [] {
      TicksLeftPositive(g, h);
    } else {
      InvPlayable(g, h);
      StepKeeps(g, h, steps[0]);
      LockFreeTicks(Next(g, steps[0]), Observe(h, g, steps[0]), steps[1..]);
      TicksLeftDecreases(g, h, steps[0]);
    }
  }

  /** From any spawn, whatever is pressed, fewer than 919 ticks pass without a lock, an attack or
      the end of the game; fewer than 460 once the hold is used. */
  lemma LockWithinBound(g: Game, h: History, steps: seq<Step>)
    requires Inv(g, h) && g.active == SpawnPlace(g.active.kind) && g.tickCount == 0
    requires LockFree(g, h, steps)
    ensures Ticks(steps) < MOST_TICKS == 919
    ensures g.holdUsed ==> Ticks(steps) < PER_PIECE == 460
  {
    hide RngPiece, Collides, NoFullRow, QueueAhead, CellsConserved, PiecesConserved, Next, Observe;
    LockFreeTicks(g, h, steps);
    TicksAfterSpawn(g);
  }

  /** A lock that does not end the game leaves a fresh piece at its spawn place, the timer at zero. */
  lemma LockSpawns(g: Game, h: History, s: Step)
    requires Inv(g, h) && LockOf(g, s).Some? && !Next(g, s).gameOver
    ensures var n := Next(g, s); n.active == SpawnPlace(n.active.kind) && n.tickCount == 0 && Real(n.active.kind)
  {
    hide RngPiece, Collides, LockCycle, Stamp, Cleared, Count, CellsConserved, ScoreLaw, NoFullRow, QueueAhead, WellFormed;
    var p := LockOf(g, s).value;
    if s.Tick? {
      SameQueue(g, g.(tickCount := g.tickCount + 1), h.drawn);
      LockFacts(g.(tickCount := g.tickCount + 1), h.drawn, p);
    } else if s == Input(DropAll) {
      SameQueue(g, g.(active := p), h.drawn);
      LockFacts(g.(active := p), h.drawn, p);
    } else {
      LockFacts(g, h.drawn, p);
    }
  }

  /** The state and history after these steps of a new game. */
  ghost predicate Reached(seed: U32, was: Piece, steps: seq<Step>, g: Game, h: History) {
    Inv(Init(seed, was), FRESH) && (g, h) == Run(Init(seed, was), FRESH, steps)
  }

  /** Between two consecutive locks of any run, whatever is pressed and unless an attack arrives or the
      game ends in between, fewer than 919 ticks pass. */
  lemma BetweenLocks(seed: U32, was: Piece, before: seq<Step>, g: Game, h: History, s: Step, between: seq<Step>)
    requires Reached(seed, was, before, g, h)
    ensures Inv(g, h) && Inv(Next(g, s), Observe(h, g, s))
    ensures LockOf(g, s).Some? && LockFree(Next(g, s), Observe(h, g, s), between) ==> Ticks(between) < MOST_TICKS
  {
    hide Inv, Init, Run, Next, Observe, LockOf, LockFree, Ticks;
    RunView(seed, was, before);
    InvPlayable(g, h);
    StepKeeps(g, h, s);
    if LockOf(g, s).Some? && LockFree(Next(g, s), Observe(h, g, s), between) {
      AfterLock(g, h, s, between);
    }
  }

  /** So from the start to the first lock. */
  lemma UntilFirstLock(seed: U32, was: Piece, between: seq<Step>)
    ensures Inv(Init(seed, was), FRESH)
    ensures LockFree(Init(seed, was), FRESH, between) ==> Ticks(between) < MOST_TICKS
  {
    hide Inv, Init, LockFree, Ticks, Nth;
    InitialState(seed, was);
    var g := Init(seed, was);
    assert g.active == SpawnPlace(g.active.kind);
    if LockFree(g, FRESH, between) {
      LockWithinBound(g, FRESH, between);
    }
  }

  lemma AfterLock(g: Game, h: History, s: Step, between: seq<Step>)
    requires Inv(g, h) && LockOf(g, s).Some? && Inv(Next(g, s), Observe(h, g, s))
    requires LockFree(Next(g, s), Observe(h, g, s), between)
    ensures Ticks(between) < MOST_TICKS
  {
    hide Inv, Next, Observe, LockOf, LockFree, SpawnPlace, Ticks;
    InvPlayable(g, h);
    LockFreeIsOn(Next(g, s), Observe(h, g, s), between);
    LockSpawns(g, h, s);
    LockWithinBound(Next(g, s), Observe(h, g, s), between);
  }

  lemma LockFreeIsOn(g: Game, h: History, steps: seq<Step>)
    requires Inv(g, h) && LockFree(g, h, steps)
    ensures !g.gameOver
  {
    hide Inv;
  }
}
