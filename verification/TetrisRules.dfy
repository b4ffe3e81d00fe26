/** The rules as a player sees them, in terms of the cells a piece covers. */
module TetrisRules {
  import opened Basics
  import opened TetrisPiece
  import opened TetrisBoard
  import opened TetrisGame
  import opened TetrisRuns

  // ---- cells ----

  /** The piece covers the board cell at row r, column c. */
  predicate Covers(p: Piece, r: int, c: int) {
    Filled(p, r - p.y, c - p.x)
  }

  ghost predicate Free(b: Board, r: int, c: int)
    requires WellFormed(b)
  {
    0 <= r < HEIGHT && 0 <= c < WIDTH && b[r][c] == NoPiece
  }

  /** Shifted, the piece fits exactly where every cell it covers, shifted, is free. */
  lemma ShiftedFits(b: Board, p: Piece, dx: int, dy: int)
    requires WellFormed(b)
    ensures !Collides(b, Moved(p, dx, dy)) <==> forall r, c :: Covers(p, r, c) ==> Free(b, r + dy, c + dx)
  {
    hide Grid, Size;
    var q := Moved(p, dx, dy);
    ShapeMoves(p, dx, dy);
    if !Collides(b, q) {
      forall r, c | Covers(p, r, c) ensures Free(b, r + dy, c + dx) {
        assert Filled(q, r - p.y, c - p.x);
        assert !Blocked(b, q.y + (r - p.y), q.x + (c - p.x));
      }
    } else {
      var i, j :| Filled(q, i, j) && Blocked(b, q.y + i, q.x + j);
      assert Covers(p, p.y + i, p.x + j) && !Free(b, p.y + i + dy, p.x + j + dx);
    }
  }

  lemma ShapeMoves(p: Piece, dx: int, dy: int)
    ensures forall r, c :: Filled(Moved(p, dx, dy), r, c) == Filled(p, r, c)
  {
    hide Grid, Size;
  }

  /** A 3x3 grid turned a quarter clockwise. */
  function TurnedThree(g: seq<int>): seq<int>
    requires |g| == 9
  {
    [g[6], g[3], g[0], g[7], g[4], g[1], g[8], g[5], g[2]]
  }

  function TurnedFour(g: seq<int>): seq<int>
    requires |g| == 16
  {
    [g[12], g[8], g[4], g[0], g[13], g[9], g[5], g[1], g[14], g[10], g[6], g[2], g[15], g[11], g[7], g[3]]
  }

  lemma TurnedThreeAt(g: seq<int>, r: int, c: int)
    requires |g| == 9 && 0 <= r < 3 && 0 <= c < 3
    ensures TurnedThree(g)[r * 3 + c] == g[(2 - c) * 3 + r]
  {
    if r == 0 {
      assert c == 0 || c == 1 || c == 2;
    } else if r == 1 {
      assert c == 0 || c == 1 || c == 2;
    } else {
      assert c == 0 || c == 1 || c == 2;
    }
  }

  lemma TurnedFourAt(g: seq<int>, r: int, c: int)
    requires |g| == 16 && 0 <= r < 4 && 0 <= c < 4
    ensures TurnedFour(g)[r * 4 + c] == g[(3 - c) * 4 + r]
  {
    if r == 0 {
      assert c == 0 || c == 1 || c == 2 || c == 3;
    } else if r == 1 {
      assert c == 0 || c == 1 || c == 2 || c == 3;
    } else if r == 2 {
      assert c == 0 || c == 1 || c == 2 || c == 3;
    } else {
      assert c == 0 || c == 1 || c == 2 || c == 3;
    }
  }

  lemma GridTurns(k: Kind, rot: int)
    requires 0 <= rot < ROTATIONS && Size(k) == 3
    ensures |Grid(k, rot)| == 9 && Grid(k, (rot + 1) % ROTATIONS) == TurnedThree(Grid(k, rot))
  {
    if rot == 0 {
    } else if rot == 1 {
    } else if rot == 2 {
    } else {
    }
  }

  lemma LongGridTurns(rot: int)
    requires 0 <= rot < ROTATIONS
    ensures |Grid(I, rot)| == 16 && Grid(I, (rot + 1) % ROTATIONS) == TurnedFour(Grid(I, rot))
  {
    if rot == 0 {
    } else if rot == 1 {
    } else if rot == 2 {
    } else {
    }
  }

  /** A turn by one step is a quarter turn clockwise of the piece's box. */
  lemma QuarterTurn(p: Piece, r: int, c: int)
    requires 0 <= p.rot < ROTATIONS
    ensures Filled(Rotated(p, 1), r, c) <==> Filled(p, Size(p.kind) - 1 - c, r)
  {
    if p.kind == I {
      LongTurn(p, r, c);
    } else if Size(p.kind) == 3 {
      ThreeTurn(p, r, c);
    } else if p.kind == O && 0 <= r < 2 && 0 <= c < 2 {
      SquareFilled(p, 1 - c, r);
      SquareFilled(Rotated(p, 1), r, c);
    }
  }

  lemma LongTurn(p: Piece, r: int, c: int)
    requires 0 <= p.rot < ROTATIONS && p.kind == I
    ensures Filled(Rotated(p, 1), r, c) <==> Filled(p, 3 - c, r)
  {
    hide Grid;
    if 0 <= r < 4 && 0 <= c < 4 {
      LongGridTurns(p.rot);
      TurnedFourAt(Grid(I, p.rot), r, c);
    }
  }

  lemma ThreeTurn(p: Piece, r: int, c: int)
    requires 0 <= p.rot < ROTATIONS && Size(p.kind) == 3
    ensures Filled(Rotated(p, 1), r, c) <==> Filled(p, 2 - c, r)
  {
    hide Grid;
    if 0 <= r < 3 && 0 <= c < 3 {
      GridTurns(p.kind, p.rot);
      TurnedThreeAt(Grid(p.kind, p.rot), r, c);
    }
  }

  lemma SquareFilled(p: Piece, r: int, c: int)
    requires p.kind == O && 0 <= r < 2 && 0 <= c < 2
    ensures Filled(p, r, c)
  {
  }

  // ---- turning ----

  /** dx is the nearest sideways shift at which q fits, none at all before any, right before left. */
  ghost predicate Nearest(b: Board, q: Piece, dx: int)
    requires WellFormed(b)
  {
    && Abs(dx) <= Size(q.kind) && !Collides(b, Moved(q, dx, 0))
    && (forall d :: Abs(d) < Abs(dx) ==> Collides(b, Moved(q, d, 0)))
    && (dx < 0 ==> Collides(b, Moved(q, -dx, 0)))
  }

  /** A turn is refused exactly when no shift by up to the box's side fits, and otherwise ends at the
      nearest that does. */
  lemma TurnRule(b: Board, p: Piece, dir: int)
    requires WellFormed(b)
    ensures var q := Rotated(p, dir);
            && (TryRotate(b, p, dir).None? <==> forall d :: -Size(p.kind) <= d <= Size(p.kind) ==> Collides(b, Moved(q, d, 0)))
            && (forall dx :: Nearest(b, q, dx) ==> TryRotate(b, p, dir) == Some(Moved(q, dx, 0)))
  {
    hide Collides, Filled;
    var q := Rotated(p, dir);
    assert Moved(q, 0, 0) == q;
    if Collides(b, q) {
      var k := Kick(b, q, 1);
      if k.None? {
        forall d | -Size(p.kind) <= d <= Size(p.kind) ensures Collides(b, Moved(q, d, 0)) {
          assert d != 0 ==> NoKick(b, q, Abs(d));
        }
      } else {
        forall dx | Nearest(b, q, dx) ensures dx == k.value {
          KickIsNearest(b, q, k.value, dx);
        }
      }
    } else {
      forall dx | Nearest(b, q, dx) ensures dx == 0 {
      }
    }
  }

  lemma KickIsNearest(b: Board, q: Piece, k: int, dx: int)
    requires WellFormed(b) && Collides(b, q) && FirstKick(b, q, 1, k) && !Collides(b, Moved(q, k, 0)) && Nearest(b, q, dx)
    ensures dx == k
  {
    hide Collides, Filled;
    assert Moved(q, 0, 0) == q;
    assert 0 < Abs(dx) < Abs(k) ==> NoKick(b, q, Abs(dx));
  }

  // ---- inputs ----

  /** Left and right shift the covered cells by one column, exactly when all of them have a free cell to
      go to, and otherwise do nothing. */
  lemma SidewaysRule(g: Game, m: Move)
    requires Playable(g) && !g.gameOver && (m == Left || m == Right)
    ensures var n, dx := Next(g, Input(m)), if m == Left then -1 else 1;
            && n == g.(active := n.active)
            && (if forall r, c :: Covers(g.active, r, c) ==> Free(g.board, r, c + dx)
                then forall r, c :: Covers(n.active, r, c + dx) == Covers(g.active, r, c)
                else n == g)
  {
    hide Collides, Filled, WellFormed, SoftDrop, HardDrop, Hold, TurnBy;
    var dx := if m == Left then -1 else 1;
    ShiftedFits(g.board, g.active, dx, 0);
    CellsShift(g.active, dx, 0);
  }

  lemma CellsShift(p: Piece, dx: int, dy: int)
    ensures forall r, c :: Covers(Moved(p, dx, dy), r + dy, c + dx) == Covers(p, r, c)
  {
    hide Filled;
    ShapeMoves(p, dx, dy);
    forall r, c ensures Covers(Moved(p, dx, dy), r + dy, c + dx) == Covers(p, r, c) {
      assert Filled(Moved(p, dx, dy), r - p.y, c - p.x) == Filled(p, r - p.y, c - p.x);
    }
  }

  /** A soft drop shifts the covered cells down one row and restarts the timer, exactly when all of them
      have a free cell to go to, and otherwise locks the piece where it is. */
  lemma DropRule(g: Game)
    requires Playable(g) && !g.gameOver
    ensures var n := Next(g, Input(DropOne));
            if forall r, c :: Covers(g.active, r, c) ==> Free(g.board, r + 1, c)
            then && n == g.(active := n.active, tickCount := 0)
                 && (forall r, c :: Covers(n.active, r + 1, c) == Covers(g.active, r, c))
                 && LockOf(g, Input(DropOne)) == None
            else LockOf(g, Input(DropOne)) == Some(g.active) && n.tickCount == 0
  {
    hide Collides, Filled, WellFormed, LockCycle;
    ShiftedFits(g.board, g.active, 0, 1);
    CellsShift(g.active, 0, 1);
  }

  /** Turning right turns the piece a quarter clockwise in its box, left the other way round, shifted to
      the nearest place that fits; when none does the game stays as it was. */
  lemma TurnInputRule(g: Game, m: Move)
    requires Playable(g) && !g.gameOver && (m == TurnRight || m == TurnLeft)
    ensures var n, q := Next(g, Input(m)), Rotated(g.active, if m == TurnRight then 1 else -1);
            && n == g.(active := n.active)
            && ((forall d :: -Size(q.kind) <= d <= Size(q.kind) ==> Collides(g.board, Moved(q, d, 0))) ==> n == g)
            && (forall dx :: Nearest(g.board, q, dx) ==> n.active == Moved(q, dx, 0))
            && (if m == TurnRight then QuarterOf(g.active, q) else QuarterOf(q, g.active))
  {
    hide Collides, Filled, WellFormed, TryRotate;
    var dir := if m == TurnRight then 1 else -1;
    TurnRule(g.board, g.active, dir);
    var q := Rotated(g.active, dir);
    if m == TurnRight {
      TurnsClockwise(g.active);
    } else {
      TurnsClockwise(q);
      assert Rotated(q, 1) == g.active;
    }
  }

  /** q is p turned a quarter clockwise in its box. */
  ghost predicate QuarterOf(p: Piece, q: Piece) {
    q.kind == p.kind && forall r, c :: Filled(q, r, c) == Filled(p, Size(p.kind) - 1 - c, r)
  }

  lemma TurnsClockwise(p: Piece)
    requires 0 <= p.rot < ROTATIONS
    ensures QuarterOf(p, Rotated(p, 1))
  {
    hide Filled;
    forall r, c ensures Filled(Rotated(p, 1), r, c) == Filled(p, Size(p.kind) - 1 - c, r) {
      QuarterTurn(p, r, c);
    }
  }

  // ---- gravity ----

  function Wait(k: nat): seq<Step> {
    if k == 0 then [] else [Tick] + Wait(k - 1)
  }

  /** Left alone, a piece falls exactly one row every twenty ticks while the rows below are free, and
      nothing else happens. */
  lemma {:induction false} FreeFall(g: Game, h: History, k: nat)
    requires Inv(g, h) && !g.gameOver
    requires forall y :: g.active.y < y <= g.active.y + (g.tickCount + k) / GRAVITY_TICKS ==> !Collides(g.board, AtRow(g.active, y))
    ensures var t := g.tickCount + k;
            Run(g, h, Wait(k))
            == (g.(active := AtRow(g.active, g.active.y + t / GRAVITY_TICKS), tickCount := t % GRAVITY_TICKS), h)
    decreases k
  {
    hide Collides, SoftDrop, NoFullRow, QueueAhead, CellsConserved, PiecesConserved, ScoreLaw, WellFormed, Observe;
    if k == 0 {
      assert g == g.(active := AtRow(g.active, g.active.y), tickCount := g.tickCount);
    } else {
      assert Wait(k)[1..] == Wait(k - 1);
      StepKeeps(g, h, Tick);
      TickFalls(g, h);
      var n := Next(g, Tick);
      assert Observe(h, g, Tick) == h;
      assert n.active.y + (n.tickCount + (k - 1)) / GRAVITY_TICKS == g.active.y + (g.tickCount + k) / GRAVITY_TICKS;
      forall y | n.active.y < y <= n.active.y + (n.tickCount + (k - 1)) / GRAVITY_TICKS
        ensures !Collides(n.board, AtRow(n.active, y))
      {
        assert AtRow(n.active, y) == AtRow(g.active, y);
      }
      FreeFall(n, h, k - 1);
    }
  }

  /** One tick with a free row below. */
  lemma TickFalls(g: Game, h: History)
    requires Inv(g, h) && !g.gameOver
    requires g.tickCount + 1 == GRAVITY_TICKS ==> !Collides(g.board, AtRow(g.active, g.active.y + 1))
    ensures var n := Next(g, Tick);
            && n == (if g.tickCount + 1 < GRAVITY_TICKS then g.(tickCount := g.tickCount + 1)
                     else g.(active := AtRow(g.active, g.active.y + 1), tickCount := 0))
            && Observe(h, g, Tick) == h
  {
    hide Collides, NoFullRow, QueueAhead, CellsConserved, PiecesConserved, ScoreLaw, WellFormed, LockCycle;
    assert Moved(g.active, 0, 1) == AtRow(g.active, g.active.y + 1);
  }

  // ---- attacks ----

  /** An attack ends the game exactly when it pushes locked cells off the top or leaves the falling piece
      nowhere at or above its place to go. */
  lemma AttackEnds(g: Game, n: int)
    requires Playable(g) && !g.gameOver
    ensures WellFormed(Raised(g.board, Rows(n)))
    ensures Next(g, Attack(n)).gameOver <==>
              || (exists r, c :: 0 <= r < Rows(n) && 0 <= c < WIDTH && g.board[r][c] != NoPiece)
              || (forall y :: y <= g.active.y ==> Collides(Raised(g.board, Rows(n)), AtRow(g.active, y)))
  {
    hide Collides, Raised;
    RaisedFacts(g.board, Rows(n));
  }

  /** Where every cell of a raised board comes from. */
  lemma RaisedCells(b: Board, n: nat, r: int, c: int)
    requires WellFormed(b) && n <= HEIGHT && 0 <= r < HEIGHT && 0 <= c < WIDTH
    ensures WellFormed(Raised(b, n))
    ensures Raised(b, n)[r][c]
            == if r + n < HEIGHT then b[r + n][c] else if c == GARBAGE_HOLE then NoPiece else Garbage
  {
    RaisedFacts(b, n);
  }

  // ---- spawning ----

  /** A new piece lies wholly in the rows above the visible field, in columns 3 to 6. */
  lemma SpawnsAboveTheField(k: Kind, r: int, c: int)
    requires Real(k) && Covers(SpawnPlace(k), r, c)
    ensures BUFFER_HEIGHT - 3 <= r < BUFFER_HEIGHT && 3 <= c <= 6
  {
    var n := Size(k);
    var i, j := r - (BUFFER_HEIGHT - n), c - 3;
    assert Filled(SpawnPlace(k), i, j);
  }

  lemma SpawnsAtColumnThree(k: Kind)
    requires Real(k)
    ensures exists r :: Covers(SpawnPlace(k), r, 3)
  {
    var p := SpawnPlace(k);
    var i := if k == Z then 0 else 1;
    assert Filled(p, i, 0);
    assert Covers(p, p.y + i, 3);
  }
}
