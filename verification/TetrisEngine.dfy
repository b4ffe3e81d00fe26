/**
 * The engine as it runs: one mutable board updated in place, each operation proved against the
 * value-level rules (tetriSH/src/libtetrisbrain/board.c, action.c, tetrisbrain.c).
 */
module TetrisEngine {
  import opened Word32
  import opened TetrisPiece
  import B = TetrisBoard
  import G = TetrisGame
  import R = TetrisRuns

  /** The rows of a playfield array. */
  ghost function Rows(a: array2<Kind>): (b: B.Board)
    requires a.Length0 == B.HEIGHT && a.Length1 == B.WIDTH
    reads a
    ensures B.WellFormed(b)
    ensures forall r, c :: 0 <= r < B.HEIGHT && 0 <= c < B.WIDTH ==> b[r][c] == a[r, c]
  {
    seq(B.HEIGHT, r requires 0 <= r < B.HEIGHT reads a =>
      seq(B.WIDTH, c requires 0 <= c < B.WIDTH reads a => a[r, c]))
  }

  class GameState {
    const board: array2<Kind>
    const next: array<Kind>
    var active: Piece
    var hold: Kind
    var holdUsed: bool
    var score: int
    var lines: int
    var level: int
    var tickCount: int
    var tickTrigger: int
    var seed: U32
    var counter: U32
    var gameOver: bool
    var garbageOut: int

    /** A struct of the right shape with arbitrary contents, as its owner allocates it. */
    constructor ()
      ensures Valid() && fresh(board) && fresh(next)
    {
      board := new Kind[B.HEIGHT, B.WIDTH]((r, c) => NoPiece);
      next := new Kind[G.QUEUE](i => NoPiece);
    }

    ghost predicate Valid()
      reads this
    {
      && board.Length0 == B.HEIGHT
      && board.Length1 == B.WIDTH
      && next.Length == G.QUEUE
    }

    /** The game this object holds. */
    ghost function Value(): (g: G.Game)
      requires Valid()
      reads this, board, next
      ensures G.Sound(g)
    {
      G.Game(Rows(board), active, next[..], hold, holdUsed, score, lines, level, tickCount, tickTrigger,
             seed, counter, gameOver, garbageOut)
    }

    // ---- board.c ----

    /** board_collides */
    method Collides(p: Piece) returns (hit: bool)
      requires Valid()
      ensures hit <==> B.Collides(Rows(board), p)
    {
      hide Grid;
      var n := Size(p.kind);
      ghost var b := Rows(board);
      for r := 0 to n
        invariant forall i, j :: 0 <= i < r && Filled(p, i, j) ==> !B.Blocked(b, p.y + i, p.x + j)
      {
        for c := 0 to n
          invariant forall i, j :: 0 <= i < r && Filled(p, i, j) ==> !B.Blocked(b, p.y + i, p.x + j)
          invariant forall j :: 0 <= j < c && Filled(p, r, j) ==> !B.Blocked(b, p.y + r, p.x + j)
        {
          if !Filled(p, r, c) {
            continue;
          }
          var col := p.x + c;
          var row := p.y + r;
          if col < 0 || col >= B.WIDTH || row < 0 || row >= B.HEIGHT {
            return true;
          }
          if board[row, col] != NoPiece {
            return true;
          }
        }
      }
      return false;
    }

    /** board_spawn_piece */
    method SpawnPiece(k: Kind) returns (ok: bool)
      requires Valid()
      modifies this
      ensures Valid() && (Value(), ok) == G.SpawnPiece(old(Value()), k)
    {
      var p := Piece(k, 0, 3, B.BUFFER_HEIGHT - Size(k));
      var hit := Collides(p);
      if hit {
        return false;
      }
      active := p;
      tickCount := 0;
      return true;
    }

    /** board_lock */
    method Lock(p: Piece)
      requires Valid()
      modifies board, this`holdUsed
      ensures Valid() && Value() == old(Value()).(board := B.Stamp(old(Rows(board)), p), holdUsed := false)
    {
      hide Grid;
      var n := Size(p.kind);
      for r := 0 to n
        invariant forall i, j :: 0 <= i < B.HEIGHT && 0 <= j < B.WIDTH ==>
                    board[i, j] == if Filled(p, i - p.y, j - p.x) && i - p.y < r then p.kind else old(board[i, j])
      {
        for c := 0 to n
          invariant forall i, j :: 0 <= i < B.HEIGHT && 0 <= j < B.WIDTH ==>
                      board[i, j] == if Filled(p, i - p.y, j - p.x) && (i - p.y < r || (i - p.y == r && j - p.x < c))
                                     then p.kind else old(board[i, j])
        {
          if !Filled(p, r, c) {
            continue;
          }
          var col := p.x + c;
          var row := p.y + r;
          if col < 0 || col >= B.WIDTH || row < 0 || row >= B.HEIGHT {
            continue;
          }
          board[row, col] := p.kind;
        }
      }
      holdUsed := false;
      B.SameCells(Rows(board), B.Stamp(old(Rows(board)), p));
    }

    /** row_full */
    method RowFull(row: int) returns (full: bool)
      requires Valid() && 0 <= row < B.HEIGHT
      ensures full <==> B.FullRow(Rows(board)[row])
    {
      for c := 0 to B.WIDTH
        invariant forall j :: 0 <= j < c ==> board[row, j] != NoPiece
      {
        if board[row, c] == NoPiece {
          assert Rows(board)[row][c] == NoPiece;
          return false;
        }
      }
      return true;
    }

    /** One row copied over another. */
    method CopyRow(dst: int, src: int)
      requires Valid() && 0 <= dst < B.HEIGHT && 0 <= src < B.HEIGHT
      modifies board
      ensures Rows(board) == old(Rows(board))[dst := old(Rows(board))[src]]
    {
      for c := 0 to B.WIDTH
        invariant forall i, j :: 0 <= i < B.HEIGHT && 0 <= j < B.WIDTH ==>
                    board[i, j] == if i == dst && j < c then old(board[src, j]) else old(board[i, j])
      {
        board[dst, c] := board[src, c];
      }
      B.SameCells(Rows(board), old(Rows(board))[dst := old(Rows(board))[src]]);
    }

    /** One row filled with `k`, except that column `hole` is left empty. */
    method FillRow(row: int, k: Kind, hole: int)
      requires Valid() && 0 <= row < B.HEIGHT
      modifies board
      ensures forall i :: 0 <= i < B.HEIGHT && i != row ==> Rows(board)[i] == old(Rows(board))[i]
      ensures forall j :: 0 <= j < B.WIDTH ==> Rows(board)[row][j] == if j == hole then NoPiece else k
    {
      for c := 0 to B.WIDTH
        invariant forall i, j :: 0 <= i < B.HEIGHT && 0 <= j < B.WIDTH && i != row ==> board[i, j] == old(board[i, j])
        invariant forall j :: 0 <= j < c ==> board[row, j] == if j == hole then NoPiece else k
      {
        board[row, c] := if c == hole then NoPiece else k;
      }
    }

    /** board_clear_lines: the in-place compaction is the filter of full rows. */
    method ClearLines() returns (cleared: int)
      requires Valid()
      modifies board
      ensures Rows(board) == B.ClearLines(old(Rows(board)))
      ensures cleared == B.Cleared(old(Rows(board)))
    {
      cleared := Compact();
      EmptyTop(cleared);
    }

    /** The upward scan: rows that are not full are copied down to `dst`. */
    method Compact() returns (cleared: int)
      requires Valid()
      modifies board
      ensures cleared == B.Cleared(old(Rows(board)))
      ensures Rows(board)[cleared..] == B.Survivors(old(Rows(board)))
    {
      ghost var was := Rows(board);
      cleared := 0;
      var dst := B.HEIGHT - 1;
      var src := B.HEIGHT - 1;
      while src >= 0
        invariant -1 <= src <= dst < B.HEIGHT && cleared == dst - src
        invariant Rows(board)[dst + 1..] == B.Survivors(was[src + 1..])
        invariant forall i :: 0 <= i <= src ==> Rows(board)[i] == was[i]
      {
        var full := RowFull(src);
        B.SurvivorsFrom(was, src);
        ghost var before := Rows(board);
        if full {
          cleared := cleared + 1;
        } else {
          if dst != src {
            CopyRow(dst, src);
          }
          assert Rows(board)[dst..] == [was[src]] + before[dst + 1..];
          dst := dst - 1;
        }
        src := src - 1;
      }
      assert was[0..] == was;
    }

    /** The closing loop: the vacated rows are emptied. */
    method EmptyTop(n: int)
      requires Valid() && 0 <= n <= B.HEIGHT
      modifies board
      ensures Rows(board) == B.Repeat(B.EmptyRow(), n) + old(Rows(board))[n..]
    {
      ghost var was := Rows(board);
      var dst := n - 1;
      while dst >= 0
        invariant -1 <= dst < n
        invariant forall i :: 0 <= i < B.HEIGHT ==> Rows(board)[i] == if dst < i < n then B.EmptyRow() else was[i]
      {
        FillRow(dst, NoPiece, -1);
        assert Rows(board)[dst] == B.EmptyRow();
        dst := dst - 1;
      }
    }

    /** board_add_garbage: the stack rises, garbage is laid underneath, a buried piece is lifted to
        the nearest free position, and false means cells left the top or the piece had nowhere to go. */
    method AddGarbage(count: int) returns (ok: bool)
      requires Valid() && (Real(active.kind) ==> 0 <= active.rot < ROTATIONS)
      modifies board, this`active
      ensures count <= 0 ==> ok && Value() == old(Value())
      ensures count > 0 ==>
                var n := G.Rows(count);
                var b := B.Raised(old(Rows(board)), n);
                var topped := B.Topped(old(Rows(board)), n);
                && B.WellFormed(b)
                && Value() == old(Value()).(board := b, active := active)
                && (!Real(active.kind) ==> active == old(active) && ok == !topped)
                && (Real(old(active.kind)) ==>
                      match B.LiftTo(b, old(active))
                      case Some(p) => active == p && ok == !topped
                      case None => active == OffTop(old(active)) && !ok)
    {
      hide B.Raised, B.Topped, B.Collides, B.LiftTo;
      if count <= 0 {
        return true;
      }
      var rows := if count > B.HEIGHT then B.HEIGHT else count;
      B.RaisedFacts(Rows(board), rows);
      var topped := CellsInTop(rows);
      Raise(rows);
      var free := LiftActive();
      return free && !topped;
    }

    /** Walk the active piece up until it is clear, or report that it ran off the top. */
    method LiftActive() returns (ok: bool)
      requires Valid() && (Real(active.kind) ==> 0 <= active.rot < ROTATIONS)
      modifies this`active
      ensures !Real(active.kind) ==> active == old(active) && ok
      ensures active.kind == old(active.kind)
      ensures Real(active.kind) ==>
                match B.LiftTo(Rows(board), old(active))
                case Some(p) => active == p && ok
                case None => active == OffTop(old(active)) && !ok
    {
      hide Filled, B.Collides, Grid;
      var buried := Buried();
      while buried
        invariant buried <==> active.kind != NoPiece && B.Collides(Rows(board), active)
        invariant active.kind == old(active.kind) && active.rot == old(active.rot) && active.x == old(active.x)
        invariant Real(active.kind) ==> B.LiftTo(Rows(board), active) == B.LiftTo(Rows(board), old(active))
        invariant Real(active.kind) ==> active.y >= 0 - Size(active.kind) || active == old(active)
        invariant !Real(active.kind) ==> active == old(active)
        decreases active.y + Size(active.kind)
      {
        B.OnlyRealCollides(Rows(board), active);
        if active.y <= 0 - Size(active.kind) {
          return false;
        }
        active := Moved(active, 0, -1);
        buried := Buried();
      }
      return true;
    }

    /** The lifting loop's guard. */
    method Buried() returns (hit: bool)
      requires Valid()
      ensures hit <==> active.kind != NoPiece && B.Collides(Rows(board), active)
    {
      if active.kind == NoPiece {
        return false;
      }
      hit := Collides(active);
    }

    method CellsInTop(rows: int) returns (topped: bool)
      requires Valid() && 0 <= rows <= B.HEIGHT
      ensures topped <==> B.Topped(Rows(board), rows)
    {
      topped := false;
      var r := 0;
      while r < rows && !topped
        invariant 0 <= r <= rows
        invariant topped ==> B.Topped(Rows(board), rows)
        invariant !topped ==> forall i, j :: 0 <= i < r && 0 <= j < B.WIDTH ==> board[i, j] == NoPiece
      {
        for c := 0 to B.WIDTH
          invariant !topped && forall j :: 0 <= j < c ==> board[r, j] == NoPiece
        {
          if board[r, c] != NoPiece {
            assert Rows(board)[r][c] != NoPiece;
            topped := true;
            break;
          }
        }
        r := r + 1;
      }
    }

    /** The stack lifted and the new rows laid in underneath. */
    method Raise(rows: int)
      requires Valid() && 0 < rows <= B.HEIGHT
      modifies board
      ensures Rows(board) == B.Raised(old(Rows(board)), rows)
    {
      LiftStack(rows);
      LayGarbage(rows);
      assert Rows(board)[..B.HEIGHT - rows] + Rows(board)[B.HEIGHT - rows..] == Rows(board);
    }

    method LiftStack(rows: int)
      requires Valid() && 0 < rows <= B.HEIGHT
      modifies board
      ensures Rows(board)[..B.HEIGHT - rows] == old(Rows(board))[rows..]
    {
      ghost var was := Rows(board);
      for dst := 0 to B.HEIGHT - rows
        invariant forall i :: 0 <= i < dst ==> Rows(board)[i] == was[rows..][i]
        invariant forall i :: dst <= i < B.HEIGHT ==> Rows(board)[i] == was[i]
      {
        assert Rows(board)[dst + rows] == was[dst + rows];
        CopyRow(dst, dst + rows);
      }
    }

    method LayGarbage(rows: int)
      requires Valid() && 0 < rows <= B.HEIGHT
      modifies board
      ensures Rows(board)[..B.HEIGHT - rows] == old(Rows(board))[..B.HEIGHT - rows]
      ensures Rows(board)[B.HEIGHT - rows..] == B.Repeat(B.GarbageRow(), rows)
    {
      ghost var was := Rows(board);
      for r := B.HEIGHT - rows to B.HEIGHT
        invariant forall i :: 0 <= i < B.HEIGHT ==>
                    Rows(board)[i] == if B.HEIGHT - rows <= i < r then B.GarbageRow() else was[i]
      {
        FillRow(r, Garbage, B.GARBAGE_HOLE);
        assert Rows(board)[r] == B.GarbageRow();
      }
    }

    // ---- action.c ----

    /** action_try_move */
    method TryMove(dx: int, dy: int) returns (moved: bool)
      requires Valid()
      modifies this`active
      ensures Valid() && Value() == G.TryMove(old(Value()), dx, dy)
      ensures moved <==> !B.Collides(Rows(board), Moved(old(active), dx, dy))
    {
      var cand := Moved(active, dx, dy);
      var hit := Collides(cand);
      if hit {
        return false;
      }
      active := cand;
      return true;
    }

    /** action_try_rotate: in place, else the nearest kick, right before left. */
    method TryRotate(dir: int) returns (turned: bool)
      requires Valid()
      modifies this`active
      ensures Valid() && Value() == G.TurnBy(old(Value()), dir)
      ensures turned <==> B.TryRotate(Rows(board), old(active), dir).Some?
    {
      hide B.Collides, Filled;
      var base := Rotated(active, dir);
      var n := Size(base.kind);
      var hit := Collides(base);
      if !hit {
        active := base;
        return true;
      }
      var i := 1;
      while i <= n
        invariant 1 <= i <= n + 1 && active == old(active)
        invariant B.Kick(Rows(board), base, i) == B.Kick(Rows(board), base, 1)
      {
        var cand := Moved(base, i, 0);
        hit := Collides(cand);
        if !hit {
          active := cand;
          return true;
        }
        cand := Moved(base, -i, 0);
        hit := Collides(cand);
        if !hit {
          active := cand;
          return true;
        }
        i := i + 1;
      }
      return false;
    }

    /** The queue shifts down one slot and its tail is refilled from the stream. */
    method ShiftQueue()
      requires Valid()
      modifies this`counter, next
      ensures Valid() && Value() == G.Advance(old(Value()))
    {
      hide RngPiece;
      ghost var was := next[..];
      for i := 0 to G.QUEUE - 1
        invariant counter == old(counter)
        invariant forall j :: 0 <= j < G.QUEUE ==> next[j] == if j < i then was[1..][j] else was[j]
      {
        assert next[i + 1] == was[i + 1];
        next[i] := next[i + 1];
      }
      next[G.QUEUE - 1] := RngPiece(seed, counter);
      counter := (counter + 1) % LIMIT;
      assert next[..] == was[1..] + [RngPiece(seed, old(counter))];
    }

    /** spawn_next; the caller's reaction to failure, setting game_over, is the caller's. */
    method SpawnNext() returns (ok: bool)
      requires Valid()
      modifies this, next
      ensures Valid() && (Value(), ok) == G.SpawnPiece(G.Advance(old(Value())), old(next[0]))
    {
      hide RngPiece, G.Advance, G.SpawnPiece;
      var k := next[0];
      ShiftQueue();
      ok := SpawnPiece(k);
    }

    /** scoring_add */
    method ScoringAdd(cleared: int)
      modifies this`lines, this`score
      ensures cleared <= 0 ==> lines == old(lines) && score == old(score)
      ensures cleared >= 0 ==> lines == old(lines) + G.Clamp4(cleared) && score == old(score) + G.Points(cleared)
    {
      var points := [0, 100, 300, 500, 800];
      if cleared <= 0 {
        return;
      }
      var n := if cleared > 4 then 4 else cleared;
      lines := lines + n;
      score := score + points[n];
    }

    /** garbage_earn */
    method GarbageEarn(n: int)
      modifies this`garbageOut
      ensures garbageOut == old(garbageOut) + (if n >= 0 then G.Earned(n) else 0)
    {
      if n >= 2 {
        garbageOut := garbageOut + n - 1;
      }
    }

    /** post_lock: clear, score, bank the attack, re-enable hold, spawn. */
    method PostLock()
      requires Valid()
      modifies this, board, next
      ensures Valid() && B.WellFormed(B.ClearLines(old(Rows(board))))
      ensures Value() == G.SpawnNext(G.Credit(old(Value()).(board := B.ClearLines(old(Rows(board))), holdUsed := false),
                                              B.Cleared(old(Rows(board)))))
    {
      hide B.ClearLines, B.Cleared, B.Collides, RngPiece, G.Points, G.Earned, G.Clamp4, G.Advance;
      B.ClearLinesFacts(Rows(board));
      var n := ClearLines();
      ScoringAdd(n);
      GarbageEarn(n);
      holdUsed := false;
      assert Value() == G.Credit(old(Value()).(board := B.ClearLines(old(Rows(board))), holdUsed := false), n);
      var ok := SpawnNext();
      if !ok {
        gameOver := true;
      }
    }

    /** Lock at `p`, then the rest of the cycle. */
    method LockCycle(p: Piece)
      requires Valid()
      modifies this, board, next
      ensures Valid() && Value() == G.LockCycle(old(Value()), p)
    {
      hide B.Stamp, B.ClearLines, B.Cleared, B.Collides, RngPiece, G.SpawnNext, G.Credit;
      Lock(p);
      PostLock();
    }

    /** action_softdrop */
    method SoftDrop() returns (fell: bool)
      requires Valid()
      modifies this, board, next
      ensures Valid() && Value() == G.SoftDrop(old(Value()))
      ensures fell <==> !B.Collides(old(Rows(board)), Moved(old(active), 0, 1))
    {
      hide B.Collides, G.LockCycle;
      fell := TryMove(0, 1);
      if !fell {
        LockCycle(active);
      }
      tickCount := 0;
    }

    /** action_ghost */
    method Ghost() returns (p: Piece)
      requires Valid() && (active.kind == NoPiece || B.Legal(Rows(board), active))
      ensures active.kind == NoPiece ==> p == active
      ensures active.kind != NoPiece ==> p == B.Landing(Rows(board), active)
    {
      hide B.Collides, Filled;
      p := active;
      if p.kind == NoPiece {
        return;
      }
      var hit := Collides(Moved(p, 0, 1));
      while !hit
        invariant B.Legal(Rows(board), p) && B.Landing(Rows(board), p) == B.Landing(Rows(board), active)
        invariant hit <==> B.Collides(Rows(board), Moved(p, 0, 1))
        decreases B.HEIGHT - p.y, hit
      {
        B.LegalRows(Rows(board), p);
        p := Moved(p, 0, 1);
        hit := Collides(Moved(p, 0, 1));
      }
    }

    /** action_harddrop: repeated soft drops end exactly where one drop to the ghost and one lock
        cycle would, and count the rows in between. */
    method HardDrop() returns (dropped: int)
      requires Valid() && B.Legal(Rows(board), active)
      modifies this, board, next
      ensures Valid() && Value() == G.HardDrop(old(Value()))
      ensures dropped == B.Landing(old(Rows(board)), old(active)).y - old(active.y)
    {
      hide B.Collides, Filled, G.LockCycle;
      ghost var was := Value();
      ghost var floor := B.Landing(was.board, was.active).y;
      dropped := 0;
      SoftDropStep(was, floor, was.active.y);
      var fell := SoftDrop();
      while fell
        invariant Valid() && dropped >= 0
        invariant fell ==> was.active.y + dropped + 1 <= floor
        invariant fell ==> Value() == Falling(was, was.active.y + dropped + 1)
        invariant !fell ==> Value() == G.HardDrop(was) && was.active.y + dropped == floor
        decreases floor - was.active.y - dropped, fell
      {
        dropped := dropped + 1;
        SoftDropStep(was, floor, was.active.y + dropped);
        fell := SoftDrop();
      }
    }

    /** action_hold */
    method Hold() returns (allowed: bool)
      requires Valid()
      modifies this, next
      ensures Valid() && Value() == G.Hold(old(Value())) && allowed == !old(holdUsed)
    {
      hide B.Collides, G.Advance;
      if holdUsed {
        return false;
      }
      var cur := active.kind;
      holdUsed := true;
      if hold == NoPiece {
        hold := cur;
        var ok := SpawnNext();
        if !ok {
          gameOver := true;
        }
      } else {
        var ok := SpawnPiece(hold);
        if !ok {
          gameOver := true;
        } else {
          hold := cur;
        }
      }
      return true;
    }

    // ---- tetrisbrain.c and the session that owns the board ----

    /** tetrisbrain_tick */
    method Tick()
      requires Valid() && G.Playable(Value())
      modifies this, board, next
      ensures Valid() && Value() == G.Next(old(Value()), G.Tick)
    {
      hide B.Collides, G.SoftDrop, B.Legal;
      if gameOver {
        return;
      }
      tickCount := tickCount + 1;
      if tickCount >= tickTrigger {
        var _ := SoftDrop();
      }
    }

    /** tetrisbrain_input */
    method Input(m: G.Move)
      requires Valid() && G.Playable(Value())
      modifies this, board, next
      ensures Valid() && Value() == G.Next(old(Value()), G.Input(m))
    {
      hide B.Collides, G.SoftDrop, G.HardDrop, G.Hold, G.TurnBy, G.TryMove;
      if gameOver {
        return;
      }
      match m {
        case NoMove =>
        case Left => var _ := TryMove(-1, 0);
        case Right => var _ := TryMove(1, 0);
        case TurnRight => var _ := TryRotate(1);
        case TurnLeft => var _ := TryRotate(-1);
        case DropOne => var _ := SoftDrop();
        case DropAll => var _ := HardDrop();
        case HoldPiece => var _ := Hold();
      }
    }

    /** A session delivering an opponent's attack to a board in play. */
    method ReceiveGarbage(rows: int)
      requires Valid() && G.Playable(Value())
      modifies this, board
      ensures Valid() && Value() == G.Next(old(Value()), G.Attack(rows))
    {
      hide B.Collides, Filled, B.Raised, B.Topped;
      if gameOver {
        return;
      }
      B.LegalRows(Rows(board), active);
      B.NothingRaised(Rows(board), active);
      var ok := AddGarbage(rows);
      if !ok {
        gameOver := true;
      }
    }

    /** A session handing the earned attack to the server. */
    method Drain() returns (rows: int)
      requires Valid() && G.Playable(Value())
      modifies this`garbageOut
      ensures Valid() && Value() == G.Next(old(Value()), G.Drain) && rows == old(garbageOut)
    {
      hide B.Legal;
      rows := garbageOut;
      garbageOut := 0;
    }

    /** tetrisbrain_init: a struct with arbitrary contents becomes a fresh game. */
    method Init(newSeed: U32)
      requires Valid()
      modifies this, board, next
      ensures Valid() && Value() == G.Init(newSeed, old(active))
    {
      hide B.Collides, RngPiece, Nth, Dealt, G.EmptyBoard;
      ClearBoard();
      hold := NoPiece;
      holdUsed := false;
      score := 0;
      lines := 0;
      level := 0;
      tickCount := 0;
      tickTrigger := G.GRAVITY_TICKS;
      seed := newSeed;
      gameOver := false;
      garbageOut := 0;
      FillQueue(newSeed);
      counter := G.QUEUE;
      assert Value() == G.Blank(newSeed, old(active));
      R.InitialState(newSeed, old(active));
      var _ := SpawnNext();
    }

    method ClearBoard()
      requires Valid()
      modifies board
      ensures Rows(board) == G.EmptyBoard()
    {
      for r := 0 to B.HEIGHT
        invariant forall i, j :: 0 <= i < r && 0 <= j < B.WIDTH ==> board[i, j] == NoPiece
      {
        for c := 0 to B.WIDTH
          invariant forall i, j :: 0 <= i < r && 0 <= j < B.WIDTH ==> board[i, j] == NoPiece
          invariant forall j :: 0 <= j < c ==> board[r, j] == NoPiece
        {
          board[r, c] := NoPiece;
        }
      }
      B.SameCells(Rows(board), G.EmptyBoard());
    }

    method FillQueue(newSeed: U32)
      requires Valid()
      modifies next
      ensures next[..] == Dealt(newSeed, G.QUEUE)
    {
      hide RngPiece;
      for k := 0 to G.QUEUE
        invariant forall j :: 0 <= j < k ==> next[j] == Nth(newSeed, j)
      {
        next[k] := RngPiece(newSeed, k);
      }
    }
  }

  /** Where a piece that fits nowhere above is left: just off the top, or higher if it began there. */
  function OffTop(p: Piece): Piece {
    if p.y <= 0 - Size(p.kind) then p else AtRow(p, 0 - Size(p.kind))
  }

  /** The game with its piece at row y and the gravity timer reset: a hard drop in flight. */
  ghost function Falling(g: G.Game, y: int): G.Game {
    g.(active := AtRow(g.active, y), tickCount := 0)
  }

  /** One soft drop of a hard drop in flight: it falls above the landing row and locks on it. */
  lemma SoftDropStep(g: G.Game, floor: int, y: int)
    requires G.Sound(g) && B.Legal(g.board, g.active)
    requires floor == B.Landing(g.board, g.active).y && g.active.y <= y <= floor
    ensures B.Collides(g.board, Moved(AtRow(g.active, y), 0, 1)) <==> y == floor
    ensures y < floor ==> G.SoftDrop(Falling(g, y)) == Falling(g, y + 1)
    ensures y == floor ==> G.SoftDrop(Falling(g, y)) == G.HardDrop(g)
    ensures y == g.active.y ==> G.SoftDrop(g) == G.SoftDrop(Falling(g, y))
  {
    hide B.Collides, Filled, G.LockCycle;
    var p := AtRow(g.active, y);
    assert Moved(p, 0, 1) == AtRow(g.active, y + 1);
    if y == floor {
      R.LockResetsTimer(g.(active := p), p, 0);
    }
    if y == g.active.y {
      R.LockResetsTimer(g, g.active, 0);
    }
  }
}
