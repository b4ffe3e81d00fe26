/**
 * What the playfield operations mean, on values: collision, stamping a piece, clearing full
 * rows, raising garbage and lifting a buried piece (tetriSH/src/libtetrisbrain/board.c).
 * TetrisEngine proves the in-place loops against these definitions.
 */
module TetrisBoard {
  import opened Basics
  import opened TetrisPiece

  const WIDTH := 10
  const BUFFER_HEIGHT := 6
  const HEIGHT := 20 + BUFFER_HEIGHT
  const GARBAGE_HOLE := 5

  type Row = seq<Kind>
  type Board = seq<Row>

  ghost predicate WellFormed(b: Board) {
    |b| == HEIGHT && Rectangular(b)
  }

  ghost predicate Rectangular(b: Board) {
    forall r :: 0 <= r < |b| ==> |b[r]| == WIDTH
  }

  // ---- collision ----

  /** Is (r, c) outside the board or occupied? */
  ghost predicate Blocked(b: Board, r: int, c: int)
    requires WellFormed(b)
  {
    0 <= r < HEIGHT && 0 <= c < WIDTH ==> b[r][c] != NoPiece
  }

  /** board_collides: some filled cell of `p` is outside the board or on an occupied cell. */
  ghost predicate Collides(b: Board, p: Piece)
    requires WellFormed(b)
  {
    exists r, c :: Filled(p, r, c) && Blocked(b, p.y + r, p.x + c)
  }

  /** The state a falling piece must be in: a real kind, normalised rotation, no collision. */
  ghost predicate Legal(b: Board, p: Piece)
    requires WellFormed(b)
  {
    Real(p.kind) && 0 <= p.rot < ROTATIONS && !Collides(b, p)
  }

  /** A legal piece's box never starts below row 24 nor above row -3. */
  lemma LegalRows(b: Board, p: Piece)
    requires WellFormed(b) && Legal(b, p)
    ensures -Size(p.kind) < p.y <= HEIGHT - 2
  {
    var r, c := LowCell(p);
    assert !Blocked(b, p.y + r, p.x + c);
  }

  // ---- stamping a piece ----

  /** Has the row-major scan of the first k box cells of `p` painted board cell (r, c)? */
  ghost predicate Painted(p: Piece, k: int, r: int, c: int) {
    Filled(p, r - p.y, c - p.x) && (r - p.y) * Size(p.kind) + (c - p.x) < k
  }

  ghost function StampPrefix(b: Board, p: Piece, k: int): (s: Board)
    requires WellFormed(b)
    ensures WellFormed(s)
    ensures forall r, c :: 0 <= r < HEIGHT && 0 <= c < WIDTH ==>
              s[r][c] == if Painted(p, k, r, c) then p.kind else b[r][c]
  {
    seq(HEIGHT, r requires 0 <= r < HEIGHT =>
      seq(WIDTH, c requires 0 <= c < WIDTH => if Painted(p, k, r, c) then p.kind else b[r][c]))
  }

  /** board_lock: exactly the covered cells take the piece's kind. */
  ghost function Stamp(b: Board, p: Piece): (s: Board)
    requires WellFormed(b)
    ensures WellFormed(s)
    ensures forall r, c :: 0 <= r < HEIGHT && 0 <= c < WIDTH ==>
              s[r][c] == if Filled(p, r - p.y, c - p.x) then p.kind else b[r][c]
  {
    seq(HEIGHT, r requires 0 <= r < HEIGHT =>
      seq(WIDTH, c requires 0 <= c < WIDTH => if Filled(p, r - p.y, c - p.x) then p.kind else b[r][c]))
  }

  // ---- counting cells ----

  ghost function RowCount(row: Row): (n: nat)
    ensures n <= |row|
  {
    if row == [] then 0
    else RowCount(row[..|row| - 1]) + (if row[|row| - 1] != NoPiece then 1 else 0)
  }

  /** Occupied cells on the board. */
  ghost function Count(b: Board): nat {
    if b == [] then 0 else Count(b[..|b| - 1]) + RowCount(b[|b| - 1])
  }

  lemma {:induction false} RowCountSet(row: Row, c: nat, k: Kind)
    requires c < |row| && row[c] == NoPiece && k != NoPiece
    ensures RowCount(row[c := k]) == RowCount(row) + 1
  {
    var last := |row| - 1;
    if c == last {
      assert row[c := k][..last] == row[..last];
    } else {
      assert row[c := k][..last] == row[..last][c := k];
      RowCountSet(row[..last], c, k);
    }
  }

  lemma {:induction false} CountSetRow(b: Board, r: nat, row: Row)
    requires r < |b|
    ensures Count(b[r := row]) == Count(b) - RowCount(b[r]) + RowCount(row)
  {
    var last := |b| - 1;
    if r == last {
      assert b[r := row][..last] == b[..last];
    } else {
      assert b[r := row][..last] == b[..last][r := row];
      CountSetRow(b[..last], r, row);
    }
  }

  lemma {:induction false} CountConcat(a: Board, b: Board)
    ensures Count(a + b) == Count(a) + Count(b)
  {
    if b == [] {
      assert a + b == a;
    } else {
      assert (a + b)[..|a + b| - 1] == a + b[..|b| - 1];
      CountConcat(a, b[..|b| - 1]);
    }
  }

  /** A row with no occupied cell counts 0, a full one counts its width. */
  lemma {:induction false} RowCountExtremes(row: Row)
    ensures (forall c :: 0 <= c < |row| ==> row[c] == NoPiece) ==> RowCount(row) == 0
    ensures FullRow(row) ==> RowCount(row) == |row|
  {
    if row != [] {
      RowCountExtremes(row[..|row| - 1]);
    }
  }

  lemma {:induction false} CountUniform(b: Board, n: nat)
    requires forall r :: 0 <= r < |b| ==> RowCount(b[r]) == n
    ensures Count(b) == n * |b|
  {
    if b != [] {
      CountUniform(b[..|b| - 1], n);
      assert n * (|b| - 1) + n == n * |b|;
    }
  }

  // ---- a stamped piece adds exactly four cells ----

  /** The box cell scanned k-th is the only one the scan paints in its k-th step. */
  lemma ScanCell(p: Piece, k: nat, r: int, c: int)
    requires Real(p.kind) && k < Size(p.kind) * Size(p.kind)
    ensures Painted(p, k + 1, r, c) <==>
            Painted(p, k, r, c) ||
            (Filled(p, k / Size(p.kind), k % Size(p.kind)) && r == p.y + k / Size(p.kind) && c == p.x + k % Size(p.kind))
  {
    ScanOrder(Size(p.kind), k, r - p.y, c - p.x);
  }

  lemma ScanBit(p: Piece, k: nat)
    requires Real(p.kind) && k < Size(p.kind) * Size(p.kind) == |Grid(p.kind, p.rot)|
    ensures !Painted(p, k, p.y + k / Size(p.kind), p.x + k % Size(p.kind))
    ensures Filled(p, k / Size(p.kind), k % Size(p.kind)) <==> Grid(p.kind, p.rot)[k] == 1
  {
    ScanOrder(Size(p.kind), k, k / Size(p.kind), k % Size(p.kind));
  }

  lemma ScanOrder(n: int, k: int, r: int, c: int)
    requires 2 <= n <= 4 && 0 <= k < n * n
    ensures 0 <= k / n < n && 0 <= k % n < n && (k / n) * n + k % n == k
    ensures 0 <= r < n && 0 <= c < n ==> (r * n + c < k + 1 <==> r * n + c < k || (r == k / n && c == k % n))
  {
    if n == 2 {
    } else if n == 3 {
    } else {
    }
  }

  lemma {:induction false} StampPrefixCount(b: Board, p: Piece, g: seq<int>, k: nat)
    requires WellFormed(b) && Legal(b, p) && g == Grid(p.kind, p.rot)
    requires k <= Size(p.kind) * Size(p.kind) == |g|
    ensures Count(StampPrefix(b, p, k)) == Count(b) + Ones(g, k)
  {
    if k == 0 {
      BoxOrigin(b, p);
    } else {
      StampPrefixCount(b, p, g, k - 1);
      StampPrefixStep(b, p, g, k - 1);
    }
  }

  lemma BoxOrigin(b: Board, p: Piece)
    requires WellFormed(b)
    ensures StampPrefix(b, p, 0) == b
  {
    var s := StampPrefix(b, p, 0);
    forall r, c | 0 <= r < HEIGHT && 0 <= c < WIDTH
      ensures s[r][c] == b[r][c]
    {
      if Painted(p, 0, r, c) {
        BoxIndex(Size(p.kind), r - p.y, c - p.x);
      }
    }
    SameCells(s, b);
  }

  /** Boards with the same cells are equal. */
  lemma SameCells(a: Board, b: Board)
    requires WellFormed(a) && WellFormed(b)
    requires forall r, c :: 0 <= r < HEIGHT && 0 <= c < WIDTH ==> a[r][c] == b[r][c]
    ensures a == b
  {
    forall r | 0 <= r < HEIGHT
      ensures a[r] == b[r]
    {
    }
  }

  lemma PaintNext(b: Board, p: Piece, k: nat)
    requires WellFormed(b) && Real(p.kind) && k < Size(p.kind) * Size(p.kind)
    requires Filled(p, k / Size(p.kind), k % Size(p.kind))
    requires 0 <= p.y + k / Size(p.kind) < HEIGHT && 0 <= p.x + k % Size(p.kind) < WIDTH
    ensures var s, r := StampPrefix(b, p, k), p.y + k / Size(p.kind);
            StampPrefix(b, p, k + 1) == s[r := s[r][p.x + k % Size(p.kind) := p.kind]]
  {
    var s, t := StampPrefix(b, p, k), StampPrefix(b, p, k + 1);
    var r, c := p.y + k / Size(p.kind), p.x + k % Size(p.kind);
    var u := s[r := s[r][c := p.kind]];
    forall i, j | 0 <= i < HEIGHT && 0 <= j < WIDTH
      ensures t[i][j] == u[i][j]
    {
      ScanCell(p, k, i, j);
    }
    SameCells(t, u);
  }

  lemma SkipNext(b: Board, p: Piece, k: nat)
    requires WellFormed(b) && Real(p.kind) && k < Size(p.kind) * Size(p.kind)
    requires !Filled(p, k / Size(p.kind), k % Size(p.kind))
    ensures StampPrefix(b, p, k + 1) == StampPrefix(b, p, k)
  {
    var s, t := StampPrefix(b, p, k), StampPrefix(b, p, k + 1);
    forall i, j | 0 <= i < HEIGHT && 0 <= j < WIDTH
      ensures t[i][j] == s[i][j]
    {
      ScanCell(p, k, i, j);
    }
    SameCells(t, s);
  }

  lemma StampPrefixStep(b: Board, p: Piece, g: seq<int>, k: nat)
    requires WellFormed(b) && Legal(b, p) && g == Grid(p.kind, p.rot)
    requires k < Size(p.kind) * Size(p.kind) == |g|
    ensures Count(StampPrefix(b, p, k + 1)) == Count(StampPrefix(b, p, k)) + Bit(g[k])
  {
    var n := Size(p.kind);
    var r, c := p.y + k / n, p.x + k % n;
    ScanBit(p, k);
    if Filled(p, k / n, k % n) {
      assert !Blocked(b, r, c);
      PaintNext(b, p, k);
      var s := StampPrefix(b, p, k);
      RowCountSet(s[r], c, p.kind);
      CountSetRow(s, r, s[r][c := p.kind]);
    } else {
      SkipNext(b, p, k);
    }
  }

  /** Locking a legal piece adds exactly four occupied cells. */
  lemma StampAddsFour(b: Board, p: Piece)
    requires WellFormed(b) && Legal(b, p)
    ensures Count(Stamp(b, p)) == Count(b) + 4
  {
    FourCells(p.kind, p.rot);
    var n := Size(p.kind);
    StampPrefixCount(b, p, Grid(p.kind, p.rot), n * n);
    StampWhole(b, p);
  }

  lemma StampWhole(b: Board, p: Piece)
    requires WellFormed(b)
    ensures StampPrefix(b, p, Size(p.kind) * Size(p.kind)) == Stamp(b, p)
  {
    var n := Size(p.kind);
    var s := StampPrefix(b, p, n * n);
    forall r, c | 0 <= r < HEIGHT && 0 <= c < WIDTH
      ensures s[r][c] == Stamp(b, p)[r][c]
    {
      if Filled(p, r - p.y, c - p.x) {
        BoxIndex(n, r - p.y, c - p.x);
      }
    }
    SameCells(s, Stamp(b, p));
  }

  // ---- clearing full rows ----

  ghost predicate FullRow(row: Row) {
    forall c :: 0 <= c < |row| ==> row[c] != NoPiece
  }

  ghost predicate NoFullRow(b: Board) {
    forall r :: 0 <= r < |b| ==> !FullRow(b[r])
  }

  function EmptyRow(): (row: Row)
    ensures |row| == WIDTH
    ensures forall c :: 0 <= c < WIDTH ==> row[c] == NoPiece
  {
    seq(WIDTH, c => NoPiece)
  }

  function Repeat(row: Row, n: nat): (b: Board)
    ensures |b| == n
    ensures forall r :: 0 <= r < n ==> b[r] == row
  {
    seq(n, r => row)
  }

  /** The rows that are not full, in order. */
  ghost function Survivors(b: Board): (s: Board)
    ensures |s| <= |b|
  {
    if b == [] then []
    else Survivors(b[..|b| - 1]) + (if FullRow(b[|b| - 1]) then [] else [b[|b| - 1]])
  }

  /** How many rows board_clear_lines removes. */
  ghost function Cleared(b: Board): nat {
    |b| - |Survivors(b)|
  }

  /** board_clear_lines: survivors sink to the bottom in order, empty rows fill the top. */
  ghost function ClearLines(b: Board): Board {
    Repeat(EmptyRow(), Cleared(b)) + Survivors(b)
  }

  lemma {:induction false} SurvivorsConcat(a: Board, b: Board)
    ensures Survivors(a + b) == Survivors(a) + Survivors(b)
  {
    if b == [] {
      assert a + b == a;
    } else {
      assert (a + b)[..|a + b| - 1] == a + b[..|b| - 1];
      SurvivorsConcat(a, b[..|b| - 1]);
    }
  }

  lemma SurvivorsOne(row: Row)
    ensures Survivors([row]) == if FullRow(row) then [] else [row]
  {
    assert [row][..0] == [];
  }

  lemma SurvivorsFrom(b: Board, r: nat)
    requires r < |b|
    ensures Survivors(b[r..]) == (if FullRow(b[r]) then [] else [b[r]]) + Survivors(b[r + 1..])
  {
    assert b[r..] == [b[r]] + b[r + 1..];
    SurvivorsConcat([b[r]], b[r + 1..]);
    SurvivorsOne(b[r]);
  }

  lemma {:induction false} SurvivorsShape(b: Board)
    requires Rectangular(b)
    ensures Rectangular(Survivors(b)) && NoFullRow(Survivors(b))
  {
    if b != [] {
      SurvivorsShape(b[..|b| - 1]);
    }
  }

  lemma {:induction false} SurvivorsCount(b: Board)
    requires Rectangular(b)
    ensures Count(b) == Count(Survivors(b)) + WIDTH * Cleared(b)
  {
    if b != [] {
      var front, last := b[..|b| - 1], b[|b| - 1];
      SurvivorsCount(front);
      if FullRow(last) {
        RowCountExtremes(last);
        assert Survivors(b) == Survivors(front);
      } else {
        assert (Survivors(front) + [last])[..|Survivors(front)|] == Survivors(front);
      }
    }
  }

  /** Clearing leaves no full row and takes ten cells per cleared row. */
  lemma ClearLinesFacts(b: Board)
    requires WellFormed(b)
    ensures WellFormed(ClearLines(b)) && NoFullRow(ClearLines(b))
    ensures Count(ClearLines(b)) == Count(b) - WIDTH * Cleared(b)
  {
    SurvivorsShape(b);
    SurvivorsCount(b);
    var pad := Repeat(EmptyRow(), Cleared(b));
    RowCountExtremes(EmptyRow());
    assert EmptyRow()[0] == NoPiece;
    CountUniform(pad, 0);
    CountConcat(pad, Survivors(b));
  }

  /** If every full row lies among rows lo..lo+n-1, at most n rows are full. */
  lemma {:induction false} FullRowsBound(b: Board, lo: int, n: nat)
    requires forall r :: 0 <= r < |b| && !(lo <= r < lo + n) ==> !FullRow(b[r])
    ensures Cleared(b) <= n
    ensures |b| <= lo ==> Cleared(b) == 0
    ensures lo <= |b| <= lo + n ==> Cleared(b) <= |b| - lo
  {
    if b != [] {
      FullRowsBound(b[..|b| - 1], lo, n);
    }
  }

  /** With no full row before the lock, a lock completes at most four rows. */
  lemma AtMostFourCleared(b: Board, p: Piece)
    requires WellFormed(b) && NoFullRow(b)
    ensures Cleared(Stamp(b, p)) <= 4
  {
    var s := Stamp(b, p);
    forall r | 0 <= r < |s| && !(p.y <= r < p.y + 4)
      ensures !FullRow(s[r])
    {
      assert s[r] == b[r];
    }
    FullRowsBound(s, p.y, 4);
  }

  // ---- garbage ----

  function GarbageRow(): (row: Row)
    ensures |row| == WIDTH
    ensures forall c :: 0 <= c < WIDTH ==> row[c] == if c == GARBAGE_HOLE then NoPiece else Garbage
  {
    seq(WIDTH, c => if c == GARBAGE_HOLE then NoPiece else Garbage)
  }

  /** The stack lifted by n rows with n garbage rows laid underneath. */
  function Raised(b: Board, n: nat): Board
    requires n <= |b|
  {
    b[n..] + Repeat(GarbageRow(), n)
  }

  /** Would raising by n push an occupied cell past the top? */
  ghost predicate Topped(b: Board, n: nat)
    requires WellFormed(b) && n <= HEIGHT
  {
    exists r, c :: 0 <= r < n && 0 <= c < WIDTH && b[r][c] != NoPiece
  }

  lemma GarbageRowFacts()
    ensures |GarbageRow()| == WIDTH && !FullRow(GarbageRow()) && RowCount(GarbageRow()) == 9
  {
    var g := GarbageRow();
    assert g[GARBAGE_HOLE] == NoPiece;
    var full: Row := seq(WIDTH, c => Garbage);
    RowCountExtremes(full);
    assert g[GARBAGE_HOLE := Garbage] == full;
    RowCountSet(g, GARBAGE_HOLE, Garbage);
  }

  /** Raising adds nine cells a row, less whatever was pushed off, and makes no row full. */
  lemma RaisedFacts(b: Board, n: nat)
    requires WellFormed(b) && n <= HEIGHT
    ensures WellFormed(Raised(b, n))
    ensures NoFullRow(b) ==> NoFullRow(Raised(b, n))
    ensures Count(Raised(b, n)) == Count(b) - Count(b[..n]) + 9 * n
    ensures !Topped(b, n) ==> Count(b[..n]) == 0
  {
    GarbageRowFacts();
    var pad := Repeat(GarbageRow(), n);
    CountUniform(pad, 9);
    CountConcat(b[n..], pad);
    assert b == b[..n] + b[n..];
    CountConcat(b[..n], b[n..]);
    if !Topped(b, n) {
      forall r | 0 <= r < n
        ensures RowCount(b[..n][r]) == 0
      {
        assert forall c :: 0 <= c < WIDTH ==> b[r][c] == NoPiece;
        RowCountExtremes(b[r]);
      }
      CountUniform(b[..n], 0);
    }
  }

  /** The nearest position at or above `p` in the same column where it does not collide. */
  ghost function LiftTo(b: Board, p: Piece): (q: Option<Piece>)
    requires WellFormed(b) && Real(p.kind) && 0 <= p.rot < ROTATIONS
    ensures q.Some? ==>
              && q.value == AtRow(p, q.value.y) && q.value.y <= p.y && Legal(b, q.value)
              && forall y :: q.value.y < y <= p.y ==> Collides(b, AtRow(p, y))
    ensures q.None? ==> forall y :: y <= p.y ==> Collides(b, AtRow(p, y))
    decreases p.y + Size(p.kind)
  {
    if !Collides(b, p) then Some(p)
    else if p.y <= -Size(p.kind) then
      AboveBoard(b, p);
      None
    else
      SameColumn(p, -1);
      LiftTo(b, Moved(p, 0, -1))
  }

  lemma SameColumn(p: Piece, dy: int)
    ensures AtRow(p, p.y) == p
    ensures forall y :: AtRow(Moved(p, 0, dy), y) == AtRow(p, y)
  {
  }

  /** The empty and garbage kinds cover no cell, so they never collide. */
  lemma OnlyRealCollides(b: Board, p: Piece)
    requires WellFormed(b) && Collides(b, p)
    ensures Real(p.kind)
  {
  }

  lemma AboveBoard(b: Board, p: Piece)
    requires WellFormed(b) && Real(p.kind) && 0 <= p.rot < ROTATIONS && p.y <= -Size(p.kind)
    ensures forall y :: y <= p.y ==> Collides(b, AtRow(p, y))
  {
    forall y | y <= p.y
      ensures Collides(b, AtRow(p, y))
    {
      var q := AtRow(p, y);
      var r, c := LowCell(q);
      assert Blocked(b, q.y + r, q.x + c);
    }
  }

  lemma NothingRaised(b: Board, p: Piece)
    requires WellFormed(b) && Legal(b, p)
    ensures Raised(b, 0) == b && !Topped(b, 0) && LiftTo(b, p) == Some(p)
  {
    assert b[0..] == b;
  }

  /** A piece whose filled cells all sit at row n or lower is lifted by at most n rows. */
  lemma RoomToLift(b: Board, p: Piece, n: nat)
    requires WellFormed(b) && Legal(b, p) && n <= HEIGHT
    requires forall r, c :: Filled(p, r, c) ==> p.y + r >= n
    ensures WellFormed(Raised(b, n)) && LiftTo(Raised(b, n), p).Some?
    ensures p.y - n <= LiftTo(Raised(b, n), p).value.y <= p.y
  {
    hide Collides, Raised;
    RaisedFacts(b, n);
    FitsAfterRise(b, p, n);
  }

  lemma ShapeStays(p: Piece, y: int)
    ensures forall r, c :: Filled(AtRow(p, y), r, c) == Filled(p, r, c)
  {
    hide Grid;
  }

  lemma FitsAfterRise(b: Board, p: Piece, n: nat)
    requires WellFormed(b) && Legal(b, p) && n <= HEIGHT
    requires forall r, c :: Filled(p, r, c) ==> p.y + r >= n
    ensures WellFormed(Raised(b, n)) && !Collides(Raised(b, n), AtRow(p, p.y - n))
  {
    hide Count, NoFullRow, Filled;
    RaisedFacts(b, n);
    var up := AtRow(p, p.y - n);
    ShapeStays(p, p.y - n);
    forall r, c | Filled(up, r, c)
      ensures !Blocked(Raised(b, n), up.y + r, up.x + c)
    {
      assert !Blocked(b, p.y + r, p.x + c);
    }
  }

  // ---- the landing row ----

  /** action_ghost: the piece moved down as far as every row on the way is free. */
  ghost function Landing(b: Board, p: Piece): (q: Piece)
    requires WellFormed(b) && Legal(b, p)
    ensures q == AtRow(p, q.y) && q.y >= p.y && Legal(b, q) && Collides(b, Moved(q, 0, 1))
    ensures forall y :: p.y <= y <= q.y ==> !Collides(b, AtRow(p, y))
    decreases HEIGHT - p.y
  {
    if Collides(b, Moved(p, 0, 1)) then p
    else
      LegalRows(b, p);
      SameColumn(p, 1);
      Landing(b, Moved(p, 0, 1))
  }

  // ---- rotation with wall kicks ----

  /** The first of the kick offsets i, -i, i+1, -(i+1), .. that fits, in action_try_rotate's order. */
  ghost function Kick(b: Board, p: Piece, i: int): (dx: Option<int>)
    requires WellFormed(b) && 1 <= i <= Size(p.kind) + 1
    ensures dx.Some? ==> !Collides(b, Moved(p, dx.value, 0)) && FirstKick(b, p, i, dx.value)
    ensures dx.None? ==> forall d :: i <= d <= Size(p.kind) ==> NoKick(b, p, d)
    decreases Size(p.kind) + 1 - i
  {
    if i > Size(p.kind) then None
    else if !Collides(b, Moved(p, i, 0)) then Some(i)
    else if !Collides(b, Moved(p, -i, 0)) then Some(-i)
    else Kick(b, p, i + 1)
  }

  function Abs(n: int): nat {
    if n < 0 then -n else n
  }

  ghost predicate NoKick(b: Board, p: Piece, d: int)
    requires WellFormed(b)
  {
    Collides(b, Moved(p, d, 0)) && Collides(b, Moved(p, -d, 0))
  }

  /** dx is the nearest fitting offset of size i or more, right before left at equal size. */
  ghost predicate FirstKick(b: Board, p: Piece, i: int, dx: int)
    requires WellFormed(b)
  {
    && i <= Abs(dx) <= Size(p.kind)
    && (forall d :: i <= d < Abs(dx) ==> NoKick(b, p, d))
    && (dx < 0 ==> Collides(b, Moved(p, -dx, 0)))
  }

  /** action_try_rotate: rotate in place if that fits, else by the nearest fitting kick. */
  ghost function TryRotate(b: Board, p: Piece, dir: int): (q: Option<Piece>)
    requires WellFormed(b)
  {
    var turned := Rotated(p, dir);
    if !Collides(b, turned) then Some(turned)
    else
      match Kick(b, turned, 1)
      case None => None
      case Some(dx) => Some(Moved(turned, dx, 0))
  }
}
