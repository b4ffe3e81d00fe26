/**
 * The rules of one board as a step function on values, and what every run keeps
 * (tetriSH/src/libtetrisbrain/action.c, tetrisbrain.c, scoring.c).
 */
module TetrisGame {
  import opened Basics
  import opened Word32
  import opened TetrisPiece
  import opened TetrisBoard

  const GRAVITY_TICKS := 20
  const QUEUE := 5

  /** Every field the engine owns. The C ints are unbounded here; seed and counter are 32 bits. */
  datatype Game = Game(
    board: Board,
    active: Piece,
    next: seq<Kind>,
    hold: Kind,
    holdUsed: bool,
    score: int,
    lines: int,
    level: int,
    tickCount: int,
    tickTrigger: int,
    seed: U32,
    counter: U32,
    gameOver: bool,
    garbageOut: int)

  /** Shape constraints that hold of every game, over or not. */
  ghost predicate Sound(g: Game) {
    && WellFormed(g.board)
    && |g.next| == QUEUE
  }

  // ---- the actions ----

  /** Where a kind appears: North, at the bottom of the spawn rows. */
  function SpawnPlace(k: Kind): Piece {
    Piece(k, 0, 3, BUFFER_HEIGHT - Size(k))
  }

  /** board_spawn_piece; the flag is its result. */
  ghost function SpawnPiece(g: Game, k: Kind): (Game, bool)
    requires Sound(g)
  {
    if Collides(g.board, SpawnPlace(k)) then (g, false)
    else (g.(active := SpawnPlace(k), tickCount := 0), true)
  }

  /** The queue shifted by one with its tail refilled from the stream. */
  function Advance(g: Game): Game
    requires |g.next| == QUEUE
  {
    g.(next := g.next[1..] + [RngPiece(g.seed, g.counter)], counter := (g.counter + 1) % LIMIT)
  }

  /** spawn_next: pop the queue, then try to spawn; a failed spawn ends the game (its callers). */
  ghost function SpawnNext(g: Game): Game
    requires Sound(g)
  {
    var (h, ok) := SpawnPiece(Advance(g), g.next[0]);
    if ok then h else h.(gameOver := true)
  }

  /** Points for clearing n rows at once; n is clamped to 4 as the source does. */
  function Points(n: nat): int {
    if n == 0 then 0 else if n == 1 then 100 else if n == 2 then 300 else if n == 3 then 500 else 800
  }

  function Clamp4(n: nat): nat {
    if n > 4 then 4 else n
  }

  /** Attack earned by clearing n rows in one move. */
  function Earned(n: nat): nat {
    if n >= 2 then n - 1 else 0
  }

  /** scoring_add and garbage_earn for n cleared rows. */
  function Credit(g: Game, n: nat): Game {
    g.(lines := g.lines + Clamp4(n), score := g.score + Points(n), garbageOut := g.garbageOut + Earned(n))
  }

  /** Lock `p`, clear, score, re-enable hold and spawn the next piece. */
  ghost function LockCycle(g: Game, p: Piece): Game
    requires Sound(g)
  {
    var stamped := Stamp(g.board, p);
    ClearLinesFacts(stamped);
    SpawnNext(Credit(g.(board := ClearLines(stamped), holdUsed := false), Cleared(stamped)))
  }

  ghost function TryMove(g: Game, dx: int, dy: int): Game
    requires Sound(g)
  {
    if Collides(g.board, Moved(g.active, dx, dy)) then g else g.(active := Moved(g.active, dx, dy))
  }

  ghost function TurnBy(g: Game, dir: int): Game
    requires Sound(g)
  {
    match TryRotate(g.board, g.active, dir)
    case None => g
    case Some(p) => g.(active := p)
  }

  /** action_softdrop: fall one row, or lock where the piece stands. */
  ghost function SoftDrop(g: Game): Game
    requires Sound(g)
  {
    (if Collides(g.board, Moved(g.active, 0, 1)) then LockCycle(g, g.active)
     else g.(active := Moved(g.active, 0, 1))).(tickCount := 0)
  }

  /** action_harddrop as one move: land where action_ghost points, then one lock cycle. */
  ghost function HardDrop(g: Game): Game
    requires Sound(g) && Legal(g.board, g.active)
  {
    var landed := Landing(g.board, g.active);
    LockCycle(g.(active := landed), landed).(tickCount := 0)
  }

  /** action_hold: at most one swap per lock; a held piece that does not fit ends the game. */
  ghost function Hold(g: Game): Game
    requires Sound(g)
  {
    if g.holdUsed then g
    else if g.hold == NoPiece then SpawnNext(g.(holdUsed := true, hold := g.active.kind))
    else
      var (h, ok) := SpawnPiece(g.(holdUsed := true), g.hold);
      if ok then h.(hold := g.active.kind) else h.(gameOver := true)
  }

  /** The number of rows board_add_garbage really inserts. */
  function Rows(n: int): (r: nat)
    ensures r <= HEIGHT
  {
    if n <= 0 then 0 else if n > HEIGHT then HEIGHT else n
  }

  /** board_add_garbage and its caller: a false result ends the game (tetrisd/session.c). */
  ghost function TakeGarbage(g: Game, n: int): Game
    requires Sound(g) && Legal(g.board, g.active)
  {
    RaisedFacts(g.board, Rows(n));
    var b := Raised(g.board, Rows(n));
    match LiftTo(b, g.active)
    case None =>
      g.(board := b, active := AtRow(g.active, 0 - Size(g.active.kind)), gameOver := true)
    case Some(p) =>
      g.(board := b, active := p, gameOver := g.gameOver || Topped(g.board, Rows(n)))
  }

  // ---- steps and runs ----

  datatype Move = NoMove | Left | Right | TurnLeft | TurnRight | DropOne | DropAll | HoldPiece

  /** What can happen to a board: a timer tick, an input, an opponent's attack, the server draining
      the attack this board has earned. */
  datatype Step = Tick | Input(move: Move) | Attack(rows: int) | Drain

  /** The invariant that lets a step run: shapes, and a legal piece while the game is on. */
  ghost predicate Playable(g: Game) {
    Sound(g) && (!g.gameOver ==> Legal(g.board, g.active))
  }

  ghost function Next(g: Game, s: Step): Game
    requires Playable(g)
  {
    if s.Drain? then g.(garbageOut := 0)
    else if g.gameOver then g
    else
      match s
      case Tick =>
        var h := g.(tickCount := g.tickCount + 1);
        if h.tickCount >= h.tickTrigger then SoftDrop(h) else h
      case Attack(n) => TakeGarbage(g, n)
      case Input(m) => Obey(g, m)
  }

  /** tetrisbrain_input on a running game. */
  ghost function Obey(g: Game, m: Move): Game
    requires Playable(g) && !g.gameOver
  {
    match m
    case NoMove => g
    case Left => TryMove(g, -1, 0)
    case Right => TryMove(g, 1, 0)
    case TurnRight => TurnBy(g, 1)
    case TurnLeft => TurnBy(g, -1)
    case DropOne => SoftDrop(g)
    case DropAll => HardDrop(g)
    case HoldPiece => Hold(g)
  }

  function EmptyBoard(): (b: Board)
    ensures |b| == HEIGHT
    ensures forall r :: 0 <= r < HEIGHT ==> b[r] == EmptyRow()
  {
    Repeat(EmptyRow(), HEIGHT)
  }

  /** tetrisbrain_init just before its closing spawn; `old` is whatever piece the struct held. */
  function Blank(seed: U32, was: Piece): Game {
    Game(EmptyBoard(), was, Dealt(seed, QUEUE), NoPiece, false, 0, 0, 0, 0, GRAVITY_TICKS,
         seed, QUEUE, false, 0)
  }

  /** tetrisbrain_init. Its call to spawn_next ignores the result; TetrisRuns.InitialState shows it succeeds. */
  ghost function Init(seed: U32, was: Piece): Game {
    SpawnNext(Blank(seed, was))
  }

  // ---- history: what an observer of the run sees ----

  /** The piece a step locks, where it locks, if it locks one. */
  ghost function LockOf(g: Game, s: Step): Option<Piece>
    requires Playable(g)
  {
    if g.gameOver then None
    else if (s.Tick? && g.tickCount + 1 >= g.tickTrigger) || s == Input(DropOne) then
      if Collides(g.board, Moved(g.active, 0, 1)) then Some(g.active) else None
    else if s == Input(DropAll) then Some(Landing(g.board, g.active))
    else None
  }

  /** Rows the step's lock completes. */
  ghost function ClearedBy(g: Game, s: Step): nat
    requires Playable(g)
  {
    match LockOf(g, s)
    case None => 0
    case Some(p) => Cleared(Stamp(g.board, p))
  }

  /** Does the step take a piece off the queue? */
  ghost predicate Draws(g: Game, s: Step)
    requires Playable(g)
  {
    LockOf(g, s).Some? || (!g.gameOver && s == Input(HoldPiece) && !g.holdUsed && g.hold == NoPiece)
  }

  datatype History = History(
    locked: seq<Kind>,   // kinds locked so far, in order
    drawn: nat,          // pieces taken off the stream
    garbageRows: nat,    // rows of garbage inserted
    earned: nat,         // attack rows earned
    tetrises: nat,       // four-row clears
    lostCells: bool)     // an attack pushed locked cells off the top

  ghost function Observe(h: History, g: Game, s: Step): History
    requires Playable(g)
  {
    var attack := s.Attack? && !g.gameOver;
    History(
      if LockOf(g, s).Some? then h.locked + [LockOf(g, s).value.kind] else h.locked,
      if Draws(g, s) then h.drawn + 1 else h.drawn,
      if attack then h.garbageRows + Rows(s.rows) else h.garbageRows,
      h.earned + Earned(ClearedBy(g, s)),
      if ClearedBy(g, s) == 4 then h.tetrises + 1 else h.tetrises,
      h.lostCells || (attack && Topped(g.board, Rows(s.rows))))
  }

  // ---- what every run keeps ----

  ghost function HeldKinds(k: Kind): multiset<Kind> {
    if k == NoPiece then multiset{} else multiset{k}
  }

  /** The queue shows the next five pieces of the stream. */
  ghost predicate QueueAhead(g: Game, drawn: nat) {
    && |g.next| == QUEUE
    && (forall i :: 0 <= i < QUEUE ==> g.next[i] == Nth(g.seed, drawn + i))
    && g.counter == (drawn + QUEUE) % LIMIT
  }

  /** Every piece dealt so far has been locked, is falling, or is held - once each. */
  ghost predicate PiecesConserved(g: Game, h: History) {
    multiset(h.locked) + multiset{g.active.kind} + HeldKinds(g.hold) == multiset(Dealt(g.seed, h.drawn))
  }

  /** Cells on the board balance against pieces locked, garbage taken and rows cleared. */
  ghost predicate CellsConserved(g: Game, h: History) {
    Count(g.board) == 4 * |h.locked| + 9 * h.garbageRows - 10 * g.lines
  }

  ghost predicate ScoreLaw(g: Game, h: History) {
    g.score == 100 * (g.lines + h.earned + h.tetrises)
  }

  ghost predicate TimerOk(g: Game) {
    g.tickTrigger == GRAVITY_TICKS && 0 <= g.tickCount < GRAVITY_TICKS
  }

  /** The invariant of every reachable state. */
  ghost predicate Inv(g: Game, h: History) {
    && Playable(g)
    && NoFullRow(g.board)
    && QueueAhead(g, h.drawn)
    && TimerOk(g)
    && ScoreLaw(g, h)
    && (g.hold == NoPiece || Real(g.hold))
    && (!h.lostCells ==> CellsConserved(g, h))
    && (!g.gameOver ==> !h.lostCells && PiecesConserved(g, h))
  }
}
