/**
 * Tetromino shapes, rotation and the seeded piece stream
 * (tetriSH/src/libtetrisbrain/piece.c and rng.c).
 */
module TetrisPiece {
  import opened Word32

  /** What a cell or a queue slot can hold. Garbage only ever appears as a locked cell. */
  datatype Kind = NoPiece | I | O | T | S | Z | J | L | Garbage

  /** A live piece: its kind, rotation 0..3 and the board position of its box's top-left corner. */
  datatype Piece = Piece(kind: Kind, rot: int, x: int, y: int)

  const ROTATIONS := 4

  /** The seven kinds the generator deals. */
  predicate Real(k: Kind) {
    k != NoPiece && k != Garbage
  }

  /** Side of the kind's square box; 0 for the two shapeless kinds. */
  function Size(k: Kind): (n: int)
    ensures Real(k) ==> 2 <= n <= 4
    ensures !Real(k) ==> n == 0
  {
    match k
    case NoPiece => 0
    case Garbage => 0
    case I => 4
    case O => 2
    case _ => 3
  }

  /** Row-major occupancy of the box, one entry per rotation North, East, South, West. */
  function Grid(k: Kind, rot: int): seq<int> {
    match k
    case NoPiece => []
    case Garbage => []
    case O => [1, 1, 1, 1]
    case I =>
      if rot == 0 then [0, 0, 0, 0, 1, 1, 1, 1, 0, 0, 0, 0, 0, 0, 0, 0]
      else if rot == 1 then [0, 0, 1, 0, 0, 0, 1, 0, 0, 0, 1, 0, 0, 0, 1, 0]
      else if rot == 2 then [0, 0, 0, 0, 0, 0, 0, 0, 1, 1, 1, 1, 0, 0, 0, 0]
      else [0, 1, 0, 0, 0, 1, 0, 0, 0, 1, 0, 0, 0, 1, 0, 0]
    case T =>
      if rot == 0 then [0, 1, 0, 1, 1, 1, 0, 0, 0]
      else if rot == 1 then [0, 1, 0, 0, 1, 1, 0, 1, 0]
      else if rot == 2 then [0, 0, 0, 1, 1, 1, 0, 1, 0]
      else [0, 1, 0, 1, 1, 0, 0, 1, 0]
    case S =>
      if rot == 0 then [0, 1, 1, 1, 1, 0, 0, 0, 0]
      else if rot == 1 then [0, 1, 0, 0, 1, 1, 0, 0, 1]
      else if rot == 2 then [0, 0, 0, 0, 1, 1, 1, 1, 0]
      else [1, 0, 0, 1, 1, 0, 0, 1, 0]
    case Z =>
      if rot == 0 then [1, 1, 0, 0, 1, 1, 0, 0, 0]
      else if rot == 1 then [0, 0, 1, 0, 1, 1, 0, 1, 0]
      else if rot == 2 then [0, 0, 0, 1, 1, 0, 0, 1, 1]
      else [0, 1, 0, 1, 1, 0, 1, 0, 0]
    case J =>
      if rot == 0 then [1, 0, 0, 1, 1, 1, 0, 0, 0]
      else if rot == 1 then [0, 1, 1, 0, 1, 0, 0, 1, 0]
      else if rot == 2 then [0, 0, 0, 1, 1, 1, 0, 0, 1]
      else [0, 1, 0, 0, 1, 0, 1, 1, 0]
    case L =>
      if rot == 0 then [0, 0, 1, 1, 1, 1, 0, 0, 0]
      else if rot == 1 then [0, 1, 0, 0, 1, 0, 0, 1, 1]
      else if rot == 2 then [0, 0, 0, 1, 1, 1, 1, 0, 0]
      else [1, 1, 0, 0, 1, 0, 0, 1, 0]
  }

  lemma GridArea(k: Kind, rot: int)
    ensures |Grid(k, rot)| == Size(k) * Size(k)
  {
  }

  /** Does the box of `p` have a filled cell at row r, column c? */
  predicate Filled(p: Piece, r: int, c: int) {
    var n := Size(p.kind);
    && 0 <= r < n
    && 0 <= c < n
    && (GridArea(p.kind, p.rot);
        BoxIndex(n, r, c);
        Grid(p.kind, p.rot)[r * n + c] == 1)
  }

  lemma BoxIndex(n: nat, r: nat, c: nat)
    requires r < n && c < n
    ensures 0 <= r * n + c < n * n
  {
    assert r * n <= (n - 1) * n;
  }

  function Bit(i: int): nat {
    if i == 1 then 1 else 0
  }

  /** How many of the first k grid entries are filled. */
  function Ones(g: seq<int>, k: nat): nat
    requires k <= |g|
    decreases k
  {
    if k == 0 then 0 else Ones(g, k - 1) + Bit(g[k - 1])
  }

  lemma OnesOfNine(g: seq<int>)
    requires |g| == 9
    ensures Ones(g, 9) == Bit(g[0]) + Bit(g[1]) + Bit(g[2]) + Bit(g[3]) + Bit(g[4]) + Bit(g[5])
                          + Bit(g[6]) + Bit(g[7]) + Bit(g[8])
  {
  }

  lemma OnesOfSixteen(g: seq<int>)
    requires |g| == 16
    ensures Ones(g, 16) == Bit(g[0]) + Bit(g[1]) + Bit(g[2]) + Bit(g[3]) + Bit(g[4]) + Bit(g[5])
                           + Bit(g[6]) + Bit(g[7]) + Bit(g[8]) + Bit(g[9]) + Bit(g[10]) + Bit(g[11])
                           + Bit(g[12]) + Bit(g[13]) + Bit(g[14]) + Bit(g[15])
  {
    assert Ones(g, 8) == Bit(g[0]) + Bit(g[1]) + Bit(g[2]) + Bit(g[3]) + Bit(g[4]) + Bit(g[5])
                         + Bit(g[6]) + Bit(g[7]);
  }

  lemma FourOfNine(k: Kind, rot: int)
    requires Size(k) == 3 && 0 <= rot < ROTATIONS
    ensures var g := Grid(k, rot);
            && |g| == 9
            && Bit(g[0]) + Bit(g[1]) + Bit(g[2]) + Bit(g[3]) + Bit(g[4]) + Bit(g[5])
               + Bit(g[6]) + Bit(g[7]) + Bit(g[8]) == 4
  {
  }

  lemma FourOfSixteen(rot: int)
    requires 0 <= rot < ROTATIONS
    ensures var g := Grid(I, rot);
            && |g| == 16
            && Bit(g[0]) + Bit(g[1]) + Bit(g[2]) + Bit(g[3]) + Bit(g[4]) + Bit(g[5])
               + Bit(g[6]) + Bit(g[7]) + Bit(g[8]) + Bit(g[9]) + Bit(g[10]) + Bit(g[11])
               + Bit(g[12]) + Bit(g[13]) + Bit(g[14]) + Bit(g[15]) == 4
  {
  }

  /** Every spawnable kind covers exactly four cells in every rotation. */
  lemma FourCells(k: Kind, rot: int)
    requires Real(k) && 0 <= rot < ROTATIONS
    ensures |Grid(k, rot)| == Size(k) * Size(k)
    ensures Ones(Grid(k, rot), |Grid(k, rot)|) == 4
  {
    GridArea(k, rot);
    match k {
      case O =>
      case I =>
        FourOfSixteen(rot);
        OnesOfSixteen(Grid(I, rot));
      case _ =>
        FourOfNine(k, rot);
        OnesOfNine(Grid(k, rot));
    }
  }

  /** Every spawnable kind has a filled cell below its box's first row, in every rotation. */
  lemma LowCell(p: Piece) returns (r: int, c: int)
    requires Real(p.kind) && 0 <= p.rot < ROTATIONS
    ensures 1 <= r < Size(p.kind) && 0 <= c < Size(p.kind) && Filled(p, r, c)
  {
    if p.kind == I {
      r, c := if p.rot == 2 then 2 else 1, if p.rot == 3 then 1 else 2;
    } else {
      r, c := 1, 1;
    }
  }

  /** action_rotate: C's truncating % twice, so a negative step still lands in 0..3. */
  function Rotated(p: Piece, step: int): (q: Piece)
    ensures q == p.(rot := (p.rot + step) % ROTATIONS)
  {
    TwiceTruncated(p.rot + step);
    p.(rot := TruncMod(TruncMod(p.rot + step, ROTATIONS) + ROTATIONS, ROTATIONS))
  }

  /** Truncating twice with an addition in between is the remainder that is never negative. */
  lemma TwiceTruncated(a: int)
    ensures TruncMod(TruncMod(a, ROTATIONS) + ROTATIONS, ROTATIONS) == a % ROTATIONS
  {
    if a < 0 {
      var k, m := (-a) / 4, (-a) % 4;
      if m == 0 {
        ModFour(a, -k, 0);
      } else {
        ModFour(a, -k - 1, 4 - m);
      }
    }
  }

  lemma ModFour(a: int, k: int, r: int)
    requires a == 4 * k + r && 0 <= r < 4
    ensures a % 4 == r
  {
  }

  /** C's remainder: takes the sign of the dividend. */
  function TruncMod(a: int, b: int): (m: int)
    requires b > 0
    ensures -b < m < b
  {
    if a >= 0 then a % b else -((-a) % b)
  }

  function Moved(p: Piece, dx: int, dy: int): Piece {
    p.(x := p.x + dx, y := p.y + dy)
  }

  /** The same piece with its box at board row y. */
  function AtRow(p: Piece, y: int): Piece {
    p.(y := y)
  }

  // ---- the piece stream ----

  /** The counter folded into the seed, and mixed. */
  function Mixed(seed: U32, counter: U32): U32 {
    Wrap(Xor(seed, Wrap(counter * 2654435761)) * 1664525 + 1013904223)
  }

  /** rng_piece: the top half of the mixed word modulo the seven kinds. */
  function RngPiece(seed: U32, counter: U32): (k: Kind)
    ensures Real(k)
  {
    Spawnable(Mixed(seed, counter) / 0x1_0000 % 7)
  }

  function Spawnable(r: int): (k: Kind)
    ensures Real(k)
  {
    if r == 0 then I
    else if r == 1 then O
    else if r == 2 then T
    else if r == 3 then S
    else if r == 4 then Z
    else if r == 5 then J
    else L
  }

  /** The n-th piece of the stream a seed determines; the 32-bit counter wraps. */
  function Nth(seed: U32, n: nat): (k: Kind)
    ensures Real(k)
  {
    RngPiece(seed, n % LIMIT)
  }

  /** A multiplier with an inverse modulo 2^32 loses nothing. */
  lemma TimesInvertible(a: int, b: int, k: int, inverse: int, m: int)
    requires k * inverse == 1 + m * LIMIT && Wrap(a * k) == Wrap(b * k) && -LIMIT < a - b < LIMIT
    ensures a == b
  {
    var q := a * k / LIMIT - b * k / LIMIT;
    assert (a - b) * k == q * LIMIT;
    calc {
      (a - b) * (1 + m * LIMIT);
      (a - b) * (k * inverse);
      ((a - b) * k) * inverse;
      (q * LIMIT) * inverse;
      (q * inverse) * LIMIT;
    }
    assert a - b == (q * inverse - (a - b) * m) * LIMIT;
    var c := q * inverse - (a - b) * m;
    assert c == 0;
  }

  lemma XorHalves(a: nat, b: nat)
    ensures Xor(a, b) / 2 == Xor(a / 2, b / 2) && Xor(a, b) % 2 == (a + b) % 2
  {
    assert a == 0 && b == 0 ==> Xor(a / 2, b / 2) == 0;
  }

  lemma SameParity(s: nat, a: nat, b: nat)
    requires (s + a) % 2 == (s + b) % 2 && a / 2 == b / 2
    ensures a == b
  {
  }

  lemma {:induction false} XorCancels(s: nat, a: nat, b: nat)
    requires Xor(s, a) == Xor(s, b)
    ensures a == b
    decreases s + a + b
  {
    hide Xor;
    if s + a + b > 0 {
      XorHalves(s, a);
      XorHalves(s, b);
      XorCancels(s / 2, a / 2, b / 2);
      SameParity(s, a, b);
    }
  }

  lemma {:induction false} XorSame(z: nat, a: nat)
    requires z == 0
    ensures Xor(z, a) == a
    decreases a
  {
    if a != 0 {
      XorSame(0, a / 2);
    }
  }

  lemma {:induction false} XorFits(a: nat, b: nat, bits: nat, bound: nat)
    requires bound == Pow2(bits) && a < bound && b < bound
    ensures Xor(a, b) < bound
    decreases bits
  {
    if bits > 0 {
      XorFits(a / 2, b / 2, bits - 1, Pow2(bits - 1));
    }
  }

  function Pow2(n: nat): nat {
    if n == 0 then 1 else 2 * Pow2(n - 1)
  }

  lemma LimitIsPow2()
    ensures Pow2(32) == LIMIT
  {
    assert Pow2(8) == 256;
    assert Pow2(16) == 65536;
    assert Pow2(24) == 0x100_0000;
  }

  /** The stream has no short cycle: for any seed, two counters never mix to the same word, so all 2^32
      words come before one recurs. */
  lemma NoShortCycle(seed: U32, a: U32, b: U32)
    ensures Mixed(seed, a) == Mixed(seed, b) ==> a == b
  {
    hide Xor;
    if Mixed(seed, a) == Mixed(seed, b) {
      var x, y := Wrap(a * 2654435761), Wrap(b * 2654435761);
      LimitIsPow2();
      XorFits(seed, x, 32, LIMIT);
      XorFits(seed, y, 32, LIMIT);
      SameBeforeAdding(Xor(seed, x) * 1664525, Xor(seed, y) * 1664525);
      TimesInvertible(Xor(seed, x), Xor(seed, y), 1664525, 4276115653, 1657219);
      XorCancels(seed, x, y);
      TimesInvertible(a, b, 2654435761, 244002641, 150801925);
    }
  }

  lemma SameBeforeAdding(x: int, y: int)
    requires Wrap(x + 1013904223) == Wrap(y + 1013904223)
    ensures Wrap(x) == Wrap(y)
  {
  }

  lemma WrapIs(n: int, q: int, r: U32)
    requires n == q * LIMIT + r
    ensures Wrap(n) == r
  {
  }

  /** Seed zero leaves the folded counter as it is. */
  lemma SeedZero(n: U32, q: int, folded: U32, p: int, word: U32)
    requires n * 2654435761 == q * LIMIT + folded && folded * 1664525 + 1013904223 == p * LIMIT + word
    ensures Nth(0, n) == Spawnable(word / 0x1_0000 % 7)
  {
    hide Xor, Wrap;
    WrapIs(n * 2654435761, q, folded);
    WrapIs(folded * 1664525 + 1013904223, p, word);
    XorSame(0, folded);
  }

  /** The first pieces every game with seed zero sees. */
  lemma FirstPieces()
    ensures Dealt(0, 4) == [I, S, L, T]
  {
    hide Nth, Dealt;
    SeedZero(0, 0, 0, 0, 1013904223);
    SeedZero(1, 0, 2654435761, 1028733, 1107666780);
    SeedZero(2, 1, 1013904226, 392941, 1201429337);
    SeedZero(3, 1, 3668339987, 1421674, 1295191894);
  }

  /** The first n pieces of the stream. */
  function Dealt(seed: U32, n: nat): (s: seq<Kind>)
    ensures |s| == n
    ensures forall i :: 0 <= i < n ==> s[i] == Nth(seed, i)
  {
    if n == 0 then [] else Dealt(seed, n - 1) + [Nth(seed, n - 1)]
  }
}
