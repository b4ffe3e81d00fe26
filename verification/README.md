# corestack: verified models

Dafny models of five parts of corestack, a set of C programs around a Tetris server and a ballot box,
with proofs about what those parts do over whole runs. `dafny verify dfyconfig.toml` checks all of it.

**Shared** (`Basics`, `Word32`). Optional values, C text, 32-bit arithmetic.

**Tetris rules** (`TetrisPiece`, `TetrisBoard`, `TetrisGame`, `TetrisRuns`, `TetrisRules`,
`TetrisEngine`).
`TetrisGame` is the game as a value and its steps: tick, input, an opponent's attack, the server
draining the earned attack. `TetrisRuns` proves what every interleaving of steps keeps: pieces are
conserved, cells are conserved, the score law, legality, one stream per seed, and a bound on the time
between locks. `TetrisRules` states turns, shifts, drops, gravity and attacks by the cells a piece
covers. `TetrisEngine.GameState` is the C struct with its board and queue arrays; each method
updates it in place and is proved to make exactly the step of the value game.

**Ballot store** (`Tables`, `BallotStore`, `BallotBox`, `BallotRuns`, `BallotLaws`, `BallotFaults`,
`BallotIds`, `Receipts`, `BallotSample`, `BallotCollision`, `BallotBrain`, `BallotReply`, `BallotServed`,
`BallotVoter`, `BallotRules`, `BallotPolls`, `BallotEndToEnd`). The store is six tables of rows.
`BallotBrain.Brain` is the daemon's context with its committed store and open transaction; an arbitrary
schedule decides for every statement whether it is ok, aborted or failed. The invariant of
`BallotRuns` ties ballots, owners, nonces and eligible voters together and holds in every run in which
each new receipt hash is new to its election. That condition is a hypothesis because it does not
follow from the code: a receipt depends on its seed only modulo 2^20, and the nonces "Az" and "BY"
always share one. `BallotCollision` shows what happens then, and that the condition is exact.
`BallotSample` exhibits a concrete sound store that accepts a ballot, so the hypotheses of the store's
laws are met. `BallotRules` gives every result code of every operation its exact condition on the
tables, and `BallotPolls` shows the tables to be, in every run, a map from elections to voters' votes.
`BallotVoter` puts any number of clients and the server at the two ends of the codecs below: what a
session believes is compared with what the server holds under the id as it arrives, for the name the
connection logged in under, which is the one the server goes by (ballotbox/src/ballotd/session.c:113-115).
`BallotEndToEnd` says what a voter is told, and when.

**HTTTP and the ballot codec** (`Decimal`, `Htttp`, `HtttpLaws`, `HtttpGrammar`, `HtttpCode`,
`BallotCodec`, `BallotTrip`, `BallotCodecCode`, `BallotAnswer`, `BallotAnswerTrip`, `BallotAnswerCode`).
Text as a function of the message, parsing as a function of the bytes, the exact
condition under which they agree, and the C loops over buffers and cursors proved against both. A byte is a `char`; a C string is a sequence without NUL.

**Log sender** (`LogSender`). Any number of threads, each in one of its atomic steps, and the balance
of drop counts in every interleaving.

**Database line reader** (`DbWire`). The buffered reader against the stream it reads, for every way of
splitting the stream into reads.

## Notes on what the code does

- After three aborted attempts `bb_record_ballot` does return `BB_ERR_RETRY`, which
  ballotbox/include/libballotbrain/types.h:87-92 says never escapes (`BallotFaults.RetryIffAborted`),
  and the answer's status line has no name for it (`BallotReply.NoAnswerIffAborted`).
- `bb_transition_state` is two one-shot calls, not one transaction as
  ballotbox/include/libballotbrain/db.h:19-25 says; it is safe because requests are served one by one.
- A header key may hold ':' (core/src/libhtttp/htttp.c:303-318) and 32 caller headers may be followed
  by a generated length; the parser refuses both messages (`Htttp.RequestRoundTrip`).
- A ballot payload of 160 to 256 bytes is encoded but refused by the decoder
  (`BallotTrip.LongBallotRefused`); an election id holding '/' is cut at it (`BallotTrip.Decoded`).
- ballotbox/include/libballotclient/codec.h gives RESULTS a path ending in /results; the code sends
  none, and the decoder ignores what follows the id.
- A database line longer than its buffer is cut, not split (core/src/libtetrisdb/wire.c:114-115), and
  empty lines before the first non-empty one leave no trace in a response body.
- When the read behind an automatic election id fails the id is E-100 even if that id is taken
  (`BallotLaws.CreateKeepsIffNewId`, `BallotSample.FallbackClashes`).
- A join under an id with a '/' in it is answered for the id before the '/', while the session keeps the
  whole id (`BallotVoter.OwnIdIff`).
- A payload line that is refused has already written its leading bytes over an earlier payload
  (`BallotTrip.PayloadRefused`).
- A hold that tops out on an empty slot leaves the falling piece named twice and the drawn piece nowhere
  (`TetrisRuns.HoldTopsOut`).

## Model

| member | source | states |
|---|---|---|
| `TetrisPiece.FourCells` | tetriSH/src/libtetrisbrain/piece.c:106-130 | every spawnable kind covers exactly four cells of its box in every rotation |
| `TetrisPiece.LowCell` | tetriSH/src/libtetrisbrain/piece.c:122-130 | every spawnable kind has a filled cell below its box's first row in every rotation |
| `TetrisPiece.Rotated` | tetriSH/src/libtetrisbrain/action.c:18-22 | the truncating remainders turn a piece by any step, negative ones too, to the rotation modulo four, and change nothing else |
| `TetrisPiece.RngPiece` | tetriSH/src/libtetrisbrain/rng.c:12-26 | the generator only ever yields the seven real kinds, with 32-bit wrap-around written out |
| `TetrisPiece.Dealt` | tetriSH/src/libtetrisbrain/rng.c:18-26 | the first n pieces of a seed's stream are its n values in order, the counter wrapping at 2^32 |
| `TetrisPiece.NoShortCycle` | tetriSH/src/libtetrisbrain/rng.c:18-26 | for every seed, two different 32-bit counters never mix to the same word, so no word recurs before all 2^32 have come |
| `TetrisPiece.FirstPieces` | tetriSH/src/libtetrisbrain/rng.c:12-26 | the pieces a game with seed zero begins with |
| `TetrisBoard.LegalRows` | tetriSH/src/libtetrisbrain/board.c:11-35 | a piece that does not collide has its box between row -3 and row 24 |
| `TetrisBoard.StampAddsFour` | tetriSH/src/libtetrisbrain/board.c:51-73 | locking a legal piece adds exactly four occupied cells |
| `TetrisBoard.SurvivorsCount` | tetriSH/src/libtetrisbrain/board.c:85-115 | cells before a clear = cells of the surviving rows + 10 per full row |
| `TetrisBoard.ClearLinesFacts` | tetriSH/src/libtetrisbrain/board.c:85-115 | a clear leaves no full row and removes ten cells per cleared row |
| `TetrisBoard.AtMostFourCleared` | tetriSH/src/libtetrisbrain/board.c:85-115 | on a board without full rows one lock completes at most four |
| `TetrisBoard.RaisedFacts` | tetriSH/src/libtetrisbrain/board.c:135-145 | garbage adds nine cells a row less what was pushed off the top, and makes no row full |
| `TetrisBoard.LiftTo` | tetriSH/src/libtetrisbrain/board.c:147-155 | the lifted piece is the nearest non-colliding position at or above it in its column, and None means every higher position collides |
| `TetrisBoard.RoomToLift` | tetriSH/src/libtetrisbrain/board.c:147-157 | if every filled cell is at row n or below, inserting n rows lifts the piece by at most n, and that always succeeds |
| `TetrisBoard.NothingRaised` | tetriSH/src/libtetrisbrain/board.c:119-120 | inserting no rows leaves board and legal piece as they were |
| `TetrisBoard.AboveBoard` | tetriSH/src/libtetrisbrain/board.c:150-155 | a piece wholly above row 0 collides there and everywhere higher, so the lifting loop may stop |
| `TetrisBoard.Landing` | tetriSH/src/libtetrisbrain/action.c:148-157 | the ghost is legal, in the same column, every row on the way is free, and one row further collides |
| `TetrisBoard.Kick` | tetriSH/src/libtetrisbrain/action.c:48-61 | the kick taken is the first that fits in the order +1,-1,+2,-2,..; None means none of them fits |
| `TetrisEngine.GameState.Collides` | tetriSH/src/libtetrisbrain/board.c:11-35 | the nested scan answers whether some filled cell is outside or occupied |
| `TetrisEngine.GameState.SpawnPiece` | tetriSH/src/libtetrisbrain/board.c:37-49 | the piece is placed and the timer reset exactly when the place is free |
| `TetrisEngine.GameState.Lock` | tetriSH/src/libtetrisbrain/board.c:51-73 | the in-place writes are the value-level stamp; hold is re-enabled; nothing else changes |
| `TetrisEngine.GameState.RowFull` | tetriSH/src/libtetrisbrain/board.c:76-83 | true exactly when no cell of the row is empty |
| `TetrisEngine.GameState.Compact` | tetriSH/src/libtetrisbrain/board.c:92-106 | the bottom-up copying scan leaves the surviving rows in order and counts the full ones |
| `TetrisEngine.GameState.EmptyTop` | tetriSH/src/libtetrisbrain/board.c:107-112 | the vacated rows become empty and the others stay |
| `TetrisEngine.GameState.ClearLines` | tetriSH/src/libtetrisbrain/board.c:85-115 | the in-place clear is exactly: keep the non-full rows in order, pad empty rows on top |
| `TetrisEngine.GameState.CellsInTop` | tetriSH/src/libtetrisbrain/board.c:124-133 | the early-exit scan finds whether a locked cell is in the top rows |
| `TetrisEngine.GameState.LiftStack` | tetriSH/src/libtetrisbrain/board.c:135-139 | the forward copy moves every row up by the inserted number without overwriting one still to be read |
| `TetrisEngine.GameState.LayGarbage` | tetriSH/src/libtetrisbrain/board.c:141-145 | the new bottom rows are full but for the one hole; the rest stays |
| `TetrisEngine.GameState.Raise` | tetriSH/src/libtetrisbrain/board.c:135-145 | both loops together raise the board |
| `TetrisEngine.GameState.LiftActive` | tetriSH/src/libtetrisbrain/board.c:147-155 | the loop ends at the nearest free position above, or just off the top with false; it terminates |
| `TetrisEngine.GameState.AddGarbage` | tetriSH/src/libtetrisbrain/board.c:117-158 | the whole insertion: board raised, piece lifted by the least legal amount, false exactly when cells crossed the top or no position fits |
| `TetrisEngine.GameState.TryMove` | tetriSH/src/libtetrisbrain/action.c:33-40 | moves exactly when the target does not collide |
| `TetrisEngine.GameState.TryRotate` | tetriSH/src/libtetrisbrain/action.c:42-68 | turns in place or by the first kick that fits, and reports whether it turned |
| `TetrisEngine.GameState.ShiftQueue` | tetriSH/src/libtetrisbrain/action.c:161-168 | the queue shifts by one and is refilled from the stream |
| `TetrisEngine.GameState.SpawnNext` | tetriSH/src/libtetrisbrain/action.c:159-171 | the queue advances even when the spawn then fails |
| `TetrisEngine.GameState.ScoringAdd` | tetriSH/src/libtetrisbrain/scoring.c:9-23 | lines and score after a clear of any size, clamp included |
| `TetrisEngine.GameState.PostLock` | tetriSH/src/libtetrisbrain/action.c:106-114 | clear, score, bank, re-enable hold and spawn, as one state change |
| `TetrisEngine.GameState.LockCycle` | tetriSH/src/libtetrisbrain/action.c:119-123 | lock and everything after it |
| `TetrisEngine.GameState.SoftDrop` | tetriSH/src/libtetrisbrain/action.c:116-126 | falls one row or runs one lock cycle; the timer is reset in both cases |
| `TetrisEngine.GameState.Ghost` | tetriSH/src/libtetrisbrain/action.c:148-157 | the loop answers the landing position and changes nothing |
| `TetrisEngine.GameState.HardDrop` | tetriSH/src/libtetrisbrain/action.c:127-134 | repeated soft drops end in the state of one lock cycle at the ghost's position, and the count is the ghost's distance; it terminates |
| `TetrisEngine.SoftDropStep` | tetriSH/src/libtetrisbrain/action.c:116-134 | each soft drop of a hard drop falls above the landing row and locks exactly on it |
| `TetrisEngine.GameState.Hold` | tetriSH/src/libtetrisbrain/action.c:183-214 | both swap paths, the refusal of a second hold, and the state a top-out leaves |
| `TetrisEngine.GameState.Tick` | tetriSH/src/libtetrisbrain/tetrisbrain.c:60-70 | one tick of a running or finished game |
| `TetrisEngine.GameState.Input` | tetriSH/src/libtetrisbrain/tetrisbrain.c:72-105 | one input of a running or finished game |
| `TetrisEngine.GameState.ReceiveGarbage` | tetriSH/src/tetrisd/session.c:530-533 | a delivered attack; a false insertion ends the game; a finished game is left alone |
| `TetrisEngine.GameState.FillQueue` | tetriSH/src/libtetrisbrain/tetrisbrain.c:18-58 | the opening queue is the first five of the stream |
| `TetrisEngine.GameState.Init` | tetriSH/src/libtetrisbrain/tetrisbrain.c:18-58 | any old struct becomes the fresh game of that seed |
| `TetrisRuns.SpawnNextFacts` | tetriSH/src/libtetrisbrain/action.c:159-171 | after a spawn the queue is still the next five of the stream and the piece is legal, or the game is over with the piece unchanged |
| `TetrisRuns.PointsLaw` | tetriSH/src/libtetrisbrain/scoring.c:9-23 | points for n<=4 rows = 100 x (n + attack earned + [n=4]) |
| `TetrisRuns.LockFacts` | tetriSH/src/libtetrisbrain/action.c:106-126 | one lock cycle: cells +4-10n, lines +n, score, attack, hold, queue and next piece |
| `TetrisRuns.LockCycleKeeps` | tetriSH/src/libtetrisbrain/action.c:106-126 | a lock cycle of a legal piece keeps the whole invariant |
| `TetrisRuns.LockResetsTimer` | tetriSH/src/libtetrisbrain/action.c:116-126 | where the gravity timer stood does not matter to a lock cycle |
| `TetrisRuns.HardDropKeeps` | tetriSH/src/libtetrisbrain/action.c:127-134 | a hard drop keeps the invariant |
| `TetrisRuns.HoldKeeps` | tetriSH/src/libtetrisbrain/action.c:183-214 | hold keeps the invariant: while the game goes on no piece is lost or duplicated |
| `TetrisRuns.HoldTopsOut` | tetriSH/src/libtetrisbrain/action.c:183-214 | a hold that tops out: with a piece already held nothing is lost; with an empty slot the drawn piece stands nowhere, locked + held + that one = pieces dealt, and the usual account holds if and only if it is of the falling piece's kind |
| `TetrisRuns.LockTopsOut` | tetriSH/src/libtetrisbrain/action.c:106-114 | a lock that tops out: locked + held + the piece that did not fit = pieces dealt, and the usual account holds if and only if that piece is of the locked one's kind |
| `TetrisRuns.AttackShape` | tetriSH/src/libtetrisbrain/board.c:117-158 | an attack changes board, piece and game-over flag only, and a game still on has a legal piece and lost no cell |
| `TetrisRuns.AttackKeeps` | tetriSH/src/libtetrisbrain/board.c:117-158 | an attack of any size keeps the invariant |
| `TetrisRuns.TickKeeps` | tetriSH/src/libtetrisbrain/tetrisbrain.c:60-70 | a tick keeps the invariant |
| `TetrisRuns.InputKeeps` | tetriSH/src/libtetrisbrain/tetrisbrain.c:72-105 | every input keeps the invariant |
| `TetrisRuns.StepKeeps` | tetriSH/src/libtetrisbrain/tetrisbrain.c:60-105 | every step from an invariant state leads to one |
| `TetrisRuns.InitialState` | tetriSH/src/libtetrisbrain/tetrisbrain.c:18-58 | a new game satisfies the invariant, is on, and shows the stream's first piece: the ignored spawn result is always success |
| `TetrisRuns.EveryRun` | tetriSH/src/libtetrisbrain/tetrisbrain.c:18-105 | over every interleaving of ticks, inputs, attacks and drains: no full row, legal active piece while on, queue = next five of the stream, locked + active + held = pieces dealt (as multisets), cells = 4 x locked + 9 x garbage - 10 x lines unless cells were pushed off, score = 100 x (lines + attack + four-row clears) |
| `TetrisRuns.ClampNeverActs` | tetriSH/src/libtetrisbrain/scoring.c:9-23 | no reachable step clears more than four rows |
| `TetrisRuns.RunSeed` | tetriSH/src/libtetrisbrain/tetrisbrain.c:18-105 | no run changes the seed |
| `TetrisRuns.StepBanks` | tetriSH/src/libtetrisbrain/action.c:97-101 | a step banks exactly what its lock earns, and only a drain empties the bank |
| `TetrisRuns.AttackConserved` | tetriSH/src/libtetrisbrain/action.c:90-101 | over any steps: attack handed over + still banked = banked before + earned since, so none is dropped or sent twice |
| `TetrisRuns.SameStream` | tetriSH/src/libtetrisbrain/rng.c:18-26 | two players with one seed who have drawn equally many pieces see the same queue and have been dealt the same pieces, whatever each pressed |
| `TetrisRuns.TicksLeftDecreases` | tetriSH/src/libtetrisbrain/tetrisbrain.c:60-105 | a measure on row, timer and unused hold falls with every tick and never rises with an input |
| `TetrisRuns.LockFreeTicks` | tetriSH/src/libtetrisbrain/tetrisbrain.c:60-105 | the ticks of any lock-free, attack-free stretch are below the measure |
| `TetrisRuns.LockWithinBound` | tetriSH/src/libtetrisbrain/tetrisbrain.c:60-105 | fewer than 919 ticks from a spawn to the next lock, fewer than 460 once hold is used, whatever is pressed |
| `TetrisRuns.BetweenLocks` | tetriSH/src/libtetrisbrain/tetrisbrain.c:60-105 | between two consecutive locks of any run of a new game fewer than 919 ticks pass |
| `TetrisRuns.UntilFirstLock` | tetriSH/src/libtetrisbrain/tetrisbrain.c:18-105 | so from the start to the first lock |
| `TetrisRules.QuarterTurn` | tetriSH/src/libtetrisbrain/piece.c:34-130 | one rotation step moves every filled cell of the box to where a quarter turn clockwise takes it, for every kind and rotation |
| `TetrisRules.ShiftedFits` | tetriSH/src/libtetrisbrain/board.c:11-35 | a shifted piece fits if and only if every cell it covers has a free cell to go to |
| `TetrisRules.TurnRule` | tetriSH/src/libtetrisbrain/action.c:42-68 | a turn is refused if and only if the turned piece collides at every shift up to its box's side either way, and otherwise ends at the nearest shift that fits, right before left |
| `TetrisRules.TurnInputRule` | tetriSH/src/libtetrisbrain/tetrisbrain.c:72-105 | turning right is a quarter clockwise of the covered cells, left the other way round, shifted to the nearest place that fits; with none the game stays as it was |
| `TetrisRules.SidewaysRule` | tetriSH/src/libtetrisbrain/tetrisbrain.c:72-105 | left and right shift the covered cells one column, if and only if all have a free cell to go to; otherwise nothing changes |
| `TetrisRules.DropRule` | tetriSH/src/libtetrisbrain/action.c:116-126 | a soft drop shifts the covered cells one row down if and only if all have a free cell below, and otherwise locks them where they are |
| `TetrisRules.FreeFall` | tetriSH/src/libtetrisbrain/tetrisbrain.c:60-70 | left alone over free rows a piece falls exactly one row every twenty ticks, and nothing else happens |
| `TetrisRules.AttackEnds` | tetriSH/src/libtetrisbrain/board.c:117-158 | an attack ends the game if and only if it pushes a locked cell off the top or leaves no place at or above the piece |
| `TetrisRules.RaisedCells` | tetriSH/src/libtetrisbrain/board.c:135-145 | where every cell of a raised board comes from: the stack below, a garbage cell, or the one hole |
| `TetrisRules.SpawnsAboveTheField` | tetriSH/src/libtetrisbrain/board.c:37-49 | every cell of a new piece lies in the hidden rows and in columns 3 to 6 |
| `BallotBox.LookupAfter` | ballotbox/src/libballotbrain/db.c:445-486 | after a recording with a fresh hash: the voter's old row is superseded, the new hash finds the new row, every other hash finds what it found |
| `BallotBox.CastKeeps` | ballotbox/src/libballotbrain/handlers.c:165-287 | a recording with a fresh hash and nonce keeps one election's invariant: unique hashes, owners and nonces, every owner backed by its live row with the same version, every live row owned, live = owners, ballots = nonces = sum of owner versions |
| `BallotBox.StaleHashBreaks` | ballotbox/src/libballotbrain/db.c:445-486 | a recording whose hash the election already holds breaks the invariant, always |
| `BallotBox.CastKeepsIffFresh` | ballotbox/src/libballotbrain/db.c:445-486 | the invariant survives a recording if and only if the receipt hash is new to the election |
| `BallotRuns.AcceptFacts` | ballotbox/src/libballotbrain/handlers.c:165-287 | an accepted ballot names an open election, an eligible voter, a valid option and an unused nonce |
| `BallotRuns.RecordKeeps` | ballotbox/src/libballotbrain/handlers.c:165-287 | accepting a ballot with a fresh hash keeps the invariant of the whole store, other elections included |
| `BallotRuns.MoveKeeps` | ballotbox/src/libballotbrain/lifecycle.c:21-55 | a legal state change keeps it |
| `BallotRuns.InsertKeeps` | ballotbox/src/libballotbrain/db.c:234-284 | inserting an election under a new id keeps it |
| `BallotRuns.ChosenIdTakenIff` | ballotbox/src/libballotbrain/ballotbrain.c:53-88 | the id a creation settles on is in use if and only if it is automatic and either the read failed while E-100 exists, or the largest int is in use and the id it wraps to exists |
| `BallotRuns.CreateKeeps` | ballotbox/src/libballotbrain/handlers.c:36-73 | a creation, accepted or refused, keeps the invariant |
| `BallotRuns.NextKeeps` | ballotbox/src/libballotbrain/handlers.c:36-340 | every store event keeps it |
| `BallotRuns.InitialInv` | ballotbox/src/libballotbrain/db.c:234-284 | the empty store satisfies it |
| `BallotRuns.RunKeeps` | ballotbox/src/libballotbrain/handlers.c:36-340 | every run of creations, moves and recordings with fresh hashes keeps it |
| `BallotLaws.TallyIsVoters` | ballotbox/src/libballotbrain/db.c:520-555 | the tally sums to the live rows and to the owners |
| `BallotLaws.LiveAtMostEligible` | ballotbox/src/libballotbrain/db.c:557-596 | live rows <= eligible <= 64, so the listing's cap never cuts |
| `BallotLaws.HashesMatchTally` | ballotbox/src/libballotbrain/handlers.c:357-391 | the listed hashes are all live rows, and per option their number is the tally |
| `BallotLaws.ClosedIsFrozen` | ballotbox/src/libballotbrain/lifecycle.c:11-55 | once closed, an election's rows never change in any run and its state only advances |
| `BallotLaws.StateAdvances` | ballotbox/src/libballotbrain/lifecycle.c:11-19 | states never go backwards in any run |
| `BallotLaws.PublishedResultsFixed` | ballotbox/src/libballotbrain/handlers.c:357-438 | every results read after publishing is the same |
| `BallotLaws.EventAndHolders` | ballotbox/src/libballotbrain/handlers.c:165-287 | each event keeps a voter's receipt, or retires it exactly when it is that voter's next ballot; a retired receipt stays retired |
| `BallotLaws.HoldsThroughout` | ballotbox/src/libballotbrain/handlers.c:459-502 | a receipt is held through any run without a further ballot of its voter |
| `BallotLaws.RetiredForGood` | ballotbox/src/libballotbrain/db.c:445-486 | a retired receipt is never found again |
| `BallotLaws.ReceiptIssued` | ballotbox/src/libballotbrain/handlers.c:165-287 | the receipt returned with success is held by its voter with the option chosen |
| `BallotLaws.ReceiptLifetime` | ballotbox/src/libballotbrain/handlers.c:459-502 | a receipt returned with success is found with its option until that voter's next successful ballot, and never after |
| `BallotLaws.CreateKeepsIffNewId` | ballotbox/src/libballotbrain/ballotbrain.c:53-88 | an accepted creation keeps the invariant if and only if it is not in one of those two cases |
| `BallotRules.DecideRule` | ballotbox/src/libballotbrain/handlers.c:165-287 | a ballot is accepted if and only if its election is open, its voter listed, its option in range and its nonce unused; each refusal code has its own exact case |
| `BallotRules.JoinedRule` | ballotbox/src/libballotbrain/handlers.c:91-159 | a join is admitted if and only if the election is open and the voter listed, and then reports the owner row; each refusal code has its own exact case |
| `BallotRules.AnsweredRule` | ballotbox/src/libballotbrain/handlers.c:393-438 | results are given if and only if the election is published and the asker, if a voter, is listed; each refusal code has its own exact case |
| `BallotRules.AnsweredHolds` | ballotbox/src/libballotbrain/handlers.c:357-391 | an answer holds the title, every option by name with its number of live ballots, and every live ballot |
| `BallotRules.AnswersFixed` | ballotbox/src/libballotbrain/handlers.c:393-438 | once published, every asker gets the same answer in every later state of every run |
| `BallotRules.HiddenUntilPublished` | ballotbox/src/libballotbrain/handlers.c:393-438 | in no run does anybody get results before the election is published |
| `BallotRules.CheckedRule` | ballotbox/src/libballotbrain/handlers.c:459-502 | a check finds a hash if and only if a live ballot of the election bears it, and names its option |
| `BallotRules.CheckLifetime` | ballotbox/src/libballotbrain/handlers.c:459-502 | from an accepted ballot to that voter's next, a check of its receipt answers with the ballot and the stored name of the option chosen; after it, not found for ever |
| `BallotRules.TransitionRule` | ballotbox/src/libballotbrain/lifecycle.c:11-55 | a state change is made if and only if the election exists and the new state is the next one; nothing else about any election changes |
| `BallotRules.NotAfterIsBefore` | ballotbox/src/libballotbrain/config.c:14-28 | the time check is the byte order of the two texts, stated by their first difference |
| `BallotRules.CreatedRule` | ballotbox/src/libballotbrain/handlers.c:36-73 | an election is created if and only if it has a title, two options, opens before it closes, claims no id in use and holds only storable texts; each refusal code has its own exact case |
| `BallotRules.CreatedLoads` | ballotbox/src/libballotbrain/db.c:234-378 | what is loaded after a creation is the configuration, in draft, with options and voters cut to 16 and 64 |
| `BallotRules.ListsFixed` | ballotbox/src/libballotbrain/db.c:380-427 | no run changes an election's title, times, options or voters |
| `BallotRules.CreatedStays` | ballotbox/src/libballotbrain/db.c:234-378 | in every later state of every run loading a created election gives its configuration back |
| `BallotPolls.DecideShown` | ballotbox/src/libballotbrain/handlers.c:165-287 | the tables accept a ballot if and only if the poll they stand for, a map from voters to counted votes, admits it, with that poll's version |
| `BallotPolls.NextShown` | ballotbox/src/libballotbrain/handlers.c:36-340 | every creation, move and recording does to the six tables what it does to the map of polls |
| `BallotPolls.RunShown` | ballotbox/src/libballotbrain/handlers.c:36-340 | so in every run the tables stand for the polls of the same run |
| `BallotPolls.TallyShown` | ballotbox/src/libballotbrain/db.c:520-555 | live rows for an option = voters of the poll whose vote is for it |
| `BallotPolls.ResultsShown` | ballotbox/src/libballotbrain/handlers.c:357-438 | results answer for the poll: per option the number of its voters, and exactly the counted votes, only when published and only to the listed |
| `BallotPolls.CheckShown` | ballotbox/src/libballotbrain/handlers.c:459-502 | a check finds a receipt if and only if it is that of some voter's counted vote |
| `BallotPolls.JoinShown` | ballotbox/src/libballotbrain/handlers.c:91-159 | a join reports the voter's counted vote |
| `BallotPolls.HistoryCounts` | ballotbox/src/libballotbrain/handlers.c:36-502 | from an empty store, after any run, the results given out count for every option the voters whose last accepted ballot chose it |
| `BallotSample.FallbackClashes` | ballotbox/src/libballotbrain/ballotbrain.c:61-87 | a concrete store where a creation after a failed read is accepted and breaks the invariant |
| `BallotSample.AnnVotes` | ballotbox/src/libballotbrain/handlers.c:165-287 | a concrete sound store that accepts a ballot with a fresh hash |
| `BallotCollision.RecordKeepsIffFresh` | ballotbox/src/libballotbrain/db.c:445-486 | for every sound store and accepted ballot: the result is sound if and only if the hash is new |
| `BallotCollision.TwoShareAHash` | ballotbox/src/libballotbrain/db.c:429-443 | two first ballots with one hash give two live rows under it |
| `BallotCollision.ReplacementDropsBoth` | ballotbox/src/libballotbrain/db.c:445-486 | replacing one of two ballots that share a hash leaves neither counted |
| `BallotCollision.CollisionDropsVote` | ballotbox/src/libballotbrain/crypto.c:28-34 | nonces Az and BY get one receipt; when the first voter votes again the second voter's ballot stops counting |
| `BallotCollision.TwoBallotsBreakIt` | ballotbox/src/libballotbrain/crypto.c:58-70 | a concrete store and two accepted ballots after which the invariant is false |
| `BallotCollision.ThreeBallotsDropOne` | ballotbox/src/libballotbrain/db.c:445-486 | and a third, after which the second voter's receipt is no longer found |
| `Receipts.LowBitsDecide` | ballotbox/src/libballotbrain/crypto.c:18-26 | states equal modulo 2^20 print the same digits for ever |
| `Receipts.SeedLowBitsDecide` | ballotbox/src/libballotbrain/crypto.c:18-26 | the 64-digit hash depends on the seed only modulo 2^20 |
| `Receipts.NoncesCollide` | ballotbox/src/libballotbrain/crypto.c:28-70 | two different nonces have one receipt at every version |
| `BallotFaults.StepsMore` | ballotbox/src/libballotbrain/db.c:714-742 | statements go on while they are ok and stop at the first fault with its code |
| `BallotFaults.RedoneIffAborted` | ballotbox/src/libballotbrain/handlers.c:314-335 | an attempt is redone if and only if the schedule's first outcome of it that is not ok is an abort behind its begin, and when the next one starts |
| `BallotFaults.AttemptCommits` | ballotbox/src/libballotbrain/handlers.c:297-340 | an attempt ends in success exactly when the ballot is acceptable and every statement and the commit are ok |
| `BallotFaults.OkIffCommitted` | ballotbox/src/libballotbrain/handlers.c:297-340 | for every schedule: success if and only if the ballot is acceptable and the schedule aborts some attempts and then lets one whole attempt and its commit through |
| `BallotFaults.RetryIffAborted` | ballotbox/src/libballotbrain/handlers.c:297-340 | the retry code escapes if and only if the schedule aborts every attempt, or the begin of one |
| `BallotFaults.RetryEscapes` | ballotbox/src/libballotbrain/handlers.c:297-340 | a concrete schedule under which it escapes for every decision |
| `BallotBrain.Brain.RunInsertElection` | ballotbox/src/libballotbrain/db.c:234-284 | row, options and voters inserted; a fault's code otherwise |
| `BallotBrain.Brain.RunGetElection` | ballotbox/src/libballotbrain/db.c:286-378 | three reads assemble the election |
| `BallotBrain.Brain.RunUpdateState` | ballotbox/src/libballotbrain/db.c:380-427 | delete and reinsert amount to changing the state |
| `BallotBrain.Brain.RunMarkSuperseded` | ballotbox/src/libballotbrain/db.c:445-486 | delete by hash and reinsert the first row, superseded |
| `BallotBrain.Brain.RunSetOwner` | ballotbox/src/libballotbrain/db.c:499-518 | delete and insert amount to setting the owner row |
| `BallotBrain.Brain.RunGetTally` | ballotbox/src/libballotbrain/db.c:520-555 | one count per live row with a valid option |
| `BallotBrain.Brain.RunGetHashes` | ballotbox/src/libballotbrain/db.c:557-596 | the live rows, at most 64 |
| `BallotBrain.Brain.RunOp` | ballotbox/src/libballotbrain/db.c:691-708 | each command does its table operation in its number of statements, and a read changes nothing |
| `BallotFaults.ShotAborted` | ballotbox/src/libballotbrain/db.c:714-742 | a try of a one-shot command ends in an abort if and only if it connects and the first of its statements, begin and commit included, that is not ok is aborted; and when the next one starts |
| `BallotFaults.ShotsWork` | ballotbox/src/libballotbrain/db.c:744-773 | a one-shot command succeeds if and only if it works and, after aborted tries, one of the first three is answered ok throughout; every other schedule is heard as a plain failure |
| `BallotBrain.Brain.WriteOnce` | ballotbox/src/libballotbrain/db.c:721-742 | a write happens wholly, with its commit, or not at all, on any schedule |
| `BallotBrain.Brain.OneShot` | ballotbox/src/libballotbrain/db.c:714-742 | a one-shot command happens wholly or not at all; its code and its time on any schedule |
| `BallotBrain.Brain.DbExec` | ballotbox/src/libballotbrain/db.c:744-773 | the same of three tries on any schedule; an abort never gets out |
| `BallotBrain.Brain.Begin` | ballotbox/src/libballotbrain/txn.c:21-37 | opens a working copy of the committed store, or leaves none open |
| `BallotBrain.Brain.Commit` | ballotbox/src/libballotbrain/txn.c:39-47 | the working copy becomes the store exactly when the commit answers ok; none stays open |
| `BallotBrain.Brain.Rollback` | ballotbox/src/libballotbrain/txn.c:49-58 | none stays open and the store is untouched |
| `BallotBrain.Brain.CheckEligibility` | ballotbox/src/libballotbrain/handlers.c:77-87 | true exactly when the name is listed |
| `BallotBrain.Brain.RecordLocked` | ballotbox/src/libballotbrain/handlers.c:165-287 | on any schedule the statements follow the decision taken from the working copy: first fault's code, or its result |
| `BallotBrain.Brain.TryRecord` | ballotbox/src/libballotbrain/handlers.c:314-335 | one attempt: its result, time and whether it is redone; the store changes exactly on success; no transaction stays open |
| `BallotBrain.Brain.RecordBallot` | ballotbox/src/libballotbrain/handlers.c:297-340 | for every schedule: result and time of at most three attempts; success means the accepted store and its receipt; any other result leaves the store unchanged; no transaction stays open |
| `BallotBrain.Brain.LoadElection` | ballotbox/src/libballotbrain/handlers.c:14-32 | the election, not found, or a store error, changing nothing |
| `BallotBrain.Brain.TransitionState` | ballotbox/src/libballotbrain/lifecycle.c:21-55 | two one-shot calls that, served serially, make one legal transition or none |
| `BallotBrain.Brain.AllocateId` | ballotbox/src/libballotbrain/ballotbrain.c:53-88 | the next number after the largest, wrapping past the largest int, or E-100 when the read fails |
| `BallotBrain.Brain.CreateElection` | ballotbox/src/libballotbrain/handlers.c:36-73 | creates under the chosen id, or refuses and changes nothing |
| `BallotBrain.Brain.Join` | ballotbox/src/libballotbrain/handlers.c:91-159 | what the voter is told matches the store, the prior ballot's version included |
| `BallotBrain.Brain.GetResults` | ballotbox/src/libballotbrain/handlers.c:357-438 | both gates and the results, changing nothing |
| `BallotBrain.Brain.LookupHash` | ballotbox/src/libballotbrain/handlers.c:459-502 | a live row by hash with its option's name, whatever the state |
| `BallotBrain.Brain.Dispatch` | ballotbox/src/ballotd/dispatch.c:13-120 | every request is one store event or none, and every answer is true of the store; ids are those of a successful read when nothing fails |
| `BallotBrain.Brain.Serve` | ballotbox/src/ballotd/main.c:368-395 | serial service makes any sequence of requests, under any faults, a run of events, at most one a request and in their order; trusted runs keep the invariant |
| `BallotBrain.DecideNeverOk` | ballotbox/src/libballotbrain/handlers.c:165-287 | no refusal carries success or the retry code |
| `BallotIds.LastDash` | ballotbox/src/libballotbrain/db.c:119-126 | the last dash, or none |
| `BallotIds.AutoIdSeq` | ballotbox/src/libballotbrain/db.c:119-126 | E-n carries n as its sequence number for every int n >= 0 |
| `BallotIds.AllocatedIdTakenIff` | ballotbox/src/libballotbrain/ballotbrain.c:53-88 | an allocated id is in use in exactly two cases: a failed read with E-100 in use, or the largest int in use and the id it wraps to |
| `BallotIds.AllocatedIdIsNew` | ballotbox/src/libballotbrain/ballotbrain.c:53-88 | an id allocated from a successful read below INT_MAX differs from every stored id |
| `BallotIds.NumbersInTurn` | ballotbox/src/libballotbrain/ballotbrain.c:53-88 | automatic ids come in turn: E-100 in an empty store, above every number in use, and the next number after each |
| `BallotServed.HashIsText` | ballotbox/src/libballotbrain/crypto.c:18-26 | every receipt is 64 hex digits |
| `BallotServed.NextTexts` | ballotbox/src/libballotbrain/db.c:87-92 | every event keeps stored texts free of line breaks and stored hashes receipts |
| `BallotServed.RunTexts` | ballotbox/src/libballotbrain/db.c:87-92 | so does every run |
| `BallotServed.JoinTold` | ballotbox/src/ballotd/dispatch.c:53-56 | every JOIN answer the daemon gives can be written and reaches the client whole, prior ballot and version included |
| `BallotServed.ResultsTold` | ballotbox/src/ballotd/dispatch.c:63-77 | every RESULTS answer the daemon gives can be written within its buffer and reaches the client whole |
| `BallotVoter.HeldGrows` | ballotbox/src/libballotbrain/handlers.c:219-231 | a voter's version rises by one with exactly that voter's accepted ballots |
| `BallotVoter.JoinHeard` | ballotbox/src/libballotclient/codec.c:228-233 | a JOIN that is heard names the caller's id up to its first '/', never an empty one |
| `BallotVoter.BallotHeard` | ballotbox/src/libballotclient/codec.c:320-329 | so does a ballot, and it brings its nonce and option |
| `BallotVoter.JoinAgrees` | ballotbox/src/libballotclient/voter.c:69-126 | right after an admitted join, over both codecs, session and server agree on ballot and version for the election the id names on the wire and the name the connection logged in under |
| `BallotVoter.SubmitSeen` | ballotbox/src/libballotclient/voter.c:128-172 | a client is told of success only when the server recorded its ballot, under that id and name |
| `BallotVoter.StepKeeps` | ballotbox/src/libballotclient/voter.c:69-172 | every step, lost messages included, keeps every session's version at or below the server's and has_ballot true only if the server holds one |
| `BallotVoter.OwnIdInStep` | ballotbox/src/libballotclient/voter.c:69-126 | for an id without '/' the same holds of the id the session keeps |
| `BallotVoter.OwnIdIff` | ballotbox/src/libballotclient/voter.c:69-126 | joins under an id that can be sent leave the session in step with that very id if and only if it holds no '/' or begins with one |
| `BallotVoter.SlashMisleads` | ballotbox/src/libballotclient/voter.c:102-116 | for every other id with a '/': a store and an admitted join after which the session claims a ballot the server does not hold under its id |
| `BallotVoter.SampleSlash` | ballotbox/src/libballotclient/voter.c:102-116 | for one, E-1/x |
| `BallotVoter.CastNeverCountsTwice` | ballotbox/src/ballotd/dispatch.c:53-61 | CAST or UPDATE, an accepted ballot leaves one owner row and adds a live row only for a first ballot |
| `BallotVoter.RunKeepsInStep` | ballotbox/src/libballotclient/voter.c:69-172 | so does every interleaving of several sessions |
| `BallotEndToEnd.SubmissionTold` | ballotbox/src/libballotclient/voter.c:128-172 | session to codec to wire to tables and back: an answered submission tells its client the server's own receipt, or the very code it refused with |
| `BallotEndToEnd.SubmissionRule` | ballotbox/src/libballotclient/voter.c:128-172 | the client is told ok if and only if the election reached is open, the login listed, the option in range and the nonce unused; each refusal it sees has its own exact case |
| `BallotEndToEnd.ReceiptChecks` | ballotbox/src/libballotclient/voter.c:128-172 | the receipt a session shows after an accepted ballot is found by a check, with the option chosen and its name, until that voter's next ballot, whatever else happens |
| `BallotEndToEnd.JoinRule` | ballotbox/src/libballotclient/voter.c:25-126 | an answered join is admitted if and only if the election reached is open and the login listed; each other outcome has its own exact case, and none is a timeout |
| `BallotEndToEnd.RouteIsRight` | ballotbox/src/libballotclient/voter.c:15-23 | in every reachable world a session that would send an update does so over a ballot the server holds |
| `LogSender.StepHolder` | core/src/libtetrisutil/logmsg.c:166-214 | the trylock has at most one holder after every step |
| `LogSender.StepClaims` | core/src/libtetrisutil/logmsg.c:166-214 | a claim read under the lock never exceeds the count it will be subtracted from |
| `LogSender.StepBalance` | core/src/libtetrisutil/logmsg.c:156-214 | every atomic step keeps the balance of drops |
| `LogSender.EveryInterleaving` | core/src/libtetrisutil/logmsg.c:156-214 | in every interleaving of any number of threads: lifetime = delivered + unreported + in flight + saturated - not yet subtracted |
| `LogSender.NoUnderflow` | core/src/libtetrisutil/logmsg.c:156-214 | the subtraction never underflows |
| `LogSender.RunUnsaturated` | core/src/libtetrisutil/logmsg.c:156-164 | saturation loses nothing before 2^64-1 drops |
| `LogSender.LoggerStats.ServeAll` | core/src/tetrislogd/logger.c:319-330 | a sequence of records adds the believed claims |
| `LogSender.BelievedIsSum` | core/src/tetrislogd/logger.c:319-330 | the logger's total is what was delivered if and only if no claim is over the cap |
| `LogSender.EveryCallAnswered` | core/src/libtetrisutil/logmsg.c:156-214 | in every interleaving: calls begun = records delivered + drops counted + calls still open, so no call goes unaccounted |
| `LogSender.SoloSend` | core/src/libtetrisutil/logmsg.c:166-214 | a call alone whose send succeeds delivers one record that claims every unreported drop, and leaves none unreported |
| `LogSender.SoloFail` | core/src/libtetrisutil/logmsg.c:166-214 | a call alone whose send fails gives the lock back, is counted as dropped and delivers nothing |
| `LogSender.SoloContended` | core/src/libtetrisutil/logmsg.c:166-180 | a call alone that does not get the lock is counted as dropped, delivers nothing and leaves the holder alone |
| `LogSender.QuiescentAccounting` | core/src/libtetrisutil/logmsg.c:156-214 | with all threads idle, logger total + unreported = every drop there was, and calls begun = delivered + dropped |
| `DbWire.Reader.Fill` | core/src/libtetrisdb/wire.c:76-104 | a refill changes how bytes are held, not which are to come |
| `DbWire.Reader.Drain` | core/src/libtetrisdb/wire.c:106-116 | the inner loop takes up to and including a newline, keeping at most cap-1 bytes |
| `DbWire.Reader.ReadLine` | core/src/libtetrisdb/wire.c:70-118 | however bytes are split into reads: the next line cut to cap-1, nothing past its newline consumed, or the end condition |
| `DbWire.Reader.ReadResponse` | core/src/libtetrisdb/wire.c:155-185 | however bytes are split: the next response's meaning and body, stopping right after its marker |
| `DbWire.BodyOfMore` | core/src/libtetrisdb/wire.c:175-183 | the conditional appends build the lines joined and cut to the buffer |
| `DbWire.PrintedIsRead` | core/src/libtetrisdb/wire.c:155-185 | a printed response is read back as its lines and marker meaning, and the stream is left at the next one |
| `DbWire.VerdictHeard` | core/src/libtetrisdb/wire.c:146-185 | the caller hears the verdict that was printed: success if and only if it is ok, another try if and only if it is retry, an error otherwise |
| `Htttp.UintPrint` | core/src/libhtttp/htttp.c:85-109 | parse_uint of a printed number is that number for every 32-bit value, and too long for every larger one |
| `Htttp.ReadHeaderText` | core/src/libhtttp/htttp.c:139-162 | a printed header line reads back as the header; as malformed if its key holds ':'; as too long after 32 |
| `Htttp.TailRead` | core/src/libhtttp/htttp.c:117-164 | a printed header block reads back whole, or malformed at a ':' key, or too long at the 33rd header |
| `Htttp.BodyRead` | core/src/libhtttp/htttp.c:166-194 | with the generated length the body reads back exactly |
| `Htttp.RequestRoundTrip` | core/src/libhtttp/htttp.c:199-463 | for every request the serializer accepts: the text parses to the same method, path, body and sent headers if and only if no sent key holds ':' and they are at most 32; otherwise it is refused as malformed or too long |
| `HtttpLaws.Reason` | core/src/libhtttp/htttp.c:574-603 | every status with a phrase is within the parser's 100..599 |
| `HtttpLaws.ResponseRoundTrip` | core/src/libhtttp/htttp.c:249-526 | the same for responses with their generated Date |
| `HtttpLaws.ReadTailFacts` | core/src/libhtttp/htttp.c:117-194 | a parsed block never has a ':' in a key, an oversized field, more than 32 headers, or a body without a declared length |
| `HtttpLaws.ParsedIsRelayed` | core/src/libhtttp/htttp.c:199-463 | a parsed request that serializes always parses again to itself with its length regenerated |
| `HtttpLaws.RelayedTextIsTheSame` | core/src/libhtttp/htttp.c:354-388 | passing a request on again changes no byte |
| `HtttpLaws.PutHeadersFits` | core/src/libhtttp/htttp.c:361-388 | the header loop succeeds if and only if every emitted header is good and all lines fit |
| `HtttpLaws.RequestFits` | core/src/libhtttp/htttp.c:417-463 | serializing succeeds if and only if the request is printable and its full text fits; a printable one is only ever refused for space |
| `HtttpLaws.ResponseFits` | core/src/libhtttp/htttp.c:466-526 | the same for responses |
| `HtttpGrammar.RequestExact` | core/src/libhtttp/htttp.c:199-247 | for every byte string and request: the parser reads the one as the other if and only if the string is that request's text and the request is of the grammar |
| `HtttpGrammar.ResponseExact` | core/src/libhtttp/htttp.c:249-294 | the same for responses, up to the reason phrase the parser drops |
| `HtttpGrammar.TailExact` | core/src/libhtttp/htttp.c:117-194 | the same for a header block with its body, behind any headers already read |
| `HtttpGrammar.HeaderExact` | core/src/libhtttp/htttp.c:117-156 | the same for one header line |
| `HtttpCode.FindCrlf` | core/src/libhtttp/htttp.c:40-55 | the first CRLF at or after the offset, or none |
| `HtttpCode.NamesEqual` | core/src/libhtttp/htttp.c:16-33 | equality without regard to ASCII case, lengths included |
| `HtttpCode.HeaderGet` | core/src/libhtttp/htttp.c:531-542 | the first header with the name |
| `HtttpCode.HeaderSet` | core/src/libhtttp/htttp.c:545-568 | appends exactly when key and value are valid and fit; malformed before too long |
| `HtttpCode.GuardIsOverflow` | core/src/libhtttp/htttp.c:101-104 | the guard before the multiplication holds exactly when 32 bits would overflow |
| `HtttpCode.ParseUint` | core/src/libhtttp/htttp.c:85-109 | accepts exactly the decimal numbers of 32 bits in at most 32 digits, with each error code's exact case |
| `HtttpCode.ParseHeader` | core/src/libhtttp/htttp.c:139-161 | one line by its first colon, with the order of the checks |
| `HtttpCode.ParseTail` | core/src/libhtttp/htttp.c:117-194 | the offset loop is the block grammar |
| `HtttpCode.ParseBody` | core/src/libhtttp/htttp.c:166-193 | the declared length must be what remains |
| `HtttpCode.ScanRequest` | core/src/libhtttp/htttp.c:199-246 | the whole request parser on every byte string |
| `HtttpCode.ScanResponse` | core/src/libhtttp/htttp.c:249-294 | the whole response parser on every byte string |
| `HtttpCode.Output.Append` | core/src/libhtttp/htttp.c:322-336 | all of the text is written at the cursor or nothing is, and never past the capacity |
| `HtttpCode.Output.EmitHeader` | core/src/libhtttp/htttp.c:339-352 | the line is written whole, or there is no room |
| `HtttpCode.Output.EmitHeaders` | core/src/libhtttp/htttp.c:361-388 | the caller's headers but the regenerated ones, in order, or the first refusal |
| `HtttpCode.Output.EmitBody` | core/src/libhtttp/htttp.c:392-412 | generated length, blank line and body |
| `HtttpCode.Output.SerializeRequest` | core/src/libhtttp/htttp.c:417-463 | writes exactly the request's text, or gives the first refusal; nothing past the capacity changes |
| `HtttpCode.Output.SerializeResponse` | core/src/libhtttp/htttp.c:466-526 | the same for a response and its date |
| `BallotCodec.Unhex` | ballotbox/src/libballotclient/codec.c:129-142 | a decoded payload has one byte per two digits and fits |
| `BallotCodec.UnhexHex` | ballotbox/src/libballotclient/codec.c:111-142 | decoding undoes encoding for every payload that fits |
| `BallotCodec.UnhexWritten` | ballotbox/src/libballotclient/codec.c:129-142 | text is refused if and only if it is odd, too long, or has a bad pair; the bytes before that pair are written all the same |
| `BallotTrip.PairsRead` | ballotbox/src/libballotclient/codec.c:184-219 | the lines written read back as their pairs, values cut at 319 bytes |
| `BallotTrip.CreateFold` | ballotbox/src/libballotclient/codec.c:244-259 | the callbacks rebuild id, title, times, options and voters in order |
| `BallotTrip.BallotFold` | ballotbox/src/libballotclient/codec.c:266-277 | nonce and payload come back up to 159 bytes; a longer payload is not accepted at all |
| `BallotTrip.PayloadTaken` | ballotbox/src/libballotclient/codec.c:270-275 | an accepted payload line makes the payload its own bytes whatever was there |
| `BallotTrip.PayloadRefused` | ballotbox/src/libballotclient/codec.c:270-275 | a refused line changes neither length nor acceptance, and leaves an earlier payload intact if and only if the pairs before its bad one spell what is already there |
| `BallotTrip.RefusedLineShowsThrough` | ballotbox/src/libballotclient/codec.c:129-142 | for one: lines 00 and 01zz are accepted as the byte 1 |
| `BallotTrip.CutHexRefused` | ballotbox/src/libballotclient/codec.c:210-213 | a payload cut at 319 digits is refused, not shortened |
| `BallotTrip.PathRead` | ballotbox/src/libballotclient/codec.c:228-233 | the path gives the id up to its first '/', or refuses if that is empty |
| `BallotTrip.OpNameRead` | ballotbox/src/libballotclient/codec.c:31-44 | every operation's name reads back as it |
| `BallotTrip.HttpArrives` | ballotbox/src/libballotclient/codec.c:345-358 | every encoded call's message survives the HTTTP layer |
| `BallotTrip.CallDecodes` | ballotbox/src/libballotclient/codec.c:286-410 | decode after encode, for every operation and every call that encodes |
| `BallotTrip.CallComesBack` | ballotbox/src/libballotclient/codec.c:286-410 | a call that encodes comes back with all its operation's fields if and only if its path id is non-empty and '/'-free, its check hash non-empty, its ballot the caller's own and at most 159 bytes; every other outcome is given exactly |
| `BallotTrip.BallotEncodes` | ballotbox/src/libballotclient/codec.c:320-329 | a ballot encodes if and only if its nonce has no line break, its payload is at most 256 bytes, and name and id are printable |
| `BallotTrip.LongBallotRefused` | ballotbox/src/libballotclient/codec.c:266-277 | every ballot of 160 to 256 bytes encodes and is then refused |
| `BallotReply.StatusComesBack` | ballotbox/src/libballotclient/codec.c:46-87 | every result but the retry code has a name on the wire, and that name reads back as it |
| `BallotReply.NoAnswerIffAborted` | ballotbox/src/libballotclient/codec.c:460-470 | for every schedule: recording ends in a result no answer can carry if and only if all three attempts were aborted or one was aborted at its begin |
| `BallotCodecCode.HexEncode` | ballotbox/src/libballotclient/codec.c:111-120 | two lower-case digits a byte |
| `BallotCodecCode.HexDecode` | ballotbox/src/libballotclient/codec.c:129-142 | result and output array for every text, the bytes written before a refusal included |
| `BallotCodecCode.Body.Append` | ballotbox/src/libballotclient/codec.c:148-178 | text is taken exactly when it fits with its terminator and breaks no line before its end; otherwise the body is unchanged |
| `BallotCodecCode.Body.Put` | ballotbox/src/libballotclient/codec.c:148-178 | a line is taken exactly when its value has no line break and it fits |
| `BallotCodecCode.Body.PutAll` | ballotbox/src/libballotclient/codec.c:305-308 | a line per value, or refusal exactly when one cannot be written |
| `BallotCodecCode.ForEach` | ballotbox/src/libballotclient/codec.c:184-219 | the callback sees every key=value line in order, cut and NUL-terminated as stored |
| `BallotCodecCode.LinePair` | ballotbox/src/libballotclient/codec.c:196-216 | one line's key and value, or none |
| `BallotCodecCode.EncodeBody` | ballotbox/src/libballotclient/codec.c:297-343 | the body of every operation, refused exactly when a field breaks a line, a payload is over 256 bytes or 8192 bytes do not hold it |
| `BallotCodecCode.EncodeRequest` | ballotbox/src/libballotclient/codec.c:286-359 | succeeds if and only if the call encodes and its text fits, and then writes exactly that text |
| `BallotCodecCode.OpFromMethod` | ballotbox/src/libballotclient/codec.c:37-44 | the table search finds the operation of that name, if any |
| `BallotCodecCode.DecodeRequest` | ballotbox/src/libballotclient/codec.c:361-410 | the decoder on every parsed request |
| `BallotAnswer.HttpStatus` | ballotbox/src/libballotclient/codec.c:414-446 | every result's status has a reason phrase, so no answer is refused for it; 200, 403, 404 and 500 stand for exactly the results of their kind |
| `BallotAnswer.ScanPrinted` | ballotbox/src/libballotclient/codec.c:599-600 | a printed int reads back and stops right behind it, for every int |
| `BallotAnswer.TallyRead` | ballotbox/src/libballotclient/codec.c:615-623 | a printed tally reads back in order |
| `BallotAnswer.ReadRow` | ballotbox/src/libballotclient/codec.c:626-638 | a row that is kept has a non-empty hash without a comma |
| `BallotAnswer.RowRead` | ballotbox/src/libballotclient/codec.c:626-638 | a printed row with such a hash reads back |
| `BallotAnswerTrip.AnswerEncodes` | ballotbox/src/libballotclient/codec.c:460-569 | an answer within its arrays can be written if and only if its status is not the retry code and none of its texts breaks a line: it is never too long |
| `BallotAnswerTrip.AnswerDecodes` | ballotbox/src/libballotclient/codec.c:578-676 | decoding gives back every field the operation carries, counts included |
| `BallotAnswerTrip.KeptRowsPlain` | ballotbox/src/libballotclient/codec.c:626-638 | on every body: each row kept has a non-empty hash without a comma |
| `BallotAnswerTrip.AnswerComesBack` | ballotbox/src/libballotclient/codec.c:460-676 | an answer that can be written comes back with all its operation's fields if and only if every listed hash is non-empty and free of commas |
| `BallotAnswerTrip.DecodedFits` | ballotbox/src/libballotclient/codec.c:571-676 | whatever bytes a server sends, the decoded answer stays within its arrays and its two counts within what they count |
| `BallotAnswerCode.PutTally` | ballotbox/src/libballotclient/codec.c:522-527 | the tally line written number by number is the line, or there is no room |
| `BallotAnswerCode.EncodeAnswer` | ballotbox/src/libballotclient/codec.c:460-569 | succeeds if and only if the answer can be written and fits, and then writes exactly its text |
| `BallotAnswerCode.DecodeResponse` | ballotbox/src/libballotclient/codec.c:648-676 | the decoder on every parsed response |

## Left out

- Sockets, polling, signals, threads' scheduling, process control and every screen.
- Encryption, certificates and receipt strength: the option is the first payload byte, as in the placeholder, and freshness of receipts is a hypothesis of each recording step.
- SQL text, quoting and row order beyond insertion order: each `run_*` is its table operation. A commit that reports failure is taken not to have committed.
- Clocks, deadlines and the Date header's text: arbitrary values or end conditions.
- The room table of tetrisd: an attack is an arbitrary step of the environment.
- Overflow of score, lines, coordinates and ballot versions: these C ints are unbounded here (a version that is sent must be an int); election numbers, the piece counter, the generator, the receipt hash, the parsed lengths and the drop counters have their real widths.
- NULL arguments: every modelled call has its buffers.
- Order of the C library's own writes: `memcpy`, `snprintf` and `sscanf` are their effects.
- HtttpCode.ScanRequest: the body is a copy of the buffer's rest, so that it must outlive the request is not modelled.
- BallotCodecCode.ForEach: the callback is a function from context to context, so a callback that writes elsewhere is not modelled.
- BallotBrain.Brain.Serve: serial service is built in; what concurrent dispatch would do is not modelled.
- BallotBrain.Brain.Dispatch: when statements may fail, a CREATE answer's id is true for some outcome of the id read, since the code does not report whether that read succeeded.
- BallotBrain.Brain.AllocateId: one past the largest int is undefined in C; the model wraps.
- BallotServed.JoinTold: requires the version to be an int, as BallotVoter.StepKeeps does of the versions its joins read; versions are unbounded here.
- TetrisEngine.GameState.HardDrop: requires a legal active piece, since with a shapeless one the C loop does not end.
