# A verified model of the sandbox chess engine

This project models the chess engine in `sandbox/chess_engine.py` in Dafny and proves properties of it. The engine covers:

- a 64-cell board, with index 0 = a8 and 63 = h1 and `'.'` for an empty cell;
- Forsyth-Edwards Notation (FEN) in and out;
- a `GameState` object whose `push_move` / `pop_move` update the board in place, keep a history stack and recompute a Zobrist (XOR) hash;
- pseudo-legal move generation per piece, the `is_square_attacked` test and the push / test king / pop legality filter;
- a material plus piece-square-table evaluation;
- a `Searcher` with negamax alpha-beta, a transposition table, mate and stalemate scores, fail-hard capture-only quiescence, a root loop and iterative deepening;
- `parse_move_input`, which matches typed coordinates such as `e2e4` or `e7e8q` against the legal moves.

The model has two layers:

- **Values.** Each operation is first a function on values, such as `Position`, `Move`, `FenRecord`, the search's `Table` and its `Outcome`. The properties are proved about these functions.
- **Imperative.** Each part the engine computes step by step is also a method in the engine's own form, proved equal to its function:
  - `GameState` is a class with a `board: array<char>` and the position fields;
  - the generators append to a move list in loops;
  - `filter_legal_moves` pushes and pops around each test;
  - the `Searcher` class rewrites its `tt` map;
  - `fen_to_board`, `board_to_fen`, `compute_zobrist` and `evaluate` accumulate in loops.

The modules follow the engine's sections:

| Module | Covers |
|---|---|
| `Common`, `Squares`, `Text` | character classes, square names, and the Python string operations used: `split`, `'/'.join`, `int`, `str`, `strip` |
| `Pieces` | piece colours |
| `Fen` | `fen_to_board`, `board_to_fen` and the round trip |
| `Positions` | `Move`, `make_move_struct`, and the effect of push and pop on values |
| `Zobrist` | the XOR hash |
| `State` | the `GameState` class |
| `Movegen`, `Generators` | the generators as functions and as methods |
| `MoveFacts`, `MoveShapes` | what every generated move satisfies |
| `Attacks`, `CheckFacts` | `is_square_attacked`, and its agreement with the capture moves of the other side |
| `Legality` | `filter_legal_moves` |
| `Evaluation` | `pst_value`, `evaluate` |
| `Ordering` | `order_moves` and the quiescence capture sort |
| `Search` | the search functions and their lemmas |
| `Searching` | the `Searcher` methods and `quiescence` |
| `Notation` | `parse_move_input` |

Two parts of the engine are modelled twice, as written and corrected: the castling generator (as written it castles from whatever square the king stands on) and the pawn part of `is_square_attacked` (as written it looks for attacking pawns on the wrong side of the square). Both as-written forms are stated and compared with the corrected ones under "## Findings". The move generator, the legality test and the search above them use the corrected forms. "## Left out" has a line for each generator, attack-test and legality member that states a corrected form. Everything stated over `PseudoLegal`, `Attacked` or `LegalMoves` inherits both corrections: the search functions and methods, and `ParseMoveInput`.

The search functions take their ingredients as a parameter of type `Ingredients`: the table key, the evaluation, and the move and capture lists. `Engine(keys)` supplies the engine's own. The methods carry a ghost `o` with `IsEngine(o, keys)`, and `EngineIsEngine` shows that `Engine(keys)` qualifies.

## Model

| member | source | states |
|---|---|---|
| Common.DigitValue | sandbox/chess_engine.py:39 | a digit character denotes a number below ten, as `int(ch)` reads it |
| Common.DigitChar | sandbox/chess_engine.py:60 | the digit written for d < 10 is a digit that reads back as d |
| Common.Upper | sandbox/chess_engine.py:297 | ASCII case mapping, as `str.upper` does on the letters a board holds: a lower-case letter becomes the upper-case letter whose lower case is itself; anything else is unchanged |
| Common.Lower | sandbox/chess_engine.py:798 | ASCII case mapping, as `str.lower` does on the letters a board holds: an upper-case letter becomes lower case; anything else is unchanged |
| Squares.PyMod8 | sandbox/chess_engine.py:279-280 | Python's `i % 8` (floor remainder) always lies in 0..7 |
| Squares.PyDiv8 | sandbox/chess_engine.py:282-283 | Python's `i // 8` and `i % 8` recombine to i, for negative i as well |
| Squares.FileOfVertical | sandbox/chess_engine.py:279-280 | a step of one rank up or down keeps the file |
| Squares.FileOfSide | sandbox/chess_engine.py:332-335 | a sideways step stays one file away unless it wraps round an edge, in which case the file distance is 7 |
| Squares.SqToCoords | sandbox/chess_engine.py:67-71 | for a square name, the index is on the board and has the named file and rank `8 - digit` |
| Squares.IdxToSq | sandbox/chess_engine.py:73-76 | the name of every board index is a well-formed square name |
| Squares.IndexRoundTrip | sandbox/chess_engine.py:67-76 | `sq_to_coords(idx_to_sq(i)) == i` for every i in 0..63 |
| Squares.SquareNameRoundTrip | sandbox/chess_engine.py:67-76 | `idx_to_sq(sq_to_coords(s)) == s` for every square name |
| Text.Split | sandbox/chess_engine.py:33 | `str.split()`: every field is non-empty and holds no whitespace |
| Text.IndexOf | sandbox/chess_engine.py:34 | the first occurrence of a separator: nothing before it matches, and it matches when found |
| Text.SplitOn | sandbox/chess_engine.py:34 | `str.split('/')` gives at least one part and no part contains the separator |
| Text.NatToString | sandbox/chess_engine.py:60 | `str(n)` of a natural is a non-empty digit string whose value is n |
| Text.IntToString | sandbox/chess_engine.py:65 | `str(n)` is non-empty and holds no space and no '/' |
| Text.ParseInt | sandbox/chess_engine.py:45-46 | `int()` of a field succeeds exactly when the field is an optional '+' or '-' followed by digits grouped by single underscores; the value is those digits read in decimal, negated after '-' |
| Text.ParseIntGrouping | sandbox/chess_engine.py:45-46 | `int("1_0") == 10` |
| Text.ParseIntBadGrouping | sandbox/chess_engine.py:45-46 | `int()` refuses "1__0", "_1" and "1_" |
| Text.ParseIntToString | sandbox/chess_engine.py:45-65 | `int(str(n)) == n` for every integer n |
| Text.SplitJoin | sandbox/chess_engine.py:33-65 | splitting a space-join of non-empty space-free fields gives the fields back |
| Text.SplitOnJoin | sandbox/chess_engine.py:34-64 | splitting a '/'-join on '/' gives the parts back when none contains '/' |
| Text.JoinSplitOn | sandbox/chess_engine.py:34-63 | joining the parts of `split('/')` with '/' gives the text back |
| Text.StripLeft | sandbox/chess_engine.py:791 | the left half of `strip()`: a suffix that does not start with whitespace, and every dropped character is whitespace |
| Text.StripRight | sandbox/chess_engine.py:791 | the right half of `strip()`: a prefix that does not end with whitespace, and every dropped character is whitespace |
| Text.StripSpaceShape | sandbox/chess_engine.py:791 | `s.strip()` is the slice of s between a leading and a trailing run of whitespace, and neither starts nor ends with whitespace |
| Text.StripSpaceKeeps | sandbox/chess_engine.py:791 | a string that neither starts nor ends with whitespace is its own strip |
| Text.StripSpaceIdempotent | sandbox/chess_engine.py:791 | `strip()` is idempotent |
| Pieces.ColorOf | sandbox/chess_engine.py:90-92 | `color_of` is None exactly for '.', and a piece letter is 'w' exactly when it is upper case |
| Pieces.Opponent | sandbox/chess_engine.py:181 | the other side of 'w' or 'b' is the other of the two |
| Pieces.SwapCase | sandbox/chess_engine.py:81-82 | swapping case maps a piece to the same kind of the other colour |
| Pieces.SwapCaseTwice | sandbox/chess_engine.py:81-82 | swapping a cell's case twice gives the cell back |
| Fen.Dots | sandbox/chess_engine.py:39 | `'.' * n` is n empty cells |
| Fen.ParseFen | sandbox/chess_engine.py:32-47 | `fen_to_board`: fewer than four fields is the IndexError; fields 2-4 are copied; the board is the row-by-row expansion of field 1; halfmove is the integer in field 5, or 0 when it is missing; fullmove is the integer in field 6, or 1 when it is missing (with four or five fields); on a board field of ASCII characters, it fails exactly when a present clock field is not an integer |
| Fen.BoardRows | sandbox/chess_engine.py:50-63 | `board_to_fen` writes eight rows |
| Fen.FenToBoard | sandbox/chess_engine.py:32-47 | the loop that extends the board row by row returns exactly `ParseFen(fen)` |
| Fen.ExtendByRow | sandbox/chess_engine.py:37-41 | the inner loop appends exactly the cells the row denotes |
| Fen.BoardToFen | sandbox/chess_engine.py:49-65 | the loop over the rows returns exactly `EncodeFen(rec)` |
| Fen.RowToText | sandbox/chess_engine.py:52-62 | the run-counting loop for row r writes exactly the canonical row text |
| Fen.EncodeRowStep | sandbox/chess_engine.py:55-61 | one cell of the row loop: an empty cell lengthens the run; a piece flushes the run count, then the piece |
| Fen.ExpandRowConcat | sandbox/chess_engine.py:37-41 | the cells of a concatenation of row texts are the concatenation of their cells |
| Fen.ExpandEncodeRow | sandbox/chess_engine.py:52-62 | reading back a written row gives its cells after the pending empty run |
| Fen.EncodeRowChars | sandbox/chess_engine.py:52-62 | a written row holds only piece letters, digits and a minus sign (which only a negative run count could write) |
| Fen.RowTextExpands | sandbox/chess_engine.py:52-62 | row r of `board_to_fen` reads back as cells 8r..8r+7 of the board |
| Fen.ExpandRowsPrefix | sandbox/chess_engine.py:34-41 | the first n written rows read back as the first 8n cells |
| Fen.RowsArePlain | sandbox/chess_engine.py:63-64 | no written row holds a space or a '/' |
| Fen.SplitEncodeFen | sandbox/chess_engine.py:33-65 | `split()` of a written FEN gives exactly its six fields |
| Fen.BoardFieldRoundTrip | sandbox/chess_engine.py:34-64 | splitting the written board field on '/' and expanding gives the board back |
| Fen.FenRoundTrip | sandbox/chess_engine.py:32-65 | `fen_to_board(board_to_fen(r)) == r` for every record of 64 cells and non-empty space-free fields |
| Fen.FenCanonical | sandbox/chess_engine.py:32-65 | `board_to_fen(*fen_to_board(fen)) == fen` for every FEN of the canonical form, which is stated on the text alone: six space-separated fields; a board field of eight '/'-separated rows, each of piece letters and single non-zero digits, no two digits adjacent, denoting eight cells; and clock fields that `str()` writes. On such a string `fen_to_board` succeeds with a record `board_to_fen` accepts |
| Fen.EncodeFenCanonical | sandbox/chess_engine.py:49-65 | every string `board_to_fen` writes has the canonical form; with FenRoundTrip and FenCanonical, the two functions are inverse between encodable records and canonical strings |
| Fen.EncodeBoardCanonical | sandbox/chess_engine.py:50-63 | the board field written for 64 legal cells is eight canonical rows of eight cells each |
| Fen.RowCanonical | sandbox/chess_engine.py:52-62 | row r that `board_to_fen` writes is canonical and denotes eight cells |
| Fen.EncodeRowCanon | sandbox/chess_engine.py:52-62 | the run-counting loop writes a canonical row: piece letters and non-zero run counts, never two counts in a row |
| Fen.EncodeExpandRow | sandbox/chess_engine.py:37-62 | writing out the cells a canonical row denotes gives the row back, after the count of the pending empty run |
| Fen.EncodePiece | sandbox/chess_engine.py:58-61 | writing a piece flushes the pending run count, then writes the piece |
| Fen.EncodeDots | sandbox/chess_engine.py:55-57 | a run of n empty cells adds n to the pending run count |
| Fen.ExpandRowCons | sandbox/chess_engine.py:37-41 | the cells of a row are the cells of its first character followed by those of the rest |
| Fen.CanonRowCells | sandbox/chess_engine.py:37-41 | a canonical row denotes only board cells |
| Fen.ExpandRowsEights | sandbox/chess_engine.py:34-41 | rows of eight cells each lie one after the other in the board, row i at cells 8i to 8i+7 |
| Fen.CanonBoardRoundTrip | sandbox/chess_engine.py:34-63 | a canonical board field reads as 64 legal cells that `board_to_fen` writes back as the same field |
| Fen.CanonBoardCells | sandbox/chess_engine.py:34-41 | a canonical board field denotes 64 board cells |
| Fen.CanonBoardRows | sandbox/chess_engine.py:34-63 | `board_to_fen` writes back each row of a canonical board field |
| Fen.ParseSixFields | sandbox/chess_engine.py:33-47 | `fen_to_board` of six fields with integer clocks returns the expanded board, the three text fields and both clocks |
| Positions.MakeMove | sandbox/chess_engine.py:224-254 | `make_move_struct`: squares, promotion, moving piece and the pre-move castling, en passant and halfmove are recorded; en passant is flagged exactly for a pawn stepping one file sideways onto an empty en-passant target, and then the victim is the enemy pawn; castling is flagged exactly for a king moving two files |
| Positions.ApplyBoard | sandbox/chess_engine.py:144-164 | the board after a push still has 64 cells |
| Positions.Apply | sandbox/chess_engine.py:139-183 | the position after a push still has 64 cells |
| Positions.UndoBoard | sandbox/chess_engine.py:194-216 | the board after a pop still has 64 cells |
| Positions.Undo | sandbox/chess_engine.py:185-222 | the position after a pop still has 64 cells |
| Positions.ApplyUndoBoard | sandbox/chess_engine.py:139-222 | popping a pushed move restores every cell, including the en-passant victim and the castling rook |
| Positions.UndoApply | sandbox/chess_engine.py:139-222 | push then pop restores the whole position: board, side, castling, en passant and both clocks |
| Positions.PushFields | sandbox/chess_engine.py:166-181 | after a push: the side toggles; castling is the move's saved rights; en passant is set, to the midpoint square, exactly after a pawn double step; halfmove resets on a pawn move or capture and counts up otherwise; fullmove increases only after Black's move |
| Positions.PushBoard | sandbox/chess_engine.py:144-164 | after a push: the target holds the promotion or the piece, the origin is empty, the en-passant victim is gone, the rook has jumped, and every other cell is unchanged |
| Positions.ApplyWellFormed | sandbox/chess_engine.py:139-183 | a push keeps the position well formed |
| Positions.UndoWellFormed | sandbox/chess_engine.py:185-222 | a pop keeps the position well formed |
| Zobrist.XorComm | sandbox/chess_engine.py:128 | `^` is commutative |
| Zobrist.XorSelf | sandbox/chess_engine.py:128 | `x ^ x == 0` |
| Zobrist.XorAssoc | sandbox/chess_engine.py:128 | `^` is associative |
| Zobrist.BoardHashUpdate | sandbox/chess_engine.py:126-128 | changing one cell changes the board hash by XOR-ing out the old key and XOR-ing in the new one |
| Zobrist.PlainMoveHash | sandbox/chess_engine.py:142-145 | for a plain move, the board hash after the push follows incrementally from the three cell keys involved |
| State.GameState.constructor | sandbox/chess_engine.py:100-106 | `GameState(fen)` holds the position `fen_to_board` reads, an empty history and its hash |
| State.GameState.ComputeZobrist | sandbox/chess_engine.py:124-137 | the loop returns the XOR of the keys of the occupied cells, Black to move, each castling letter and the en-passant file |
| State.GameState.PushMove | sandbox/chess_engine.py:139-183 | `push_move`: the new state is `Apply(old, m)`, the history gains m, and the hash is recomputed |
| State.GameState.AdvanceClocks | sandbox/chess_engine.py:166-181 | the field updates of `push_move` |
| State.GameState.PlaceCells | sandbox/chess_engine.py:144-164 | the in-place board writes of `push_move` give `ApplyBoard` |
| State.GameState.PopMove | sandbox/chess_engine.py:185-222 | `pop_move`: with an empty history nothing changes; otherwise the last move is removed from the history and undone |
| State.GameState.RewindClocks | sandbox/chess_engine.py:190-220 | the field updates of `pop_move` |
| State.GameState.RestoreCells | sandbox/chess_engine.py:194-216 | the in-place board writes of `pop_move` give `UndoBoard` |
| State.GameState.MakeMoveStruct | sandbox/chess_engine.py:224-254 | `make_move_struct` on the state is `MakeMove` on its position |
| Movegen.OffsetsSymmetric | sandbox/chess_engine.py:269-274 | the knight, king, bishop and rook offset tables are closed under negation |
| Movegen.Promotions | sandbox/chess_engine.py:321-323 | a promotion yields four moves, to Q, R, B, N in the mover's case |
| Movegen.CastleTargets | sandbox/chess_engine.py:390-406 | castling targets are two files from the king |
| Movegen.MovesTo | sandbox/chess_engine.py:396-406 | one move to each target, in order |
| MoveFacts.SoundRestorable | sandbox/chess_engine.py:139-222 | a sound move, one the corrected generators produce, on a consistent position is well formed and can be pushed and popped back exactly |
| MoveFacts.SoundApply | sandbox/chess_engine.py:139-183 | pushing a generated move keeps the position consistent |
| MoveFacts.PawnMovesSound | sandbox/chess_engine.py:311-351 | every pawn move starts on the mover's pawn and lands on an empty or enemy square |
| MoveFacts.LeapsSound | sandbox/chess_engine.py:353-389 | knight and king steps start on the mover's piece, land on an empty or enemy square, and stay within file distance 2 and 1 |
| MoveFacts.RaySound | sandbox/chess_engine.py:365-378 | every move of a sliding ray is sound |
| MoveFacts.SlidesSound | sandbox/chess_engine.py:365-378 | every sliding move is sound |
| MoveFacts.CastleSound | sandbox/chess_engine.py:390-406 | every castle of the corrected generator is sound: the king is on its home square and the squares between are empty |
| MoveFacts.PieceMovesSound | sandbox/chess_engine.py:297-308 | the moves of each piece of the side to move are sound, with castling corrected to the home square |
| MoveFacts.PseudoLegalSound | sandbox/chess_engine.py:288-309 | with the corrected castling generator: every pseudo-legal move starts on a piece of the side to move and never lands on a friendly piece |
| MoveFacts.OccupiedUpdate | sandbox/chess_engine.py:144-153 | writing one cell changes the piece count by the difference of the two cells |
| MoveFacts.CaptureShrinks | sandbox/chess_engine.py:773-780 | a capture leaves fewer pieces on the board, which bounds the recursion of quiescence |
| MoveShapes.PawnSource | sandbox/chess_engine.py:311-351 | a pawn move is a push, a capture to one side, or an en-passant capture to one side |
| MoveShapes.PushOntoLastRank | sandbox/chess_engine.py:319-323 | a single push onto the promotion rank yields exactly four moves, promoting to Q/R/B/N in the mover's case |
| MoveShapes.PromotesOnLastRank | sandbox/chess_engine.py:319-344 | a pawn move promotes exactly when it lands on the promotion rank |
| MoveShapes.DoublePushShape | sandbox/chess_engine.py:326-330 | a double push comes only from the start rank, with both squares empty |
| MoveShapes.PushesStayOnFile | sandbox/chess_engine.py:317-330 | pushes stay on the pawn's file |
| MoveShapes.CaptureOntoEnemy | sandbox/chess_engine.py:332-344 | diagonal captures land only on enemy pieces |
| MoveShapes.EnpassantOntoTarget | sandbox/chess_engine.py:346-351 | en-passant moves land on the empty target and are flagged `is_enpassant` |
| MoveShapes.DiagonalIsCapture | sandbox/chess_engine.py:332-351 | a pawn move that changes file lands on an enemy piece or is an en-passant capture |
| MoveShapes.LeapShape | sandbox/chess_engine.py:353-389 | a knight or king step uses one of the offsets, stays within the file-distance bound, and lands on an empty or enemy square |
| MoveShapes.RayShape | sandbox/chess_engine.py:365-378 | a ray visits consecutive squares along d, passes only empty squares, and its last move may land on an occupied (enemy) square |
| MoveShapes.CastleConditions | sandbox/chess_engine.py:390-406 | the corrected generator offers a castle only for the side to move, from the king's home square, with the matching right present and the squares between empty |
| MoveShapes.CastleFromAnySquare | sandbox/chess_engine.py:391-399 | as written, a white king on h1 with right K gets castle target 65, off the board, and one on a1 with right Q gets target 54 (g2), six files away |
| MoveShapes.CastleOffHomeErasesKing | sandbox/chess_engine.py:139-222 | as written, with the white king on d1 and right K, the castle d1-f1 is offered; its rook squares are d1 and g1, so push_move then pop_move leave d1 empty and the king is gone |
| MoveShapes.CastleAtHomeAgrees | sandbox/chess_engine.py:391-406 | from the king's home square, the corrected castling generator and the one as written agree |
| Generators.AddPromotions | sandbox/chess_engine.py:321-323 | the loop appends exactly the four promotions |
| Generators.AddPawnPushes | sandbox/chess_engine.py:317-330 | the push part of `generate_pawn_moves` appends exactly `PawnPushes` |
| Generators.AddPawnCaptures | sandbox/chess_engine.py:332-344 | the capture loop appends exactly the captures to both sides |
| Generators.AddPawnCapture | sandbox/chess_engine.py:333-344 | one side of the capture loop |
| Generators.AddPawnEnpassants | sandbox/chess_engine.py:346-351 | the en-passant loop appends exactly its moves |
| Generators.GeneratePawnMoves | sandbox/chess_engine.py:311-351 | `generate_pawn_moves` appends exactly `PawnMoves` |
| Generators.AddLeaps | sandbox/chess_engine.py:356-363 | the offset loop appends exactly the steps that stay on the board, within the file bound, onto empty or enemy squares |
| Generators.GenerateKnightMoves | sandbox/chess_engine.py:353-363 | `generate_knight_moves` appends exactly the knight's steps |
| Generators.AddRay | sandbox/chess_engine.py:369-378 | the `while` loop appends exactly the ray's moves |
| Generators.GenerateSlidingMoves | sandbox/chess_engine.py:365-378 | `generate_sliding_moves` appends exactly the rays in `dirs` |
| Generators.GenerateKingMoves | sandbox/chess_engine.py:380-406 | `generate_king_moves` appends the king steps, then the castles of the corrected generator |
| Generators.AddCastling | sandbox/chess_engine.py:390-406 | the castling part, corrected to the home square, appends exactly `CastleMoves` |
| Generators.CastlingTargets | sandbox/chess_engine.py:391-406 | the castle targets tested, from the king's home square only (corrected) |
| Generators.GeneratePieceMoves | sandbox/chess_engine.py:297-308 | the dispatch on the piece letter |
| Generators.GeneratePseudoLegalMoves | sandbox/chess_engine.py:288-309 | `generate_pseudo_legal_moves`, with castling corrected, returns exactly `PseudoLegal` |
| Attacks.FirstPiece | sandbox/chess_engine.py:436-443 | the walk along a direction stops only at an occupied square on the board |
| Attacks.PawnAttackAsWrittenMisses | sandbox/chess_engine.py:414-426 | the pawn scan as written misses a pawn on e4 that attacks d5, and reports one on d5 as attacking e4 |
| Attacks.AttackedAgreesAwayFromPawns | sandbox/chess_engine.py:411-461 | the attack test as written and the corrected one give the same answer whenever no pawn of the attacking side stands on a diagonal neighbour of the square |
| Attacks.ScanPawns | sandbox/chess_engine.py:413-426 | the pawn scan, with the squares corrected, returns `PawnAttack` |
| Attacks.ScanLeapers | sandbox/chess_engine.py:427-433 | the knight and king scans return `LeaperAttack` |
| Attacks.ScanRay | sandbox/chess_engine.py:436-443 | one direction of the slider scan returns whether the first piece met is an attacker |
| Attacks.ScanSliders | sandbox/chess_engine.py:434-453 | the diagonal and straight scans return `SliderAttack` |
| Attacks.IsSquareAttacked | sandbox/chess_engine.py:411-461 | `is_square_attacked` with the pawn scan corrected returns `Attacked` |
| CheckFacts.InPseudoLegal | sandbox/chess_engine.py:293-308 | the moves of any piece of the side to move are among the pseudo-legal moves |
| CheckFacts.PseudoLegalSource | sandbox/chess_engine.py:293-308 | every pseudo-legal move comes from a piece of the side to move |
| CheckFacts.PawnAttackCapture | sandbox/chess_engine.py:413-426 | a pawn the scan finds can capture on the square |
| CheckFacts.PawnCaptureAttack | sandbox/chess_engine.py:332-344 | a pawn that can capture on the square is found by the pawn scan |
| CheckFacts.LeaperAttackCapture | sandbox/chess_engine.py:427-433 | a knight or king the scan finds can capture on the square |
| CheckFacts.LeapCaptureAttack | sandbox/chess_engine.py:353-389 | a knight or king step onto the square is found by the scan |
| CheckFacts.RayAttackCapture | sandbox/chess_engine.py:434-453 | the first piece met along a direction can slide back onto the square |
| CheckFacts.SliderAttackCapture | sandbox/chess_engine.py:434-453 | a slider the scan finds has a ray move onto the square |
| CheckFacts.SlideCaptureAttack | sandbox/chess_engine.py:365-378 | a slide onto the square is found by the slider scan |
| CheckFacts.QueenRays | sandbox/chess_engine.py:274 | queen moves are bishop or rook moves |
| CheckFacts.QueenHas | sandbox/chess_engine.py:274 | bishop and rook moves from a square are queen moves from it |
| CheckFacts.SliderScanCapture | sandbox/chess_engine.py:434-453 | a bishop, rook or queen the scans find can capture on the square |
| CheckFacts.AttackGivesCapture | sandbox/chess_engine.py:411-461 | if the square is attacked, some pseudo-legal move of the attacking side lands on it |
| CheckFacts.CaptureGivesAttack | sandbox/chess_engine.py:411-461 | if a pseudo-legal move lands on the square, the attack test reports it |
| CheckFacts.AttackedIffCapture | sandbox/chess_engine.py:411-461 | the attack test with the pawn scan corrected holds exactly when the attacking side has a pseudo-legal move onto the square |
| Legality.FirstFrom | sandbox/chess_engine.py:471-473 | the king search finds the first matching cell, or none when none matches |
| Legality.SoundUndoable | sandbox/chess_engine.py:465-480 | every move of the corrected generators can be pushed and popped back exactly |
| Legality.LegalFilterMembers | sandbox/chess_engine.py:463-483 | with candidates that pop back exactly, a move is kept exactly when it is a candidate and, after it, the mover's king exists and is not attacked by the corrected test |
| Legality.LegalFilterAppend | sandbox/chess_engine.py:463-483 | the filter works move by move, keeping the input order |
| Legality.LegalFilterIdempotent | sandbox/chess_engine.py:463-483 | filtering twice is filtering once |
| Legality.KingSafeIffNoCapture | sandbox/chess_engine.py:463-483 | a move is kept exactly when, after it, the mover's king exists and no pseudo-legal reply lands on it (corrected attack test) |
| Legality.FindKing | sandbox/chess_engine.py:469-473 | the loop returns the first square holding the king |
| Legality.IsKingSafeAfter | sandbox/chess_engine.py:466-480 | push, find the mover's king, test it with the corrected attack test, pop: returns the legality test and leaves the position pop_move leaves, with the history as it was |
| Legality.FilterLegalMoves | sandbox/chess_engine.py:463-483 | `filter_legal_moves` on any well-formed candidates returns exactly `FilterThread`'s moves, tests each on the position the previous push and pop left, ends in `FilterThread`'s position, and keeps the history |
| Legality.PushPop | sandbox/chess_engine.py:139-222 | the position `push_move` then `pop_move` leave is well formed, and is the starting position whenever the move pops back exactly |
| Legality.FilterThreadKeeps | sandbox/chess_engine.py:463-483 | the filter as written keeps an order-preserving subsequence of the candidates: only candidates, in their order, no more of them than it was given |
| Legality.FilterThreadRestorable | sandbox/chess_engine.py:463-483 | when every candidate pops back exactly, the filter as written keeps exactly `LegalFilter`'s moves and the position comes back unchanged |
| Legality.FilterThreadCons | sandbox/chess_engine.py:465-482 | one step of the filter: the first candidate is kept when its test passes, and the rest are tested from the position its push and pop left |
| Legality.FilterOffHomeCastle | sandbox/chess_engine.py:463-483 | filtering the d1-f1 castle the generator as written offers leaves a position with no white king: the filter as written does not restore it |
| Evaluation.Table | sandbox/chess_engine.py:492-558 | `PST.get` finds a 64-entry table exactly for the six white letters |
| Evaluation.CellScores | sandbox/chess_engine.py:568-571 | each square's contribution is its material plus its table value |
| Evaluation.Mirror | sandbox/chess_engine.py:561-564 | the colour-swapped board holds at i the swapped piece from 63 - i |
| Evaluation.EmptyBoardScoresZero | sandbox/chess_engine.py:566-573 | an empty board scores 0 |
| Evaluation.CellScoreMirror | sandbox/chess_engine.py:555-571 | a swapped piece at 63 - i scores the negation of the piece at i |
| Evaluation.PieceValueSwap | sandbox/chess_engine.py:488-489 | the two colours' `PIECE_VALUES` are opposite |
| Evaluation.PstValueSwap | sandbox/chess_engine.py:555-564 | `pst_value` of the swapped piece at 63 - sq is the negation |
| Evaluation.ScoreMirror | sandbox/chess_engine.py:566-573 | swapping every piece's colour while mapping sq to 63 - sq negates the score |
| Evaluation.ScoreUpdate | sandbox/chess_engine.py:566-573 | changing one cell changes the score by the difference of that cell's contributions |
| Evaluation.Evaluate | sandbox/chess_engine.py:566-573 | the `evaluate` loop returns `Score` of the board |
| Ordering.Insert | sandbox/chess_engine.py:608 | inserting into the sorted list adds one element |
| Ordering.InsertPermutes | sandbox/chess_engine.py:608 | insertion adds exactly the new move |
| Ordering.InsertDescending | sandbox/chess_engine.py:608 | insertion keeps the list in descending key order |
| Ordering.SortDescProperties | sandbox/chess_engine.py:608 | the sort is descending and a permutation of its input |
| Ordering.SortDescSorted | sandbox/chess_engine.py:608 | a list already in descending order is unchanged (ties are not reordered) |
| Ordering.SortByKeyProperties | sandbox/chess_engine.py:608-609 | sorting by key is a permutation in descending key order |
| Ordering.SortByKeyStable | sandbox/chess_engine.py:608-609 | input already in key order is returned unchanged |
| Ordering.SortDescStable | sandbox/chess_engine.py:608-609 | the sort is stable: for every key, the pairs with that key leave in the order they came in |
| Ordering.SortByKeyKeepsTies | sandbox/chess_engine.py:608-609 | for every key value, the moves with that key come out of `SortByKey` in their input order, as Python's stable `sort` keeps them |
| Ordering.MoveOrderPermutes | sandbox/chess_engine.py:593-609 | `order_moves` returns a permutation of its input in descending score order |
| Ordering.CaptureOrderPermutes | sandbox/chess_engine.py:776 | quiescence's capture sort returns a permutation in descending material-gain order |
| Search.PseudoLegalUndoable | sandbox/chess_engine.py:726-727 | every move of the corrected generator can be pushed, tested and popped back exactly |
| Search.LegalMovesSound | sandbox/chess_engine.py:726-727 | every legal move is pseudo-legal, sound, undoable and leaves the king safe under the corrected attack test |
| Search.OrderedSound | sandbox/chess_engine.py:740 | the ordered moves are legal moves |
| Search.ChildAt | sandbox/chess_engine.py:744-747 | the k-th move leads to a consistent child that pops back to the parent |
| Search.CaptureAt | sandbox/chess_engine.py:777-780 | the k-th capture leads to a consistent child with fewer pieces that pops back to the parent |
| Search.SoundChild | sandbox/chess_engine.py:745 | a sound move leads to a consistent child |
| Search.CaptureChild | sandbox/chess_engine.py:778 | a capture leads to a consistent child with fewer pieces |
| Search.ChildrenFrom | sandbox/chess_engine.py:744-747 | a list of sound moves can be searched move by move |
| Search.CaptureChildrenFrom | sandbox/chess_engine.py:777-780 | a list of sound captures can be searched move by move |
| Search.Captures | sandbox/chess_engine.py:774 | the capture filter keeps exactly the moves that take a piece |
| Search.QuiescenceMovesSound | sandbox/chess_engine.py:773-776 | every capture quiescence tries is sound and takes a piece |
| Search.EngineListsLawful | sandbox/chess_engine.py:726-776 | the engine's move and capture lists are fit for the search functions |
| Search.EngineMoves | sandbox/chess_engine.py:726-740 | alphabeta tries a permutation of the legal moves, and none exactly when there are no legal moves |
| Search.QSearchBounds | sandbox/chess_engine.py:766-785 | for alpha <= beta, quiescence returns a value in [alpha, beta] (fail-hard) |
| Search.QLoopStep | sandbox/chess_engine.py:777-784 | one capture of the loop: return beta on a cutoff, otherwise continue with alpha raised |
| Search.QLoopAt | sandbox/chess_engine.py:777-784 | the same step at the k-th capture |
| Search.QLoopBounds | sandbox/chess_engine.py:777-785 | the capture loop stays in [alpha, beta] |
| Search.TtFlag | sandbox/chess_engine.py:758-762 | the flag is LOWER exactly when best >= beta, UPPER exactly when best <= alpha_orig and not LOWER, and EXACT otherwise |
| Search.TableProbe | sandbox/chess_engine.py:711-723 | a hit needs an entry at least as deep and returns its score; an EXACT entry always hits; without a usable entry the window is unchanged; the window only narrows; and after a usable entry it stays open |
| Search.ABBounded | sandbox/chess_engine.py:705-764 | alphabeta's score and every stored score lie in [-INF, INF] |
| Search.ABSearchBounded | sandbox/chess_engine.py:724-764 | the same after the table probe |
| Search.ABLoopStep | sandbox/chess_engine.py:744-756 | one move of the loop: update best score and move, raise alpha, stop when alpha >= beta |
| Search.ABLoopAt | sandbox/chess_engine.py:744-756 | the same step at the k-th move |
| Search.ABLoopBounded | sandbox/chess_engine.py:744-756 | the loop's best score and table stay within [-INF, INF] |
| Search.MateOrStalemate | sandbox/chess_engine.py:728-739 | without legal moves, alphabeta scores `-INF + (100 - depth)` when the king is missing or attacked under the corrected test, and 0 for stalemate |
| Search.RootLoopStep | sandbox/chess_engine.py:634-642 | one move of the root loop: a better value becomes alpha and the best move |
| Search.RootLoopAt | sandbox/chess_engine.py:634-642 | the same step at the k-th move |
| Search.RootLoopChooses | sandbox/chess_engine.py:634-643 | the root value never falls below alpha, and when it rises the best move is one of the moves tried |
| Search.RootChooses | sandbox/chess_engine.py:627-643 | the root returns a move it tried with a score above -INF, or no move and -INF |
| Search.DeepenStep | sandbox/chess_engine.py:616-621 | one iteration of deepening takes over the root's move, score and table and goes one ply deeper |
| Search.DeepenChooses | sandbox/chess_engine.py:611-625 | the move deepening returns is one the search tried; past the maximum depth nothing changes |
| Search.SearchChoosesLegal | sandbox/chess_engine.py:611-625 | `search` returns a legal move or none, and none with -INF when max_depth < 1 |
| Searching.ScoreNoMoves | sandbox/chess_engine.py:729-739 | the king search and the corrected attack test return `NoMovesScore` |
| Searching.LegalMoveList | sandbox/chess_engine.py:726-727 | generate with castling corrected, then filter: exactly `LegalMoves`, with the state left as it was |
| Searching.LegalCaptureList | sandbox/chess_engine.py:773-776 | generate with castling corrected, keep captures, filter, sort: exactly the captures quiescence tries, with the state left as it was |
| Searching.EngineIsEngine | sandbox/chess_engine.py:705-785 | the engine's own hash, evaluation and move lists form the ingredients the methods use |
| Searching.Quiescence | sandbox/chess_engine.py:766-785 | `quiescence` returns `QSearch` and leaves the state as it was |
| Searching.QuiescenceLoop | sandbox/chess_engine.py:777-785 | the capture loop returns `QLoop` |
| Searching.QuiescenceStep | sandbox/chess_engine.py:778-784 | one capture: cutoff at beta, otherwise alpha raised |
| Searching.QuiescenceChild | sandbox/chess_engine.py:778-780 | push, recurse with the negated window, pop |
| Searching.Searcher.constructor | sandbox/chess_engine.py:581-587 | a new searcher has an empty table |
| Searching.Searcher.OrderMoves | sandbox/chess_engine.py:593-609 | `order_moves` returns `MoveOrder` |
| Searching.Searcher.AlphaBeta | sandbox/chess_engine.py:705-764 | `alphabeta` returns AB's score, leaves its table in `tt`, and leaves the state as it was |
| Searching.Searcher.ProbeTable | sandbox/chess_engine.py:711-723 | the early-return lookup returns `TableProbe` |
| Searching.Searcher.SearchNode | sandbox/chess_engine.py:724-764 | the body after the probe returns `ABSearch` |
| Searching.Searcher.MoveLoop | sandbox/chess_engine.py:741-764 | the move loop returns `ABLoop` |
| Searching.Searcher.MoveStep | sandbox/chess_engine.py:744-756 | one move of the loop |
| Searching.Searcher.SearchChild | sandbox/chess_engine.py:745-747 | push, search with the negated window, pop |
| Searching.Searcher.AlphaBetaRoot | sandbox/chess_engine.py:627-643 | `alphabeta_root` returns `Root` |
| Searching.Searcher.RootMoves | sandbox/chess_engine.py:634-643 | the root loop returns `RootLoop` |
| Searching.Searcher.RootStep | sandbox/chess_engine.py:634-642 | one move of the root loop |
| Searching.Searcher.Search | sandbox/chess_engine.py:611-625 | `search` is iterative deepening from depth 1 to max_depth, returning `Deepen` |
| Notation.Promotion | sandbox/chess_engine.py:796-800 | a fifth character asks for a promotion exactly when it is one of q, r, b, n in either case, and for that kind |
| Notation.Pick | sandbox/chess_engine.py:804-820 | the candidate loop finds nothing exactly when no candidate matches; otherwise it answers at the first matching candidate |
| Notation.ParseMoveInput | sandbox/chess_engine.py:790-820 | `parse_move_input` returns `ParseMove` on the legal moves and leaves the state as it was |
| Notation.ScanCandidates | sandbox/chess_engine.py:804-820 | the loop with its early returns gives `Pick` |
| Notation.ChosenIsCandidate | sandbox/chess_engine.py:790-820 | a chosen move has the typed squares and is a candidate, or the default queen promotion of a candidate promotion |
| Notation.MoveText | sandbox/chess_engine.py:73-76 | a move's coordinate text has four characters, or five for a promotion |
| Notation.ParseMoveText | sandbox/chess_engine.py:790-820 | typing a candidate's coordinates chooses a move between those squares, with the typed promotion when there is one |

## Left out

- Wall-clock time is left out: `time_exceeded`, `time_limit` and the early returns on timeout. `search` is depth-limited iterative deepening.
- The `nodes` counter and `best_line` are bookkeeping that no result depends on. They are left out.
- Zobrist keys are random: `random.seed` and `getrandbits` fill them in. The key table is a parameter `keys: Key -> nat`, so every proved property holds for any key table. XOR is on unbounded naturals, as Python's `^` is.
- The console and the driving loops are left out: `print_board`, `human_vs_engine`, `engine_vs_engine` and `main`.
- Searching.Searcher.OrderMoves: `order_moves` takes a `state` argument it never reads, so the method has no such parameter.
- Ordering.MoveKey: the float centre distance `abs(file-3.5)+abs(rank-3.5)` is modelled doubled. Twice the whole score is an integer that orders the moves the same way.
- The piece-square tables are kept as written. They read like tables laid out from rank 1, while the board is indexed from a8, but they are heuristic data, so no finding is claimed.
- Quiescence stands pat on `evaluate`, which scores from White's side whoever is to move. The model keeps this.
- The live `alphabeta` body is not indented under its `def`, so the file does not parse as shown. The model takes the evidently intended method: the commented draft with `alpha_orig` set after the table probe.
- Castling rights are never revoked, because `push_move` copies `move.prev_castling`. Castling is offered without testing attacked squares. Both are modelled as written. Where the castle is offered from is corrected to the home square, as the lines below say.
- Text.StripSpaceShape: whitespace is Python's ASCII `isspace()` set. Unicode whitespace is not modelled, and neither are the non-ASCII digits `int()` accepts.
- Search.ABBounded: the bound on scores needs `depth <= 100`, so that the mate score `-INF + (100 - depth)` stays within [-INF, INF].
- Positions and moves carry preconditions the engine does not check. `Consistent` requires that an en-passant target has the enemy pawn behind it. `Undoable` and `Restorable` require a move built by `make_move_struct` whose rook and en-passant victim are where the move says. Without them, `pop_move` does not restore the board exactly.
- Legality.FilterLegalMoves: the candidates must be well formed, so that `push_move` stays on the board and keeps a valid state. A candidate that does not pop back exactly is modelled as written: the rest are tested on the changed position (`FilterThread`; `FilterOffHomeCastle`). The lists the engine passes come from the corrected generators, so every candidate pops back (`FilterThreadRestorable`).
- Each loop body that pushes, recurses and pops is a method of its own. In `Searching`, the loop bodies are `QuiescenceStep`, `MoveStep` and `RootStep`, and the push/recurse/pop is `QuiescenceChild` and `SearchChild`. The loop itself keeps the source's order of moves and cutoffs.
- Notation.ChosenIsCandidate: this lemma and `ParseMoveText` are stated over any candidate list. `ParseMoveInput` proves that its candidates are the legal moves.
- Notation.ParseMoveText: typing a move's text reaches a move between the same squares. When several legal moves share those squares, the loop stops at the first one. For a promotion typed with its letter, that first one is the promotion to the typed piece.
- The search methods take a ghost `Ingredients` value that `EngineIsEngine` ties to the engine's own hash, evaluation and move lists. The search functions are stated over any such value.
- MoveFacts.SoundRestorable: states the corrected castling generator, which castles only from e1 / e8. As written, a king away from its home square castles too whenever the right letter and the fixed squares allow it (`CastleTargets`). From d1 that castle cannot be popped back (MoveShapes.CastleOffHomeErasesKing). MoveShapes.CastleAtHomeAgrees shows the two generators agree on the home square.
- MoveFacts.CastleSound: states the corrected castling generator, as the MoveFacts.SoundRestorable line says.
- MoveFacts.PieceMovesSound: states the corrected castling generator, as the MoveFacts.SoundRestorable line says.
- MoveShapes.CastleConditions: states the corrected castling generator, as the MoveFacts.SoundRestorable line says.
- Generators.GenerateKingMoves: states the corrected castling generator, as the MoveFacts.SoundRestorable line says.
- Generators.AddCastling: states the corrected castling generator, as the MoveFacts.SoundRestorable line says.
- Generators.CastlingTargets: states the corrected castling generator, as the MoveFacts.SoundRestorable line says.
- Generators.GeneratePseudoLegalMoves: states the corrected castling generator, as the MoveFacts.SoundRestorable line says.
- Legality.SoundUndoable: states the corrected castling generator, as the MoveFacts.SoundRestorable line says.
- Search.PseudoLegalUndoable: states the corrected castling generator, as the MoveFacts.SoundRestorable line says.
- Attacks.ScanPawns: states the corrected pawn scan. As written, the scan looks for attacking pawns on the squares behind the target (`AttackedAsWritten`), so it misses real pawn attacks and reports impossible ones (Attacks.PawnAttackAsWrittenMisses). The two tests differ only through a pawn of the attacking side on a diagonal neighbour of the square (Attacks.AttackedAgreesAwayFromPawns).
- Attacks.IsSquareAttacked: states the corrected pawn scan, as the Attacks.ScanPawns line says.
- Legality.LegalFilterMembers: states the corrected pawn scan, as the Attacks.ScanPawns line says.
- Legality.KingSafeIffNoCapture: states the corrected pawn scan, as the Attacks.ScanPawns line says.
- Legality.IsKingSafeAfter: states the corrected pawn scan, as the Attacks.ScanPawns line says.
- Search.MateOrStalemate: states the corrected pawn scan, as the Attacks.ScanPawns line says.
- Searching.ScoreNoMoves: states the corrected pawn scan, as the Attacks.ScanPawns line says.
- Search.LegalMovesSound: states the corrected castling generator and the corrected pawn scan, as the MoveFacts.SoundRestorable and Attacks.ScanPawns lines say.
- Searching.LegalMoveList: states the corrected castling generator and the corrected pawn scan, as the MoveFacts.SoundRestorable and Attacks.ScanPawns lines say.
- Searching.LegalCaptureList: states the corrected castling generator and the corrected pawn scan, as the MoveFacts.SoundRestorable and Attacks.ScanPawns lines say.
- Fen.ParseFen: the board field is read with an ASCII digit test. Python's `isdigit()` is also true of other Unicode digits: `int('²')` then raises ValueError, and '٣' adds three empty cells. Board fields holding such characters are not modelled: the model treats each as a one-cell piece.
- Fen.FenToBoard: reads the board field with the same ASCII digit test, as the Fen.ParseFen line says.
- MoveFacts.PseudoLegalSound: states the corrected castling generator, as the MoveFacts.SoundRestorable line says. As written, the queen-side castle tests only squares 59, 58 and 57, never its own target. So a king on e2 with right Q and b1, c1, d1 empty is offered e2-c2, even onto its own piece.
- Text.ParseInt: models `int()` on a field of `split()`, which has no surrounding whitespace. The non-ASCII digits `int()` also accepts are not modelled.

## Findings

| source | as written | input that shows it | evidently intended | confidence | as-written member | corrected member |
|---|---|---|---|---|---|---|
| sandbox/chess_engine.py:391-406 | castling is generated from whatever square the king stands on, to `i+2` / `i-2` | white king alone on h1 with castling "K": the target is 65, off the board; a king on a1 with "Q" gets a move to g2 (54), six files away | castle only from e1 / e8 | not executed | MoveShapes.CastleFromAnySquare | MoveShapes.CastleAtHomeAgrees |
| sandbox/chess_engine.py:391-399 | the king-side castle is offered from any square while right K is present and f1, g1 are empty | white king on d1 (after e1-d1; rights are never revoked), black king on e8, castling "K": d1-f1 is offered, its rook squares are d1 and g1, and push_move then pop_move leave no white king on the board | castle only from e1, so that the rook squares are h1 and f1 and pop_move restores the position | not executed | MoveShapes.CastleOffHomeErasesKing | MoveFacts.SoundRestorable |
| sandbox/chess_engine.py:414-426 | a white attacker pawn is looked for at `sq-9` / `sq-7`, a black one at `sq+9` / `sq+7` | white pawn on e4, black king on d5: the pawn that can take the king is not seen; pawn on d5, king on e4: an attack is reported | white pawns at `sq+7` / `sq+9`, black pawns at `sq-7` / `sq-9`, on a neighbouring file | not executed | Attacks.PawnAttackAsWrittenMisses | CheckFacts.AttackedIffCapture |
